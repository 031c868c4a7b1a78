/**
 What the coordinator answers to a renewal or a result, and what a worker makes of the answer.
 */
module Wire {
  import opened Options
  import opened LeaseContract
  import opened LeaseModel
  import opened LeaseInvariants
  import opened LeaseRuns
  import opened LeaseDeadlines
  import Identifiers
  import opened Text

  datatype PullStatus =
    | StatusTaskAvailable | StatusNoTask | StatusLeaseRenewed
    | StatusCompleted | StatusRequeued | StatusFailed | StatusStaleLease | StatusRejected

  datatype Response = Response(code: int, status: PullStatus)

  datatype RenewRequest = RenewRequest(workerId: string, taskId: string, leaseId: string)

  /** `resultTaskId` is the task ID repeated inside the result body; it may be empty.  `size` is the length of the
      encoded request, which grows with the characters that JSON escapes. */
  datatype ResultRequest = ResultRequest(workerId: string, taskId: string, leaseId: string,
                                         resultTaskId: string, result: Result, size: nat)

  const OK := 200
  const BAD_REQUEST := 400
  const UNAUTHORIZED := 401
  const NOT_FOUND := 404
  const CONFLICT := 409
  const TOO_LARGE := 413

  const MAX_REQUEST := 128 * 1024
  const MAX_OUTPUT := 64 * 1024
  const MAX_ERROR := 4 * 1024

  /** pullErrorResponse */
  function ErrorResponse(error: QueueError): Response {
    match error
    case AlreadyCompleted => Response(CONFLICT, StatusCompleted)
    case StaleLease => Response(CONFLICT, StatusStaleLease)
    case TaskFailed => Response(CONFLICT, StatusFailed)
    case TaskNotFound => Response(NOT_FOUND, StatusRejected)
    case WrongWorker => Response(CONFLICT, StatusRejected)
    case _ => Response(BAD_REQUEST, StatusRejected)
  }

  /** validateLeaseRequest */
  ghost predicate WellFormed(workerId: string, taskId: string, leaseId: string) {
    && Identifiers.Safe(workerId, Identifiers.MAX_WORKER_ID)
    && Identifiers.Safe(taskId, Identifiers.MAX_TASK_ID)
    && Identifiers.Safe(leaseId, Identifiers.MAX_LEASE_ID)
  }

  predicate WithinLimits(r: ResultRequest) {
    && ByteLength(r.resultTaskId) <= Identifiers.MAX_TASK_ID
    && ByteLength(r.result.output) <= MAX_OUTPUT
    && ByteLength(r.result.error) <= MAX_ERROR
  }

  /** What the coordinator checks of a report before it looks at the queue. */
  ghost predicate Acceptable(r: ResultRequest) {
    && r.size <= MAX_REQUEST
    && WellFormed(r.workerId, r.taskId, r.leaseId)
    && (r.resultTaskId == "" || r.resultTaskId == r.taskId)
    && WithinLimits(r)
  }

  function OutcomeResponse(outcome: Outcome): Response {
    match outcome
    case OutcomeCompleted => Response(OK, StatusCompleted)
    case OutcomeRequeued => Response(OK, StatusRequeued)
    case OutcomeFailed => Response(OK, StatusFailed)
  }

  /** handlePullResult on a well-formed body: the queue afterwards and the answer. */
  ghost function HandleResult(s: State, r: ResultRequest, now: int): (State, Response)
    requires Linked(s)
  {
    if r.size > MAX_REQUEST then (s, Response(BAD_REQUEST, StatusRejected))
    else if !WellFormed(r.workerId, r.taskId, r.leaseId) then (s, Response(BAD_REQUEST, StatusRejected))
    else if r.resultTaskId != "" && r.resultTaskId != r.taskId then (s, Response(BAD_REQUEST, StatusRejected))
    else if !WithinLimits(r) then (s, Response(TOO_LARGE, StatusRejected))
    else
      match Complete(s, r.taskId, r.leaseId, r.workerId, r.result, now)
      case (s', CompleteRefused(error)) => (s', ErrorResponse(error))
      case (s', Accepted(outcome)) => (s', OutcomeResponse(outcome))
  }

  /** What a worker is told of the task it was given. */
  datatype PullTask = PullTask(taskId: string, jobId: string, kind: string, input: string,
                               leaseId: string, attempt: int, leaseExpiresAt: int)

  /** handlePullClaim on a decoded request: it expires due leases, then claims, and the lock is free for other
      calls in between. */
  ghost function HandleClaim(s: State, workerId: string, requeueAt: int, between: seq<Op>, claimAt: int, leaseId: string)
    : (State, Response, Option<PullTask>)
    requires Linked(s)
  {
    if !Identifiers.Safe(workerId, Identifiers.MAX_WORKER_ID) then (s, Response(BAD_REQUEST, StatusRejected), None)
    else
      match Claim(Run(Settle(s, requeueAt), between), workerId, claimAt, leaseId)
      case (s', ClaimRefused(_)) => (s', Response(BAD_REQUEST, StatusRejected), None)
      case (s', NoWork) => (s', Response(OK, StatusNoTask), None)
      case (s', Assigned(spec, lease)) =>
        (s', Response(OK, StatusTaskAvailable),
         Some(PullTask(spec.id, spec.jobId, spec.kind, spec.input, lease.id, lease.attempt, lease.expiresAt)))
  }

  /** handlePullRenew on a decoded request; a granted renewal is answered with the new expiry. */
  ghost function HandleRenew(s: State, r: RenewRequest, now: int): (State, Response, Option<int>)
    requires Linked(s)
  {
    if !WellFormed(r.workerId, r.taskId, r.leaseId) then (s, Response(BAD_REQUEST, StatusRejected), None)
    else
      match Renew(s, r.taskId, r.leaseId, r.workerId, now)
      case (s', RenewRefused(error)) => (s', ErrorResponse(error), None)
      case (s', LeaseRenewed(lease)) => (s', Response(OK, StatusLeaseRenewed), Some(lease.expiresAt))
  }

  /** The queue took the report: it ended the reporter's lease. */
  predicate Accepts(r: Response) {
    r.code == OK
  }

  /** submitResult turns only a 401 into an error; any other decoded answer resolves the worker's loop. */
  predicate Resolves(r: Response) {
    r.code != 401
  }

  /** When Complete takes a report, and what its refusals say. */
  lemma CompleteIsTrue(s: State, taskId: string, leaseId: string, workerId: string, result: Result, now: int)
    requires Inv(s)
    ensures var (s', reply) := Complete(s, taskId, leaseId, workerId, result, now);
      && (reply.CompleteRefused? ==>
            && (s' == s || s' == SettleOne(s, taskId, now))
            && (reply.error.AlreadyCompleted? ==> s' == s && taskId in s.tasks && s.tasks[taskId].state.Completed?)
            && (reply.error.TaskFailed? ==> s' == s && taskId in s.tasks && s.tasks[taskId].state.Failed?))
      && (reply.Accepted? ==> Takes(s, taskId, leaseId, workerId, result, now, s')
                              && reply.outcome == OutcomeOf(s'.tasks[taskId]))
  {
    if taskId in s.tasks {
      assert TaskOk(s.tasks[taskId], taskId, s.maxAttempts);
    }
  }

  /** The report ends the lease its sender holds. */
  predicate Takes(s: State, taskId: string, leaseId: string, workerId: string, result: Result, now: int, s': State)
    requires Linked(s)
  {
    && taskId in s.tasks && s.tasks[taskId].lease.Some?
    && var l := s.tasks[taskId].lease.value;
      && l.id == leaseId && l.taskId == taskId && l.workerId == workerId
      && Legal(s, Resolved(l, now, result)) && s' == Do(s, Resolved(l, now, result))
  }

  /** A report is taken exactly if it is acceptable and comes from the holder of the lease, before its deadline;
      what it then does is decided by its error and the attempts made. */
  lemma ReportTaken(s: State, r: ResultRequest, now: int)
    requires Inv(s)
    ensures var answer := HandleResult(s, r, now).1;
      && (Accepts(answer) <==> Acceptable(r) && HeldAt(s, r.taskId, r.leaseId, r.workerId, now))
      && (Accepts(answer) ==>
            && r.taskId in s.tasks
            && answer.status == if r.result.error == "" then StatusCompleted
                                else if s.tasks[r.taskId].attempts < s.maxAttempts then StatusRequeued
                                else StatusFailed)
  {
    hide Inv;
    AcceptedWhileHeld(s, r.taskId, r.leaseId, r.workerId, r.result, now);
  }

  // ---- refusals ----

  /** The answer to a call that passed the request checks but is not the lease holder's before the deadline, by
      what the task's record says. */
  predicate RefusalTells(s: State, taskId: string, leaseId: string, workerId: string, answer: Response) {
    && (taskId !in s.tasks ==> answer == Response(404, StatusRejected))
    && (taskId in s.tasks ==>
          var t := s.tasks[taskId];
          && (t.state.Completed? ==> answer == Response(409, StatusCompleted))
          && (t.state.Failed? ==> answer == Response(409, StatusFailed))
          && (t.state.Queued? ==> answer == Response(409, StatusStaleLease))
          && (t.state.Leased? && t.lease.Some? ==>
                && (t.lease.value.id != leaseId ==> answer == Response(409, StatusStaleLease))
                && (t.lease.value.id == leaseId && t.lease.value.workerId != workerId ==> answer == Response(409, StatusRejected))
                && (t.lease.value.id == leaseId && t.lease.value.workerId == workerId ==> answer == Response(409, StatusStaleLease))))
  }

  lemma ErrorsTell(s: State, taskId: string, leaseId: string, workerId: string, error: QueueError)
    requires Inv(s) && RefusedFor(s, taskId, leaseId, workerId, error)
    ensures RefusalTells(s, taskId, leaseId, workerId, ErrorResponse(error))
  {
    hide Inv;
    if taskId in s.tasks {
      InvTask(s, taskId);
    }
  }

  /** What the request checks mean. */
  lemma AcceptableMeans(r: ResultRequest)
    ensures Acceptable(r) <==>
            && r.size <= 131072
            && Identifiers.Safe(r.workerId, 64) && Identifiers.Safe(r.taskId, 256) && Identifiers.Safe(r.leaseId, 128)
            && (r.resultTaskId != "" ==> r.resultTaskId == r.taskId)
            && ByteLength(r.resultTaskId) <= 256 && ByteLength(r.result.output) <= 65536 && ByteLength(r.result.error) <= 4096
  {
  }

  /** The whole answer to a report that is not taken: a request that fails the checks changes nothing, and is too
      large exactly if only its texts are; any other is told why, by the record of the task. */
  lemma RefusedReport(s: State, r: ResultRequest, now: int)
    requires Inv(s)
    ensures var (s', answer) := HandleResult(s, r, now);
      && (!Acceptable(r) ==>
            && s' == s
            && answer == Response(
                 if r.size <= MAX_REQUEST && WellFormed(r.workerId, r.taskId, r.leaseId)
                    && (r.resultTaskId == "" || r.resultTaskId == r.taskId) then 413 else 400,
                 StatusRejected))
      && (Acceptable(r) && !HeldAt(s, r.taskId, r.leaseId, r.workerId, now) ==>
            && RefusalTells(s, r.taskId, r.leaseId, r.workerId, answer)
            && RefusedState(s, r.taskId, r.leaseId, r.workerId, now, s'))
  {
    hide Inv, Complete, HeldAt, RefusalTells, RefusedState, RefusedFor, ErrorResponse;
    CompleteContract(s, r.taskId, r.leaseId, r.workerId, r.result, now);
    var reply := Complete(s, r.taskId, r.leaseId, r.workerId, r.result, now).1;
    if reply.CompleteRefused? {
      ErrorsTell(s, r.taskId, r.leaseId, r.workerId, reply.error);
    }
  }

  /** A renewal is granted exactly to the holder of the lease, before its deadline; the lease then runs for a whole
      duration from now, and the answer says so.  Every other well-formed renewal is told why not, and changes at
      most what is overdue. */
  lemma RenewAnswerIsTrue(s: State, r: RenewRequest, now: int)
    requires Inv(s)
    ensures var (s', answer, expiresAt) := HandleRenew(s, r, now);
      && Inv(s') && Follows(s, s')
      && var checked := WellFormed(r.workerId, r.taskId, r.leaseId);
      && (!checked ==> s' == s && answer == Response(400, StatusRejected) && expiresAt.None?)
      && (checked && HeldAt(s, r.taskId, r.leaseId, r.workerId, now) ==>
            && answer == Response(200, StatusLeaseRenewed)
            && expiresAt == Some(now + s.duration)
            && HeldUntil(s', r.taskId, r.leaseId, r.workerId, now + s.duration))
      && (checked && !HeldAt(s, r.taskId, r.leaseId, r.workerId, now) ==>
            && expiresAt.None?
            && RefusalTells(s, r.taskId, r.leaseId, r.workerId, answer)
            && RefusedState(s, r.taskId, r.leaseId, r.workerId, now, s'))
  {
    hide Inv, Renew, HeldAt, RefusalTells, RefusedState, RefusedFor, ErrorResponse, Follows;
    FollowsItself(s);
    RenewFollows(s, r.taskId, r.leaseId, r.workerId, now);
    RenewContract(s, r.taskId, r.leaseId, r.workerId, now);
    var reply := Renew(s, r.taskId, r.leaseId, r.workerId, now).1;
    if reply.RenewRefused? {
      ErrorsTell(s, r.taskId, r.leaseId, r.workerId, reply.error);
    } else {
      HeldTarget(s, r.taskId, r.leaseId, r.workerId, now);
    }
  }

  lemma HeldTarget(s: State, taskId: string, leaseId: string, workerId: string, now: int)
    requires Inv(s) && HeldAt(s, taskId, leaseId, workerId, now)
    ensures taskId in s.tasks && s.tasks[taskId].state.Leased? && s.tasks[taskId].lease.Some?
    ensures s.tasks[taskId].lease.value.id == leaseId && s.tasks[taskId].lease.value.workerId == workerId
    ensures s.tasks[taskId].lease.value.taskId == taskId
  {
    InvTask(s, taskId);
  }

  /** What an answer to a report says about the queue just after it, and when the report was taken. */
  lemma AnswerIsTrue(s: State, r: ResultRequest, now: int)
    requires Inv(s)
    ensures var (s', answer) := HandleResult(s, r, now);
      && Resolves(answer)
      && Inv(s') && Follows(s, s')
      && (answer.status == StatusCompleted ==> r.taskId in s'.tasks && s'.tasks[r.taskId].state.Completed?)
      && (answer.status == StatusFailed ==> r.taskId in s'.tasks && s'.tasks[r.taskId].state.Failed?)
      && (!Accepts(answer) ==> s' == s || s' == SettleOne(s, r.taskId, now))
      && (Accepts(answer) <==> Acceptable(r) && HeldAt(s, r.taskId, r.leaseId, r.workerId, now))
      && (Accepts(answer) ==> Takes(s, r.taskId, r.leaseId, r.workerId, r.result, now, s')
                              && (answer.status == StatusCompleted <==> r.result.error == ""))
  {
    hide Inv, Follows, Complete, SettleOne;
    FollowsItself(s);
    CompleteFollows(s, r.taskId, r.leaseId, r.workerId, r.result, now);
    CompleteIsTrue(s, r.taskId, r.leaseId, r.workerId, r.result, now);
    ReportTaken(s, r, now);
  }

  lemma SettleFollows(s: State, now: int)
    requires Inv(s)
    ensures Inv(Settle(s, now)) && Follows(s, Settle(s, now))
  {
    SettleOverFollows(s, s.order, now);
  }

  /** A claim is refused exactly for a malformed worker ID.  A worker that is told of a task holds the lease it is
      told of, on the task whose job, kind and input it is told; "no task" means that nothing waits. */
  lemma ClaimAnswerIsTrue(s: State, workerId: string, requeueAt: int, between: seq<Op>, claimAt: int, leaseId: string)
    requires Inv(s)
    ensures var (s', answer, task) := HandleClaim(s, workerId, requeueAt, between, claimAt, leaseId);
      && Inv(s') && Follows(s, s')
      && (!Identifiers.Safe(workerId, 64) ==> s' == s && answer == Response(400, StatusRejected) && task.None?)
      && (Identifiers.Safe(workerId, 64) ==>
            && answer == Response(200, if task.Some? then StatusTaskAvailable else StatusNoTask)
            && (task.None? ==> s'.queued == [])
            && (task.Some? ==> TellsOf(s', task.value, workerId, claimAt, s.duration, leaseId)))
  {
    FollowsItself(s);
    if Identifiers.Safe(workerId, Identifiers.MAX_WORKER_ID) {
      hide Inv, Claim, Run, Settle, Follows;
      var settled := Settle(s, requeueAt);
      var before := Run(settled, between);
      SettleFollows(s, requeueAt);
      RunFollows(settled, between);
      ClaimFollows(before, workerId, claimAt, leaseId);
      FollowsTransitive(s, settled, before);
      FollowsTransitive(s, before, Claim(before, workerId, claimAt, leaseId).0);
      SameDuration(s, before);
      ClaimTells(before, workerId, claimAt, leaseId);
    }
  }

  /** The task is leased to the worker as it is told. */
  predicate TellsOf(s: State, task: PullTask, workerId: string, now: int, duration: int, leaseId: string) {
    && task.taskId in s.tasks
    && var t := s.tasks[task.taskId];
    && t.state.Leased? && t.workerId == workerId && t.attempts == task.attempt
    && t.lease == Some(Lease(task.leaseId, task.taskId, workerId, now, task.leaseExpiresAt, task.attempt))
    && task.leaseId == leaseId && task.leaseExpiresAt == now + duration
    && t.spec.id == task.taskId && t.spec.jobId == task.jobId && t.spec.kind == task.kind && t.spec.input == task.input
  }

  lemma SameDuration(s: State, s': State)
    requires Follows(s, s')
    ensures s'.duration == s.duration
  {
  }

  lemma ClaimTells(s: State, workerId: string, now: int, leaseId: string)
    requires Inv(s) && workerId != ""
    ensures var (s', reply) := Claim(s, workerId, now, leaseId);
      && !reply.ClaimRefused?
      && (reply.NoWork? ==> s'.queued == [])
      && (reply.Assigned? ==>
            TellsOf(s', PullTask(reply.spec.id, reply.spec.jobId, reply.spec.kind, reply.spec.input, reply.lease.id,
                                 reply.lease.attempt, reply.lease.expiresAt), workerId, now, s.duration, leaseId))
  {
    hide Inv, Claim, Settle;
    ClaimContract(s, workerId, now, leaseId);
    SettleFollows(s, now);
    var settled := Settle(s, now);
    if settled.queued != [] {
      InvTask(settled, settled.queued[0]);
    }
  }

  lemma FollowsItself(s: State)
    ensures Follows(s, s)
  {
  }

  /** Once a task is terminal, every acceptable report about it is told how it ended, and changes nothing. */
  lemma FinishedTaskTells(s: State, r: ResultRequest, now: int)
    requires Inv(s) && r.taskId in s.tasks && Terminal(s.tasks[r.taskId]) && Acceptable(r)
    ensures HandleResult(s, r, now)
         == (s, Response(409, if s.tasks[r.taskId].state.Completed? then StatusCompleted else StatusFailed))
  {
    hide Inv, HandleResult;
    RefusedReport(s, r, now);
  }
}
