/**
 Workers resubmit a result until some answer arrives.  Requests and answers may be lost,
 delayed or repeated; the queue serves everybody else in between.
 */
module Protocol {
  import opened Options
  import opened LeaseModel
  import opened LeaseHistory
  import opened LeaseInvariants
  import opened LeaseExamples
  import opened LeaseRuns
  import opened Wire
  import Renewal

  datatype Answer = Answer(request: ResultRequest, response: Response)

  /** `sent`: results some worker has begun to submit.  `answers`: what the coordinator answered to each
      delivery, in order.  `concluded`: the status with which a worker stopped submitting a result. */
  datatype Net = Net(queue: State, sent: set<ResultRequest>, answers: seq<Answer>,
                     concluded: map<ResultRequest, PullStatus>)

  /** A request that is never delivered, or an answer that is never used, is a lost one; a request
      delivered several times was repeated by its worker. */
  datatype Step =
    | Elsewhere(op: Op)
    | Begin(request: ResultRequest)
    | Deliver(request: ResultRequest, now: int)
    | Conclude(k: nat)

  ghost predicate HoldsGrant(log: seq<Event>, r: ResultRequest) {
    exists i :: 0 <= i < |log| && log[i].Granted?
      && log[i].lease.id == r.leaseId && log[i].lease.taskId == r.taskId && log[i].lease.workerId == r.workerId
  }

  /** A worker executes each lease it was granted once, so it has one result per lease to submit. */
  ghost predicate Enabled(n: Net, step: Step) {
    match step
    case Elsewhere(op) => !op.CompleteOp?
    case Begin(r) =>
      && HoldsGrant(n.queue.log, r)
      && r.resultTaskId == r.taskId
      && (forall r' :: r' in n.sent ==> r'.leaseId != r.leaseId)
    case Deliver(r, _) => r in n.sent
    case Conclude(k) => k < |n.answers| && n.answers[k].request !in n.concluded && Resolves(n.answers[k].response)
  }

  ghost function Next(n: Net, step: Step): Net
    requires Linked(n.queue) && Enabled(n, step)
  {
    match step
    case Elsewhere(op) => n.(queue := Apply(n.queue, op))
    case Begin(r) => n.(sent := n.sent + {r})
    case Deliver(r, now) =>
      var (queue, response) := HandleResult(n.queue, r, now);
      n.(queue := queue, answers := n.answers + [Answer(r, response)])
    case Conclude(k) =>
      n.(concluded := n.concluded[n.answers[k].request := n.answers[k].response.status])
  }

  function Start(duration: int, maxAttempts: int): Net {
    Net(Init(duration, maxAttempts), {}, [], map[])
  }

  ghost predicate Possible(n: Net, steps: seq<Step>, n': Net)
    decreases |steps|
  {
    if steps == [] then n' == n
    else Linked(n.queue) && Enabled(n, steps[0]) && Possible(Next(n, steps[0]), steps[1..], n')
  }

  // ---- the invariant ----

  ghost predicate RequestsOk(n: Net) {
    && (forall r :: r in n.sent ==> r.resultTaskId == r.taskId)
    && (forall r, r' :: r in n.sent && r' in n.sent && r.leaseId == r'.leaseId ==> r == r')
    && (forall k :: 0 <= k < |n.answers| ==> n.answers[k].request in n.sent)
  }

  ghost predicate AnswerHolds(s: State, a: Answer) {
    && (a.response.status == StatusCompleted ==>
          a.request.taskId in s.tasks && s.tasks[a.request.taskId].state.Completed?)
    && (a.response.status == StatusFailed ==>
          a.request.taskId in s.tasks && s.tasks[a.request.taskId].state.Failed?)
    && (Finishes(a.response) ==> Acceptable(a.request))
    && (a.response.status == StatusRequeued ==> Accepts(a.response))
    && (Accepts(a.response) ==> Acceptable(a.request) && EndedIn(s.log, a.request.leaseId))
    && (Accepts(a.response) && a.response.status == StatusCompleted ==>
          && s.tasks[a.request.taskId].result == Some(a.request.result)
          && s.tasks[a.request.taskId].workerId == a.request.workerId
          && SuccessRecorded(s.log, a.request))
  }

  ghost predicate AnswersHold(n: Net) {
    forall k :: 0 <= k < |n.answers| ==> AnswerHolds(n.queue, n.answers[k])
  }

  /** No lease's result is taken twice. */
  ghost predicate TakenOnce(answers: seq<Answer>) {
    forall i, j :: 0 <= i < j < |answers| && Accepts(answers[i].response) && Accepts(answers[j].response) ==>
      answers[i].request.leaseId != answers[j].request.leaseId
  }

  /** The answer says that the task has ended. */
  predicate Finishes(r: Response) {
    r.status == StatusCompleted || r.status == StatusFailed
  }

  /** Once an answer said how a task ended, every acceptable report on that task, by anyone, and every repetition
      of the one so answered, is told the same; "requeued" is only ever said of a report that was taken. */
  ghost predicate EndSticks(answers: seq<Answer>) {
    && (forall i, j | 0 <= i < j < |answers| && answers[i].request.taskId == answers[j].request.taskId ::
          Finishes(answers[i].response)
          && (Acceptable(answers[j].request) || answers[j].request == answers[i].request) ==>
            answers[j].response == Response(409, answers[i].response.status))
    && (forall i :: 0 <= i < |answers| && answers[i].response.status == StatusRequeued ==> answers[i].response.code == 200)
  }

  ghost predicate AnswerTo(answers: seq<Answer>, r: ResultRequest, status: PullStatus) {
    exists k :: 0 <= k < |answers| && answers[k].request == r && answers[k].response.status == status
  }

  /** The answer that took `result` as the report of this lease. */
  predicate Took(a: Answer, lease: Lease, result: Result) {
    && Accepts(a.response) && a.request.result == result
    && a.request.leaseId == lease.id && a.request.taskId == lease.taskId && a.request.workerId == lease.workerId
    && (a.response.status == StatusCompleted <==> result.error == "")
  }

  ghost predicate TakenFrom(answers: seq<Answer>, lease: Lease, result: Result) {
    exists k :: 0 <= k < |answers| && Took(answers[k], lease, result)
  }

  /** The log shows `r` as the successful report that completed its task. */
  ghost predicate SuccessRecorded(log: seq<Event>, r: ResultRequest) {
    exists i :: 0 <= i < |log| && log[i].Resolved? && log[i].result.error == ""
      && log[i].lease.id == r.leaseId && log[i].lease.taskId == r.taskId && log[i].result == r.result
  }

  /** Every report on record came from a delivery that was accepted. */
  ghost predicate ReportsDelivered(n: Net) {
    forall i :: 0 <= i < |n.queue.log| && n.queue.log[i].Resolved? ==>
      TakenFrom(n.answers, n.queue.log[i].lease, n.queue.log[i].result)
  }

  ghost predicate NetInv(n: Net)
    ensures NetInv(n) ==> Linked(n.queue)
  {
    && Inv(n.queue)
    && RequestsOk(n)
    && AnswersHold(n)
    && (FreshLeaseIds(n.queue.log) ==> TakenOnce(n.answers))
    && EndSticks(n.answers)
    && ReportsDelivered(n)
    && (forall r :: r in n.concluded ==> AnswerTo(n.answers, r, n.concluded[r]))
  }

  lemma AnswerStillHolds(s: State, s': State, a: Answer)
    requires AnswerHolds(s, a) && Follows(s, s')
    ensures AnswerHolds(s', a)
  {
    if Accepts(a.response) {
      var i :| 0 <= i < |s.log| && Ends(s.log[i]) && s.log[i].lease.id == a.request.leaseId;
      assert s'.log[i] == s.log[i];
      if a.response.status == StatusCompleted {
        var j :| 0 <= j < |s.log| && s.log[j].Resolved? && s.log[j].result.error == ""
          && s.log[j].lease.id == a.request.leaseId && s.log[j].lease.taskId == a.request.taskId
          && s.log[j].result == a.request.result;
        assert s'.log[j] == s.log[j];
      }
    }
    assert a.request.taskId in s.tasks ==> TaskFollows(s.tasks[a.request.taskId], s'.tasks[a.request.taskId]);
  }

  ghost predicate Unreported(s: State, s': State) {
    forall i :: |s.log| <= i < |s'.log| ==> !s'.log[i].Resolved?
  }

  lemma {:induction false} SettleOverReportsNothing(s: State, ids: seq<string>, now: int)
    requires Inv(s)
    ensures Unreported(s, SettleOver(s, ids, now))
    decreases |ids|
  {
    hide Inv;
    if ids == [] {
    } else {
      var next := SettleOne(s, ids[0], now);
      SettleOverFollows(s, [ids[0]], now);
      assert SettleOver(s, [ids[0]], now) == next;
      SettleOverReportsNothing(next, ids[1..], now);
      SettleOverFollows(next, ids[1..], now);
    }
  }

  /** Operations other than Complete put no report on record. */
  lemma OthersReportNothing(s: State, op: Op)
    requires Inv(s) && !op.CompleteOp?
    ensures Unreported(s, Apply(s, op))
  {
    hide Inv;
    match op
    case EnqueueOp(spec) =>
    case ClaimOp(workerId, now, leaseId) =>
      SettleOverReportsNothing(s, s.order, now);
      SettleOverFollows(s, s.order, now);
    case RenewOp(taskId, leaseId, workerId, now) =>
      CheckLeaseFollows(s, taskId, leaseId, workerId, now);
    case SettleOp(now) =>
      SettleOverReportsNothing(s, s.order, now);
  }

  lemma FreshPrefix(log: seq<Event>, later: seq<Event>)
    requires log <= later && FreshLeaseIds(later)
    ensures FreshLeaseIds(log)
  {
    assert forall i :: 0 <= i < |log| ==> later[i] == log[i];
  }

  lemma ElsewhereKeeps(n: Net, op: Op)
    requires NetInv(n) && !op.CompleteOp?
    ensures NetInv(n.(queue := Apply(n.queue, op)))
  {
    hide Inv;
    var s, s' := n.queue, Apply(n.queue, op);
    ApplyFollows(s, op);
    OthersReportNothing(s, op);
    forall k | 0 <= k < |n.answers|
      ensures AnswerHolds(s', n.answers[k])
    {
      AnswerStillHolds(s, s', n.answers[k]);
    }
    if FreshLeaseIds(s'.log) {
      FreshPrefix(s.log, s'.log);
    }
    forall i | 0 <= i < |s'.log| && s'.log[i].Resolved?
      ensures TakenFrom(n.answers, s'.log[i].lease, s'.log[i].result)
    {
      assert i < |s.log| && s'.log[i] == s.log[i];
    }
  }

  lemma AnswersGrow(answers: seq<Answer>, a: Answer)
    ensures forall r, status :: AnswerTo(answers, r, status) ==> AnswerTo(answers + [a], r, status)
    ensures forall x, result :: TakenFrom(answers, x, result) ==> TakenFrom(answers + [a], x, result)
    ensures forall x, result :: Took(a, x, result) ==> TakenFrom(answers + [a], x, result)
  {
    var all := answers + [a];
    assert all[|answers|] == a;
    forall r, status | AnswerTo(answers, r, status)
      ensures AnswerTo(all, r, status)
    {
      var k :| 0 <= k < |answers| && answers[k].request == r && answers[k].response.status == status;
      assert all[k] == answers[k];
    }
    forall x, result | TakenFrom(answers, x, result)
      ensures TakenFrom(all, x, result)
    {
      var k :| 0 <= k < |answers| && Took(answers[k], x, result);
      assert all[k] == answers[k];
    }
  }

  /** An accepted delivery adds the report, and nothing else, to the log. */
  lemma AcceptedDelivery(s: State, r: ResultRequest, now: int)
    requires Inv(s) && Accepts(HandleResult(s, r, now).1)
    ensures var (s', answer) := HandleResult(s, r, now);
      && Linked(s') && AnswerHolds(s', Answer(r, answer))
      && s'.log != []
      && s'.log[..|s'.log| - 1] == s.log
      && s'.log[|s'.log| - 1].Resolved?
      && s'.log[|s'.log| - 1].lease.id == r.leaseId
      && Took(Answer(r, answer), s'.log[|s'.log| - 1].lease, s'.log[|s'.log| - 1].result)
      && (FreshLeaseIds(s.log) ==> !EndedIn(s.log, r.leaseId))
  {
    hide HandleResult, Inv;
    AnswerIsTrue(s, r, now);
    ReportTaken(s, r, now);
    InvTask(s, r.taskId);
    if FreshLeaseIds(s.log) {
      HolderNotEnded(s, r.taskId);
    }
    var s' := HandleResult(s, r, now).0;
    var last := |s'.log| - 1;
    assert Ends(s'.log[last]) && s'.log[last].lease.id == r.leaseId;
  }

  lemma HolderNotEnded(s: State, id: string)
    requires Inv(s) && FreshLeaseIds(s.log) && id in s.tasks && s.tasks[id].lease.Some?
    ensures !EndedIn(s.log, s.tasks[id].lease.value.id)
  {
  }

  /** A refused report is never told "requeued", and told of an end only if it was acceptable. */
  lemma TruthOfRefusal(s: State, r: ResultRequest, now: int)
    requires Inv(s) && !Accepts(HandleResult(s, r, now).1)
    ensures var answer := HandleResult(s, r, now).1;
      answer.status != StatusRequeued && (Finishes(answer) ==> Acceptable(r))
  {
    hide HandleResult, Inv, Acceptable;
    ReportTaken(s, r, now);
    RefusedReport(s, r, now);
    if r.taskId in s.tasks {
      InvTask(s, r.taskId);
    }
  }

  /** A delivery that is not accepted puts no report on record. */
  lemma RefusedDelivery(s: State, r: ResultRequest, now: int)
    requires Inv(s) && !Accepts(HandleResult(s, r, now).1)
    ensures var (s', answer) := HandleResult(s, r, now);
      Unreported(s, s') && AnswerHolds(s', Answer(r, answer))
  {
    hide HandleResult, Inv;
    AnswerIsTrue(s, r, now);
    RefusedReport(s, r, now);
    TruthOfRefusal(s, r, now);
  }

  lemma DeliveryHolds(s: State, r: ResultRequest, now: int)
    requires Inv(s)
    ensures var (s', answer) := HandleResult(s, r, now);
      Inv(s') && Follows(s, s') && AnswerHolds(s', Answer(r, answer))
  {
    hide Inv, HandleResult, Follows, AnswerHolds;
    AnswerIsTrue(s, r, now);
    if Accepts(HandleResult(s, r, now).1) {
      AcceptedDelivery(s, r, now);
    } else {
      RefusedDelivery(s, r, now);
    }
  }

  lemma DeliverKeepsAnswers(n: Net, r: ResultRequest, now: int)
    requires NetInv(n) && r in n.sent
    ensures AnswersHold(Next(n, Deliver(r, now)))
  {
    hide Inv, HandleResult, Follows, AnswerHolds;
    var (s', answer) := HandleResult(n.queue, r, now);
    DeliveryHolds(n.queue, r, now);
    forall k | 0 <= k < |n.answers|
      ensures AnswerHolds(s', n.answers[k])
    {
      AnswerStillHolds(n.queue, s', n.answers[k]);
    }
  }

  lemma DeliverKeepsOnce(n: Net, r: ResultRequest, now: int)
    requires NetInv(n) && r in n.sent
    ensures var n' := Next(n, Deliver(r, now)); FreshLeaseIds(n'.queue.log) ==> TakenOnce(n'.answers)
  {
    hide Inv, HandleResult;
    var (s', answer) := HandleResult(n.queue, r, now);
    DeliveryHolds(n.queue, r, now);
    if FreshLeaseIds(s'.log) {
      FreshPrefix(n.queue.log, s'.log);
      if Accepts(answer) {
        AcceptedDelivery(n.queue, r, now);
        forall i | 0 <= i < |n.answers| && Accepts(n.answers[i].response)
          ensures n.answers[i].request.leaseId != r.leaseId
        {
          assert AnswerHolds(n.queue, n.answers[i]);
        }
      }
    }
  }

  lemma DeliverKeepsReports(n: Net, r: ResultRequest, now: int)
    requires NetInv(n) && r in n.sent
    ensures ReportsDelivered(Next(n, Deliver(r, now)))
  {
    hide Inv, HandleResult, Took;
    var (s', answer) := HandleResult(n.queue, r, now);
    var a := Answer(r, answer);
    DeliveryHolds(n.queue, r, now);
    AnswersGrow(n.answers, a);
    if Accepts(answer) {
      AcceptedDelivery(n.queue, r, now);
    } else {
      RefusedDelivery(n.queue, r, now);
    }
    forall i | 0 <= i < |s'.log| && s'.log[i].Resolved?
      ensures TakenFrom(n.answers + [a], s'.log[i].lease, s'.log[i].result)
    {
      if i < |n.queue.log| {
        assert s'.log[i] == n.queue.log[i];
      }
    }
  }

  lemma DeliverKeeps(n: Net, r: ResultRequest, now: int)
    requires NetInv(n) && r in n.sent
    ensures NetInv(Next(n, Deliver(r, now)))
  {
    hide Inv, HandleResult, AnswersHold, TakenOnce, EndSticks, ReportsDelivered, Follows;
    DeliveryHolds(n.queue, r, now);
    AnswersGrow(n.answers, Answer(r, HandleResult(n.queue, r, now).1));
    DeliverKeepsAnswers(n, r, now);
    DeliverKeepsOnce(n, r, now);
    DeliverKeepsReports(n, r, now);
    DeliverSticks(n, r, now);
  }

  lemma DeliverSticks(n: Net, r: ResultRequest, now: int)
    requires NetInv(n) && r in n.sent
    ensures EndSticks(n.answers + [Answer(r, HandleResult(n.queue, r, now).1)])
  {
    hide Inv, HandleResult;
    var answer := HandleResult(n.queue, r, now).1;
    DeliveryHolds(n.queue, r, now);
    forall i | 0 <= i < |n.answers| && n.answers[i].request.taskId == r.taskId
        && Finishes(n.answers[i].response)
        && (Acceptable(r) || n.answers[i].request == r)
      ensures answer == Response(409, n.answers[i].response.status)
    {
      assert AnswerHolds(n.queue, n.answers[i]);
      FinishedTaskTells(n.queue, r, now);
    }
  }

  lemma StepKeeps(n: Net, step: Step)
    requires NetInv(n) && Enabled(n, step)
    ensures NetInv(Next(n, step))
  {
    hide Inv;
    match step
    case Elsewhere(op) => ElsewhereKeeps(n, op);
    case Begin(r) =>
    case Deliver(r, now) => DeliverKeeps(n, r, now);
    case Conclude(k) =>
  }

  lemma {:induction false} PossibleKeeps(n: Net, steps: seq<Step>, n': Net)
    requires NetInv(n) && Possible(n, steps, n')
    ensures NetInv(n')
    decreases |steps|
  {
    hide NetInv;
    if steps == [] {
    } else {
      StepKeeps(n, steps[0]);
      PossibleKeeps(Next(n, steps[0]), steps[1..], n');
    }
  }

  // ---- what the workers can rely on ----

  lemma StartIsSound(duration: int, maxAttempts: int)
    requires 0 < duration && 0 < maxAttempts
    ensures NetInv(Start(duration, maxAttempts))
  {
    hide Inv;
    InvInit(duration, maxAttempts);
  }

  lemma NetReached(duration: int, maxAttempts: int, steps: seq<Step>, n: Net)
    requires 0 < duration && 0 < maxAttempts && Possible(Start(duration, maxAttempts), steps, n)
    ensures NetInv(n)
  {
    hide NetInv;
    StartIsSound(duration, maxAttempts);
    PossibleKeeps(Start(duration, maxAttempts), steps, n);
  }

  /** However often and however late results are delivered, each lease's result is taken at most once, and
      once an answer said how a task ended, acceptable reports on it are only ever told the same. */
  lemma ResultsTakenOnce(duration: int, maxAttempts: int, steps: seq<Step>, n: Net)
    requires 0 < duration && 0 < maxAttempts && Possible(Start(duration, maxAttempts), steps, n)
    requires FreshLeaseIds(n.queue.log)
    ensures TakenOnce(n.answers)
    ensures EndSticks(n.answers)
  {
    NetReached(duration, maxAttempts, steps, n);
  }

  lemma NextFollows(n: Net, step: Step)
    requires NetInv(n) && Enabled(n, step)
    ensures Follows(n.queue, Next(n, step).queue)
  {
    hide Inv;
    FollowsItself(n.queue);
    match step
    case Elsewhere(op) => ApplyFollows(n.queue, op);
    case Begin(r) =>
    case Deliver(r, now) => AnswerIsTrue(n.queue, r, now);
    case Conclude(k) =>
  }

  lemma {:induction false} PossibleFollows(n: Net, steps: seq<Step>, n': Net)
    requires NetInv(n) && Possible(n, steps, n')
    ensures Follows(n.queue, n'.queue)
    decreases |steps|
  {
    hide NetInv;
    if steps == [] {
      FollowsItself(n.queue);
    } else {
      var next := Next(n, steps[0]);
      StepKeeps(n, steps[0]);
      NextFollows(n, steps[0]);
      PossibleFollows(next, steps[1..], n');
      FollowsTransitive(n.queue, next.queue, n'.queue);
    }
  }

  /** A worker that stopped with "completed" or "failed" was told the truth, for good: the task is in that
      state now, and in every later state its record is the same. */
  lemma ConcludedForever(duration: int, maxAttempts: int, steps: seq<Step>, n: Net, more: seq<Step>, n': Net,
                         r: ResultRequest)
    requires 0 < duration && 0 < maxAttempts
    requires Possible(Start(duration, maxAttempts), steps, n) && Possible(n, more, n')
    requires r in n.concluded && n.concluded[r] in {StatusCompleted, StatusFailed}
    ensures r.taskId in n.queue.tasks
    ensures n.queue.tasks[r.taskId].state == if n.concluded[r] == StatusCompleted then Completed else Failed
    ensures r.taskId in n'.queue.tasks && n'.queue.tasks[r.taskId] == n.queue.tasks[r.taskId]
  {
    hide Inv;
    NetReached(duration, maxAttempts, steps, n);
    PossibleFollows(n, more, n');
    var k :| 0 <= k < |n.answers| && n.answers[k].request == r && n.answers[k].response.status == n.concluded[r];
    assert AnswerHolds(n.queue, n.answers[k]);
    assert TaskFollows(n.queue.tasks[r.taskId], n'.queue.tasks[r.taskId]);
  }

  // ---- whose result is kept ----

  /** What is on record was answered 200 "completed" on some delivery. */
  lemma KeptMeansAnswered(n: Net, r: ResultRequest)
    requires NetInv(n) && r in n.sent
    ensures SuccessRecorded(n.queue.log, r) <==> Answer(r, Response(OK, StatusCompleted)) in n.answers
    ensures SuccessRecorded(n.queue.log, r) ==>
              && r.taskId in n.queue.tasks
              && n.queue.tasks[r.taskId].state.Completed?
              && n.queue.tasks[r.taskId].result == Some(r.result)
              && n.queue.tasks[r.taskId].workerId == r.workerId
  {
    hide Inv;
    var log := n.queue.log;
    if SuccessRecorded(log, r) {
      var i :| 0 <= i < |log| && log[i].Resolved? && log[i].result.error == ""
        && log[i].lease.id == r.leaseId && log[i].lease.taskId == r.taskId && log[i].result == r.result;
      var k :| 0 <= k < |n.answers| && Took(n.answers[k], log[i].lease, log[i].result);
      assert n.answers[k].request in n.sent;
      assert AnswerHolds(n.queue, n.answers[k]);
    }
    if k :| 0 <= k < |n.answers| && n.answers[k] == Answer(r, Response(OK, StatusCompleted)) {
      assert AnswerHolds(n.queue, n.answers[k]);
    }
  }

  /** Step i of a run, taken in state `m`, is a delivery answered with `a`. */
  ghost predicate Gives(n: Net, steps: seq<Step>, i: nat, m: Net, a: Answer)
    requires i < |steps|
  {
    && Possible(n, steps[..i], m) && Linked(m.queue)
    && steps[i].Deliver? && a == Answer(steps[i].request, HandleResult(m.queue, steps[i].request, steps[i].now).1)
  }

  /** Step i of a run, taken in state `m`, delivers `r` while its sender holds the lease. */
  ghost predicate DeliversWhileHeld(n: Net, steps: seq<Step>, i: nat, m: Net, r: ResultRequest)
    requires i < |steps|
  {
    && Possible(n, steps[..i], m)
    && steps[i].Deliver? && steps[i].request == r
    && HeldAt(m.queue, r.taskId, r.leaseId, r.workerId, steps[i].now)
  }

  lemma {:induction false} AnswersWereGiven(n: Net, steps: seq<Step>, n': Net, a: Answer)
    requires Possible(n, steps, n') && a in n'.answers && a !in n.answers
    ensures exists i, m :: 0 <= i < |steps| && Gives(n, steps, i, m, a)
    decreases |steps|
  {
    if steps == [] {
    } else {
      var next := Next(n, steps[0]);
      if a in next.answers {
        assert steps[..0] == [];
        assert Gives(n, steps, 0, n, a);
      } else {
        AnswersWereGiven(next, steps[1..], n', a);
        var i, m :| 0 <= i < |steps[1..]| && Gives(next, steps[1..], i, m, a);
        assert steps[..i + 1][0] == steps[0] && steps[..i + 1][1..] == steps[1..][..i];
        assert Gives(n, steps, i + 1, m, a);
      }
    }
  }

  lemma {:induction false} AnswersStay(n: Net, steps: seq<Step>, n': Net, a: Answer)
    requires Possible(n, steps, n') && a in n.answers
    ensures a in n'.answers
    decreases |steps|
  {
    if steps == [] {
    } else {
      AnswersStay(Next(n, steps[0]), steps[1..], n', a);
    }
  }

  lemma {:induction false} GivenAnswersStay(n: Net, steps: seq<Step>, n': Net, i: nat, m: Net, a: Answer)
    requires Possible(n, steps, n') && i < |steps| && Gives(n, steps, i, m, a)
    ensures a in n'.answers
    decreases |steps|
  {
    var next := Next(n, steps[0]);
    if i == 0 {
      assert next.answers[|n.answers|] == a;
      AnswersStay(next, steps[1..], n', a);
    } else {
      assert steps[..i][0] == steps[0] && steps[..i][1..] == steps[1..][..i - 1];
      GivenAnswersStay(next, steps[1..], n', i - 1, m, a);
    }
  }

  /** A delivery is answered 200 "completed" exactly if the report is an acceptable success and the lease is held. */
  lemma GivesCompleted(duration: int, maxAttempts: int, steps: seq<Step>, i: nat, m: Net, r: ResultRequest)
    requires 0 < duration && 0 < maxAttempts && i < |steps|
    ensures Gives(Start(duration, maxAttempts), steps, i, m, Answer(r, Response(OK, StatusCompleted)))
       <==> && r.result.error == "" && Acceptable(r)
            && DeliversWhileHeld(Start(duration, maxAttempts), steps, i, m, r)
  {
    hide Inv, HandleResult, HeldAt, Acceptable;
    if Possible(Start(duration, maxAttempts), steps[..i], m) && steps[i].Deliver? {
      NetReached(duration, maxAttempts, steps[..i], m);
      ReportTaken(m.queue, steps[i].request, steps[i].now);
    }
  }

  /** Being told "completed" does not mean that one's own result was kept.  It was kept exactly if it is an
      acceptable success and some delivery of it reached the queue while its sender still held the lease,
      before the deadline; in every other case a result of another lease stands, or none. */
  lemma WhoseResultWasKept(duration: int, maxAttempts: int, steps: seq<Step>, n: Net, r: ResultRequest)
    requires 0 < duration && 0 < maxAttempts && Possible(Start(duration, maxAttempts), steps, n)
    requires r in n.sent
    ensures SuccessRecorded(n.queue.log, r)
       <==> && r.result.error == "" && Acceptable(r)
            && exists i, m :: 0 <= i < |steps| && DeliversWhileHeld(Start(duration, maxAttempts), steps, i, m, r)
    ensures SuccessRecorded(n.queue.log, r) ==>
              && r.taskId in n.queue.tasks
              && n.queue.tasks[r.taskId].state.Completed?
              && n.queue.tasks[r.taskId].result == Some(r.result)
              && n.queue.tasks[r.taskId].workerId == r.workerId
  {
    hide Inv, NetInv, Possible, Gives, DeliversWhileHeld, SuccessRecorded, Acceptable;
    var start, a := Start(duration, maxAttempts), Answer(r, Response(OK, StatusCompleted));
    NetReached(duration, maxAttempts, steps, n);
    KeptMeansAnswered(n, r);
    if a in n.answers {
      AnswersWereGiven(start, steps, n, a);
      var i, m :| 0 <= i < |steps| && Gives(start, steps, i, m, a);
      GivesCompleted(duration, maxAttempts, steps, i, m, r);
    }
    if i, m :| 0 <= i < |steps| && DeliversWhileHeld(start, steps, i, m, r) && r.result.error == "" && Acceptable(r) {
      GivesCompleted(duration, maxAttempts, steps, i, m, r);
      GivenAnswersStay(start, steps, n, i, m, a);
    }
  }

  /** A result whose lease its renewals keep alive is taken: if each renewal arrives before the deadline the
      previous one set, then through any other traffic the first delivery before the last deadline is accepted. */
  lemma RenewedResultIsTaken(s: State, ops: seq<Op>, r: ResultRequest, deadline: int, now: int)
    requires Inv(s) && HeldUntil(s, r.taskId, r.leaseId, r.workerId, deadline) && ClockForward(ops) && Acceptable(r)
    requires Renewal.Gapped(deadline, Renewal.Arrivals(ops, r.taskId, r.leaseId, r.workerId), s.duration)
    requires forall i :: 0 <= i < |ops| ==> !Renewal.IsReport(ops[i], r.taskId, r.leaseId, r.workerId)
    requires forall i :: 0 <= i < |ops| && !ops[i].EnqueueOp? ==>
               ops[i].now < Renewal.Deadline(deadline, Renewal.Arrivals(ops, r.taskId, r.leaseId, r.workerId), s.duration)
    requires now < Renewal.Deadline(deadline, Renewal.Arrivals(ops, r.taskId, r.leaseId, r.workerId), s.duration)
    ensures Accepts(HandleResult(Run(s, ops), r, now).1)
    ensures r.result.error == "" <==> HandleResult(Run(s, ops), r, now).1 == Response(OK, StatusCompleted)
  {
    hide Inv, HandleResult;
    Renewal.RenewalsKeepLease(s, ops, r.taskId, r.leaseId, r.workerId, deadline);
    RunFollows(s, ops);
    ReportTaken(Run(s, ops), r, now);
  }

  /** The same with the worker's ticker over a lossy network: single losses never cost the result. */
  lemma LossilyRenewedResultIsTaken(s: State, ops: seq<Op>, r: ResultRequest, issued: int, delay: int, most: int,
                                    deliveries: seq<Option<int>>, now: int)
    requires Inv(s) && HeldUntil(s, r.taskId, r.leaseId, r.workerId, issued + s.duration) && ClockForward(ops)
    requires 0 <= delay && 3 * Renewal.HALF_SECOND <= s.duration - delay && Acceptable(r)
    requires 0 <= most && 3 * most < s.duration - delay
    requires Renewal.DelaysWithin(deliveries, most) && Renewal.NeverTwoLost(deliveries)
    requires var interval := Renewal.Interval(s.duration - delay);
      && Renewal.Arrivals(ops, r.taskId, r.leaseId, r.workerId)
         == Renewal.TickArrivals(issued + delay, interval, deliveries)
      && (forall i :: 0 <= i < |ops| && !ops[i].EnqueueOp? ==>
            ops[i].now <= Renewal.NextTick(issued + delay, interval, deliveries) + most)
      && now <= Renewal.NextTick(issued + delay, interval, deliveries) + most
    requires forall i :: 0 <= i < |ops| ==> !Renewal.IsReport(ops[i], r.taskId, r.leaseId, r.workerId)
    ensures Accepts(HandleResult(Run(s, ops), r, now).1)
  {
    hide Inv, HandleResult;
    Renewal.LossyTickerKeepsLease(s, ops, r.taskId, r.leaseId, r.workerId, issued, delay, most, deliveries);
    RunFollows(s, ops);
    ReportTaken(Run(s, ops), r, now);
  }

  // ---- a worker whose lease ran out may be told "completed" about another's result ----

  /** w1's lease runs out, w2 takes the task over and completes it, and w1's late result is answered
      "completed" although it was dropped. */
  lemma DroppedResultAnsweredCompleted()
    ensures var s2 := Reached(10, 2, [EnqueueOp(TaskSpec("t", "j", "k", "http_probe", "")),
                                      ClaimOp("w1", 0, "a"), ClaimOp("w2", 10, "b")]);
            var r1 := ResultRequest("w1", "t", "a", "t", Result("one", 1, ""), 100);
            var r2 := ResultRequest("w2", "t", "b", "t", Result("two", 1, ""), 100);
            var (s3, taken) := HandleResult(s2, r2, 11);
            && taken == Response(OK, StatusCompleted)
            && Linked(s3) && HandleResult(s3, r1, 12) == (s3, Response(CONFLICT, StatusCompleted))
            && "t" in s3.tasks && s3.tasks["t"].result == Some(r2.result) && r1.result != r2.result
  {
    hide Settle, Assignment, HandleResult;
    var spec := TaskSpec("t", "j", "k", "http_probe", "");
    var ops := [EnqueueOp(spec), ClaimOp("w1", 0, "a"), ClaimOp("w2", 10, "b")];
    var t := NewTask(spec);
    ThreeSteps(Init(10, 2), ops[0], ops[1], ops[2]);
    var s0 := Enqueue(Init(10, 2), spec).0;
    assert Alone(s0, t);
    AloneLapsed(s0, t, 0);
    AloneAssigned(s0, t, "w1", 0, "a");
    var t1 := Granting(t, "w1", 0, "a");
    var s1 := Claim(s0, "w1", 0, "a").0;
    assert Alone(s1, t1);
    AloneLapsed(s1, t1, 10);
    AloneAssigned(Settle(s1, 10), Lapse(t1, 2), "w2", 10, "b");
    var s2 := Claim(s1, "w2", 10, "b").0;
    assert Alone(s2, Granting(Lapse(t1, 2), "w2", 10, "b"));
    LateResultDropped(s2, Granting(Lapse(t1, 2), "w2", 10, "b"));
  }

  lemma LateResultDropped(s: State, t: Task)
    requires Alone(s, t) && Linked(s) && t.state.Leased? && t.lease == Some(Lease("b", "t", "w2", 10, 20, 2))
    ensures var r1 := ResultRequest("w1", "t", "a", "t", Result("one", 1, ""), 100);
            var r2 := ResultRequest("w2", "t", "b", "t", Result("two", 1, ""), 100);
            var (s', taken) := HandleResult(s, r2, 11);
            && taken == Response(OK, StatusCompleted)
            && Linked(s') && HandleResult(s', r1, 12) == (s', Response(CONFLICT, StatusCompleted))
            && "t" in s'.tasks && s'.tasks["t"].result == Some(r2.result)
  {
  }
}
