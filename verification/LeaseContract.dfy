/**
 What each operation leaves behind and answers, field by field.
 */
module LeaseContract {
  import opened LeaseDeadlines
  import opened LeaseInvariants
  import opened LeaseModel
  import opened LeaseRuns
  import opened LeaseSettling
  import opened Options

  /** Everything but tasks, queue and history is as before. */
  predicate SameSettings(s: State, s': State) {
    s'.duration == s.duration && s'.maxAttempts == s.maxAttempts
  }

  /** A new task waits at the back of the queue, untried and unowned; an empty or known ID changes nothing. */
  lemma EnqueueContract(s: State, spec: TaskSpec)
    requires Linked(s)
    ensures var (s', error) := Enqueue(s, spec);
      && SameSettings(s, s')
      && (spec.id == "" ==> error == Some(IdRequired))
      && (spec.id != "" && spec.id in s.tasks ==> error == Some(TaskExists))
      && (spec.id != "" && spec.id !in s.tasks ==> error == None)
      && (error.Some? ==> s' == s)
      && (error.None? ==>
            && s'.tasks == s.tasks[spec.id := Task(spec, Queued, 0, "", None, None)]
            && s'.queued == s.queued + [spec.id]
            && s'.order == s.order + [spec.id])
  {
  }

  // ---- expiry ----

  /** A task whose lease ran out, back in the queue or failed for good. */
  predicate Lapsed(t: Task, t': Task, maxAttempts: int) {
    && (t.attempts < maxAttempts ==> t' == Task(t.spec, Queued, t.attempts, t.workerId, None, None))
    && (maxAttempts <= t.attempts ==>
          t' == Task(t.spec, Failed, t.attempts, t.workerId, None,
                     Some(Result("", 0, "lease expired and retry policy was exhausted"))))
  }

  predicate Overdue(t: Task, now: int) {
    t.state.Leased? && t.lease.Some? && t.lease.value.expiresAt <= now
  }

  /** `some` are elements of `all`, in the order of `all`. */
  predicate InOrderOf(some: seq<string>, all: seq<string>) {
    || some == []
    || (all != [] && ((some[0] == all[0] && InOrderOf(some[1..], all[1..])) || InOrderOf(some, all[1..])))
  }

  lemma {:induction false} ReturningContract(tasks: map<string, Task>, ids: seq<string>, now: int, maxAttempts: int)
    ensures var back := Returning(tasks, ids, now, maxAttempts);
      && InOrderOf(back, ids)
      && (forall id :: id in back <==> id in ids && id in tasks && Overdue(tasks[id], now) && tasks[id].attempts < maxAttempts)
  {
    if ids == [] {
    } else {
      ReturningContract(tasks, ids[1..], now, maxAttempts);
      var rest := Returning(tasks, ids[1..], now, maxAttempts);
      assert ids == [ids[0]] + ids[1..];
      assert [] + rest == rest && ([ids[0]] + rest)[1..] == rest;
    }
  }

  /** The reported IDs are those of the overdue tasks, in enqueue order. */
  lemma {:induction false} DueIdsContract(s: State, ids: seq<string>, now: int)
    ensures InOrderOf(DueIds(s, ids, now), ids)
    ensures forall id :: id in DueIds(s, ids, now) <==> id in ids && id in s.tasks && Overdue(s.tasks[id], now)
  {
    if ids == [] {
    } else {
      DueIdsContract(s, ids[1..], now);
      var rest := DueIds(s, ids[1..], now);
      assert ids == [ids[0]] + ids[1..];
      assert [] + rest == rest && ([ids[0]] + rest)[1..] == rest;
    }
  }

  /** Expiry lapses every overdue task and no other; those with attempts left join the queue in enqueue order. */
  lemma SettleContract(s: State, now: int)
    requires Inv(s)
    ensures var s' := Settle(s, now);
      && SameSettings(s, s') && s'.order == s.order && s'.tasks.Keys == s.tasks.Keys
      && (forall id :: id in s.tasks ==>
            if Overdue(s.tasks[id], now) then Lapsed(s.tasks[id], s'.tasks[id], s.maxAttempts) else s'.tasks[id] == s.tasks[id])
      && |s.queued| <= |s'.queued| && s'.queued[..|s.queued|] == s.queued
      && InOrderOf(s'.queued[|s.queued|..], s.order)
      && (forall id :: id in s'.queued[|s.queued|..] <==>
            id in s.tasks && Overdue(s.tasks[id], now) && s.tasks[id].attempts < s.maxAttempts)
  {
    hide Inv, Settle;
    SettleIsEager(s, now);
    OrderListsAll(s);
    ReturningContract(s.tasks, s.order, now, s.maxAttempts);
    var back := Returning(s.tasks, s.order, now, s.maxAttempts);
    assert (s.queued + back)[..|s.queued|] == s.queued && (s.queued + back)[|s.queued|..] == back;
  }

  // ---- claiming ----

  /** After expiry a claim takes the first waiting task: the record is leased to the worker under a new lease for a
      whole duration, numbered one more than the attempts before, and the reply is that task and that lease. */
  lemma ClaimContract(s: State, workerId: string, now: int, leaseId: string)
    requires Inv(s)
    ensures var (s', reply) := Claim(s, workerId, now, leaseId);
            var settled := Settle(s, now);
      && (workerId == "" ==> reply == ClaimRefused(InvalidWorker) && s' == s)
      && (workerId != "" && settled.queued == [] ==>
            && reply == NoWork
            && s'.tasks == settled.tasks && s'.queued == [] && s'.order == s.order && SameSettings(s, s'))
      && (workerId != "" && settled.queued != [] ==>
            && var id := settled.queued[0];
            && id in settled.tasks
            && var t := settled.tasks[id];
            && var lease := Lease(leaseId, id, workerId, now, now + s.duration, t.attempts + 1);
            && reply == Assigned(t.spec, lease)
            && s'.tasks == settled.tasks[id := Task(t.spec, Leased, t.attempts + 1, workerId, Some(lease), None)]
            && s'.queued == settled.queued[1..] && s'.order == s.order && SameSettings(s, s'))
  {
    hide Inv;
    SettleIsEager(s, now);
    var settled := Settle(s, now);
    NothingIsSkipped(settled);
    assert settled.(queued := settled.queued) == settled;
    if settled.queued != [] {
      FrontIsQueued(settled);
      InvTask(settled, settled.queued[0]);
    }
  }

  // ---- renewing and reporting ----

  /** Why a call under a lease is refused: the first of these that applies. */
  predicate RefusedFor(s: State, taskId: string, leaseId: string, workerId: string, error: QueueError) {
    && (taskId !in s.tasks ==> error == TaskNotFound)
    && (taskId in s.tasks ==>
          var t := s.tasks[taskId];
          && (t.state.Completed? ==> error == AlreadyCompleted)
          && (t.state.Failed? ==> error == TaskFailed)
          && (t.state.Queued? ==> error == StaleLease)
          && (t.state.Leased? && t.lease.Some? ==>
                && (t.lease.value.id != leaseId ==> error == StaleLease)
                && (t.lease.value.id == leaseId && t.lease.value.workerId != workerId ==> error == WrongWorker)
                && (t.lease.value.id == leaseId && t.lease.value.workerId == workerId ==> error == StaleLease)))
  }

  /** A refusal changes nothing, but that the holder's own overdue lease is expired. */
  ghost predicate RefusedState(s: State, taskId: string, leaseId: string, workerId: string, now: int, s': State) {
    if (exists deadline :: HeldUntil(s, taskId, leaseId, workerId, deadline) && deadline <= now)
    then
      && SameSettings(s, s') && s'.order == s.order
      && taskId in s.tasks && taskId in s'.tasks
      && s'.tasks == s.tasks[taskId := s'.tasks[taskId]]
      && Lapsed(s.tasks[taskId], s'.tasks[taskId], s.maxAttempts)
      && s'.queued == if s.tasks[taskId].attempts < s.maxAttempts then s.queued + [taskId] else s.queued
    else s' == s
  }

  lemma RefusalContract(s: State, taskId: string, leaseId: string, workerId: string, now: int)
    requires Inv(s)
    ensures var error := LeaseError(s, taskId, leaseId, workerId);
      && (error.None? <==> exists deadline :: HeldUntil(s, taskId, leaseId, workerId, deadline))
      && (error.Some? ==> RefusedFor(s, taskId, leaseId, workerId, error.value))
      && (error.None? ==> taskId in s.tasks && RefusedFor(s, taskId, leaseId, workerId, StaleLease))
  {
    hide Inv;
    if taskId in s.tasks {
      InvTask(s, taskId);
      if s.tasks[taskId].lease.Some? {
        var deadline := s.tasks[taskId].lease.value.expiresAt;
        assert LeaseError(s, taskId, leaseId, workerId).None? ==> HeldUntil(s, taskId, leaseId, workerId, deadline);
      }
    }
  }

  lemma ExpiredTarget(s: State, taskId: string, leaseId: string, workerId: string, deadline: int, now: int)
    requires Inv(s) && HeldUntil(s, taskId, leaseId, workerId, deadline)
    ensures Due(s.tasks[taskId], now) <==> deadline <= now
    ensures deadline <= now ==> RefusedState(s, taskId, leaseId, workerId, now, SettleOne(s, taskId, now))
    ensures HeldAt(s, taskId, leaseId, workerId, now) <==> now < deadline
  {
    hide Inv;
    InvTask(s, taskId);
  }

  lemma CheckContract(s: State, taskId: string, leaseId: string, workerId: string, now: int)
    requires Inv(s)
    ensures var (s', error) := CheckLease(s, taskId, leaseId, workerId, now);
      && (error.None? <==> HeldAt(s, taskId, leaseId, workerId, now))
      && (error.Some? ==> RefusedFor(s, taskId, leaseId, workerId, error.value)
                          && RefusedState(s, taskId, leaseId, workerId, now, s'))
  {
    hide Inv, LeaseError, RefusedFor, HeldUntil, SettleOne, Due;
    RefusalContract(s, taskId, leaseId, workerId, now);
    if deadline :| HeldUntil(s, taskId, leaseId, workerId, deadline) {
      ExpiredTarget(s, taskId, leaseId, workerId, deadline, now);
    }
  }

  /** The holder's renewal before the deadline moves the expiry to a whole duration from now, of that lease only,
      and the reply is the lease that the queue then holds. */
  lemma RenewContract(s: State, taskId: string, leaseId: string, workerId: string, now: int)
    requires Inv(s)
    ensures var (s', reply) := Renew(s, taskId, leaseId, workerId, now);
      && (reply.LeaseRenewed? <==> HeldAt(s, taskId, leaseId, workerId, now))
      && (reply.LeaseRenewed? ==>
            && var t := s.tasks[taskId];
            && t.lease.Some? && reply.lease == t.lease.value.(expiresAt := now + s.duration)
            && s'.tasks == s.tasks[taskId := t.(lease := Some(reply.lease))]
            && Holds(s', reply.lease)
            && s'.queued == s.queued && s'.order == s.order && SameSettings(s, s'))
      && (reply.RenewRefused? ==> RefusedFor(s, taskId, leaseId, workerId, reply.error)
                                  && RefusedState(s, taskId, leaseId, workerId, now, s'))
  {
    hide Inv, CheckLease, RefusedFor, RefusedState;
    AcceptedWhileHeld(s, taskId, leaseId, workerId, EXPIRY_RESULT, now);
    CheckContract(s, taskId, leaseId, workerId, now);
    CheckLeaseFollows(s, taskId, leaseId, workerId, now);
    if taskId in s.tasks {
      InvTask(s, taskId);
    }
  }

  /** The holder's report before the deadline completes the task with it, or puts the task back while attempts are
      left, or fails it with the report. */
  lemma CompleteContract(s: State, taskId: string, leaseId: string, workerId: string, result: Result, now: int)
    requires Inv(s)
    ensures var (s', reply) := Complete(s, taskId, leaseId, workerId, result, now);
      && (reply.Accepted? <==> HeldAt(s, taskId, leaseId, workerId, now))
      && (reply.Accepted? ==>
            && taskId in s.tasks
            && var t := s.tasks[taskId];
            && var again := result.error != "" && t.attempts < s.maxAttempts;
            && s'.tasks == s.tasks[taskId :=
                 if result.error == "" then Task(t.spec, Completed, t.attempts, t.workerId, None, Some(result))
                 else if again then Task(t.spec, Queued, t.attempts, t.workerId, None, None)
                 else Task(t.spec, Failed, t.attempts, t.workerId, None, Some(result))]
            && s'.queued == (if again then s.queued + [taskId] else s.queued)
            && s'.order == s.order && SameSettings(s, s')
            && reply.outcome == (if result.error == "" then OutcomeCompleted
                                 else if again then OutcomeRequeued
                                 else OutcomeFailed))
      && (reply.CompleteRefused? ==> RefusedFor(s, taskId, leaseId, workerId, reply.error)
                                     && RefusedState(s, taskId, leaseId, workerId, now, s'))
  {
    hide Inv, CheckLease, RefusedFor, RefusedState;
    AcceptedWhileHeld(s, taskId, leaseId, workerId, result, now);
    CheckContract(s, taskId, leaseId, workerId, now);
    CheckLeaseFollows(s, taskId, leaseId, workerId, now);
    if taskId in s.tasks {
      InvTask(s, taskId);
    }
  }
}
