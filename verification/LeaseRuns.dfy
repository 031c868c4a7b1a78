/**
 Whole runs: every exported method holds the queue's lock for its whole body, so
 any concurrent use of the queue is some sequence of atomic operations.
 */
module LeaseRuns {
  import opened LeaseModel
  import opened LeaseInvariants

  /** One locked call.  `SettleOp` stands for RequeueExpired, Get, JobTasks, Snapshot and Stats,
      which change the queue in the same way; Observe changes nothing. */
  datatype Op =
    | EnqueueOp(spec: TaskSpec)
    | ClaimOp(workerId: string, now: int, leaseId: string)
    | RenewOp(taskId: string, leaseId: string, workerId: string, now: int)
    | CompleteOp(taskId: string, leaseId: string, workerId: string, result: Result, now: int)
    | SettleOp(now: int)

  function Apply(s: State, op: Op): (s': State)
    requires Linked(s)
  {
    match op
    case EnqueueOp(spec) => Enqueue(s, spec).0
    case ClaimOp(workerId, now, leaseId) => Claim(s, workerId, now, leaseId).0
    case RenewOp(taskId, leaseId, workerId, now) => Renew(s, taskId, leaseId, workerId, now).0
    case CompleteOp(taskId, leaseId, workerId, result, now) => Complete(s, taskId, leaseId, workerId, result, now).0
    case SettleOp(now) => Settle(s, now)
  }

  lemma ApplyLinked(s: State, op: Op)
    requires Linked(s)
    ensures Linked(Apply(s, op))
  {
  }

  function Run(s: State, ops: seq<Op>): (s': State)
    requires Linked(s)
    ensures Linked(s')
    decreases |ops|
  {
    if ops == [] then s
    else
      ApplyLinked(s, ops[0]);
      Run(Apply(s, ops[0]), ops[1..])
  }

  /** A fresh queue after any operations at all. */
  function Reached(duration: int, maxAttempts: int, ops: seq<Op>): State {
    Run(Init(duration, maxAttempts), ops)
  }

  // ---- what later states keep of earlier ones ----

  ghost predicate TaskFollows(t: Task, t': Task) {
    && t'.spec == t.spec
    && t.attempts <= t'.attempts
    && (Terminal(t) ==> t' == t)
  }

  ghost predicate Follows(s: State, s': State) {
    && s'.duration == s.duration && s'.maxAttempts == s.maxAttempts
    && s.log <= s'.log
    && s.order <= s'.order
    && (forall id :: id in s.tasks ==> id in s'.tasks && TaskFollows(s.tasks[id], s'.tasks[id]))
  }

  lemma FollowsTransitive(a: State, b: State, c: State)
    requires Follows(a, b) && Follows(b, c)
    ensures Follows(a, c)
  {
  }

  lemma DoFollows(s: State, e: Event)
    requires Inv(s) && Legal(s, e)
    ensures Inv(Do(s, e)) && Follows(s, Do(s, e))
  {
    hide Inv;
    InvKept(s, e);
    assert Do(s, e).tasks == s.tasks[Target(e) := Do(s, e).tasks[Target(e)]];
  }

  lemma {:induction false} SettleOverFollows(s: State, ids: seq<string>, now: int)
    requires Inv(s)
    ensures Inv(SettleOver(s, ids, now)) && Follows(s, SettleOver(s, ids, now))
    ensures |SettleOver(s, ids, now).order| == |s.order|
    decreases |ids|
  {
    if ids == [] {
    } else {
      var next := SettleOne(s, ids[0], now);
      if next != s {
        DoFollows(s, Expired(s.tasks[ids[0]].lease.value, now));
      }
      SettleOverFollows(next, ids[1..], now);
      FollowsTransitive(s, next, SettleOver(s, ids, now));
    }
  }

  /** In every state that satisfies the invariant, Claim's loop has nothing to skip. */
  lemma NothingIsSkipped(s: State)
    requires Inv(s)
    ensures SkipStale(s.queued, s.tasks) == s.queued
  {
    assert s.queued != [] ==> s.queued[0] in s.queued;
  }

  lemma ApplyFollows(s: State, op: Op)
    requires Inv(s)
    ensures Inv(Apply(s, op)) && Follows(s, Apply(s, op))
  {
    hide Inv;
    match op
    case EnqueueOp(spec) =>
      if Legal(s, Added(spec)) {
        DoFollows(s, Added(spec));
      }
    case ClaimOp(workerId, now, leaseId) =>
      ClaimFollows(s, workerId, now, leaseId);
    case RenewOp(taskId, leaseId, workerId, now) =>
      RenewFollows(s, taskId, leaseId, workerId, now);
    case CompleteOp(taskId, leaseId, workerId, result, now) =>
      CompleteFollows(s, taskId, leaseId, workerId, result, now);
    case SettleOp(now) =>
      SettleOverFollows(s, s.order, now);
  }

  lemma RenewFollows(s: State, taskId: string, leaseId: string, workerId: string, now: int)
    requires Inv(s)
    ensures var s' := Renew(s, taskId, leaseId, workerId, now).0; Inv(s') && Follows(s, s')
  {
    hide Inv, Follows;
    CheckLeaseFollows(s, taskId, leaseId, workerId, now);
    if CheckLease(s, taskId, leaseId, workerId, now).1.None? {
      DoFollows(s, Renewed(s.tasks[taskId].lease.value, now));
    }
  }

  lemma CompleteFollows(s: State, taskId: string, leaseId: string, workerId: string, result: Result, now: int)
    requires Inv(s)
    ensures var s' := Complete(s, taskId, leaseId, workerId, result, now).0; Inv(s') && Follows(s, s')
  {
    hide Inv, Follows;
    CheckLeaseFollows(s, taskId, leaseId, workerId, now);
    if CheckLease(s, taskId, leaseId, workerId, now).1.None? {
      DoFollows(s, Resolved(s.tasks[taskId].lease.value, now, result));
    }
  }

  lemma FrontIsQueued(s: State)
    requires Inv(s) && s.queued != []
    ensures s.queued[0] in s.tasks && s.tasks[s.queued[0]].state.Queued?
  {
    assert s.queued[0] in s.queued;
  }

  lemma AssignmentFollows(settled: State, workerId: string, now: int, leaseId: string)
    requires Inv(settled) && workerId != ""
    ensures var s' := Assignment(settled, workerId, now, leaseId).0; Inv(s') && Follows(settled, s')
  {
    hide Inv;
    NothingIsSkipped(settled);
    assert settled.(queued := settled.queued) == settled;
    if settled.queued != [] {
      FrontIsQueued(settled);
      DoFollows(settled, Granted(NewLease(settled, settled.queued[0], workerId, now, leaseId)));
    }
  }

  lemma ClaimFollows(s: State, workerId: string, now: int, leaseId: string)
    requires Inv(s)
    ensures var s' := Claim(s, workerId, now, leaseId).0; Inv(s') && Follows(s, s')
  {
    hide Inv, Assignment;
    SettleOverFollows(s, s.order, now);
    if workerId != "" {
      AssignmentFollows(Settle(s, now), workerId, now, leaseId);
      FollowsTransitive(s, Settle(s, now), Assignment(Settle(s, now), workerId, now, leaseId).0);
    }
  }

  lemma CheckLeaseFollows(s: State, taskId: string, leaseId: string, workerId: string, now: int)
    requires Inv(s)
    ensures var (s', error) := CheckLease(s, taskId, leaseId, workerId, now);
      && Inv(s') && Follows(s, s')
      && (error.None? ==> s' == s && Legal(s, Renewed(s.tasks[taskId].lease.value, now)))
  {
    if LeaseError(s, taskId, leaseId, workerId).None? && Due(s.tasks[taskId], now) {
      DoFollows(s, Expired(s.tasks[taskId].lease.value, now));
    }
  }

  lemma {:induction false} RunFollows(s: State, ops: seq<Op>)
    requires Inv(s)
    ensures Inv(Run(s, ops)) && Follows(s, Run(s, ops))
    decreases |ops|
  {
    hide Inv;
    if ops == [] {
    } else {
      var next := Apply(s, ops[0]);
      ApplyFollows(s, ops[0]);
      RunFollows(next, ops[1..]);
      FollowsTransitive(s, next, Run(next, ops[1..]));
    }
  }

  lemma {:induction false} RunConcat(s: State, a: seq<Op>, b: seq<Op>)
    requires Linked(s)
    ensures Run(s, a + b) == Run(Run(s, a), b)
    decreases |a|
  {
    if a == [] {
      assert a + b == b;
    } else {
      ApplyLinked(s, a[0]);
      RunConcat(Apply(s, a[0]), a[1..], b);
      assert (a + b)[0] == a[0] && (a + b)[1..] == a[1..] + b;
    }
  }

  lemma ThreeSteps(s: State, a: Op, b: Op, c: Op)
    requires Linked(s)
    ensures Linked(Apply(s, a)) && Linked(Apply(Apply(s, a), b))
    ensures Run(s, [a, b, c]) == Apply(Apply(Apply(s, a), b), c)
  {
    hide Apply;
    ApplyLinked(s, a);
    ApplyLinked(Apply(s, a), b);
    ApplyLinked(Apply(Apply(s, a), b), c);
    assert [a, b, c][1..] == [b, c] && [b, c][1..] == [c] && [c][1..] == [];
    assert Run(s, [a, b, c]) == Run(Apply(s, a), [b, c]);
    assert Run(Apply(s, a), [b, c]) == Run(Apply(Apply(s, a), b), [c]);
    assert Run(Apply(Apply(s, a), b), [c]) == Run(Apply(Apply(Apply(s, a), b), c), []);
  }

  lemma ReachedInv(duration: int, maxAttempts: int, ops: seq<Op>)
    requires 0 < duration && 0 < maxAttempts
    ensures var s := Reached(duration, maxAttempts, ops);
      Inv(s) && s.duration == duration && s.maxAttempts == maxAttempts
  {
    hide Inv;
    InvInit(duration, maxAttempts);
    RunFollows(Init(duration, maxAttempts), ops);
  }

  // ---- the clock and the ID generator, as callers see them ----

  /** Successive calls read times that never go back. */
  ghost predicate ClockForward(ops: seq<Op>) {
    forall i, j :: 0 <= i < j < |ops| && !ops[i].EnqueueOp? && !ops[j].EnqueueOp? ==> ops[i].now <= ops[j].now
  }

  /** Successive claims draw different lease IDs. */
  ghost predicate GeneratorFresh(ops: seq<Op>) {
    forall i, j :: 0 <= i < j < |ops| && ops[i].ClaimOp? && ops[j].ClaimOp? ==> ops[i].leaseId != ops[j].leaseId
  }
}
