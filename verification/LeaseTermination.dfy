/**
 All work is bounded: n tasks cost at most maxAttempts * n claims and twice as many changes.  And a queue that
 keeps being claimed from drains: after (maxAttempts + 1) * n claims, not counting those made while every open
 task is under a lease in force, each task is terminal.
 */
module LeaseTermination {
  import opened LeaseModel
  import opened LeaseHistory
  import opened LeaseInvariants
  import opened LeaseRuns
  import opened LeaseSettling

  predicate AllTerminal(s: State) {
    forall id :: id in s.tasks ==> Terminal(s.tasks[id])
  }

  lemma {:induction false} SumBounds(ids: seq<string>, tasks: map<string, Task>, maxAttempts: int)
    requires forall id :: id in ids && id in tasks ==> 0 <= tasks[id].attempts <= maxAttempts
    ensures 0 <= SumWeights(ids, tasks, maxAttempts)
    ensures 0 <= maxAttempts ==> SumAttempts(ids, tasks) <= maxAttempts * |ids|
    ensures forall id :: id in ids && id in tasks && 0 < Weight(tasks[id], maxAttempts) ==>
              0 < SumWeights(ids, tasks, maxAttempts)
  {
    if ids == [] {
    } else {
      SumBounds(ids[1..], tasks, maxAttempts);
      assert maxAttempts * |ids| == maxAttempts * (|ids| - 1) + maxAttempts;
    }
  }

  lemma MeasureBounds(s: State)
    requires Inv(s)
    ensures 0 <= Measure(s) <= 2 * s.maxAttempts * |s.order|
    ensures |Claims(s.log)| <= s.maxAttempts * |s.order|
    ensures AllTerminal(s) <==> Measure(s) == 0
  {
    forall id | id in s.tasks
      ensures 0 <= s.tasks[id].attempts <= s.maxAttempts
      ensures Terminal(s.tasks[id]) || 0 < Weight(s.tasks[id], s.maxAttempts)
    {
      assert TaskOk(s.tasks[id], id, s.maxAttempts);
    }
    SumBounds(s.order, s.tasks, s.maxAttempts);
    if AllTerminal(s) {
      AllTerminalWeighsNothing(s.order, s.tasks, s.maxAttempts);
    }
  }

  lemma {:induction false} AllTerminalWeighsNothing(ids: seq<string>, tasks: map<string, Task>, maxAttempts: int)
    requires forall id :: id in tasks ==> Terminal(tasks[id])
    ensures SumWeights(ids, tasks, maxAttempts) == 0
  {
    if ids == [] {
    } else {
      AllTerminalWeighsNothing(ids[1..], tasks, maxAttempts);
    }
  }

  /** Any run that enqueued n tasks made at most maxAttempts * n successful claims, and at most
      2 * maxAttempts * n claims, accepted reports and expiries together. */
  lemma WorkIsBounded(duration: int, maxAttempts: int, ops: seq<Op>)
    requires 0 < duration && 0 < maxAttempts
    ensures var s := Reached(duration, maxAttempts, ops);
      && |Claims(s.log)| <= maxAttempts * |s.order|
      && Moves(s.log) <= 2 * maxAttempts * |s.order|
  {
    ReachedInv(duration, maxAttempts, ops);
    MeasureBounds(Reached(duration, maxAttempts, ops));
  }

  // ---- progress ----

  lemma DoMeasure(s: State, e: Event)
    requires Inv(s) && Legal(s, e) && !e.Added?
    ensures Measure(Do(s, e)) <= Measure(s)
    ensures !e.Renewed? ==> Measure(Do(s, e)) < Measure(s)
  {
    MeasureStep(s, e);
  }

  lemma {:induction false} SettleOverMeasure(s: State, ids: seq<string>, now: int)
    requires Inv(s)
    ensures Measure(SettleOver(s, ids, now)) <= Measure(s)
    ensures (exists id :: id in ids && id in s.tasks && Due(s.tasks[id], now)) ==>
              Measure(SettleOver(s, ids, now)) < Measure(s)
    decreases |ids|
  {
    if ids == [] {
    } else {
      var next := SettleOne(s, ids[0], now);
      SettleOverFollows(s, [ids[0]], now);
      assert SettleOver(s, [ids[0]], now) == next;
      SettleOverMeasure(next, ids[1..], now);
      if next != s {
        DoMeasure(s, Expired(s.tasks[ids[0]].lease.value, now));
      }
    }
  }

  /** Some task waits, or was leased and its lease has run out. */
  predicate WorkWaits(s: State, now: int) {
    exists id :: id in s.tasks && (s.tasks[id].state.Queued? || Due(s.tasks[id], now))
  }

  /** A claim by a named worker makes progress exactly when there is work to be had. */
  lemma ClaimMeasure(s: State, workerId: string, now: int, leaseId: string)
    requires Inv(s)
    ensures Measure(Claim(s, workerId, now, leaseId).0) <= Measure(s)
    ensures workerId != "" ==> (Measure(Claim(s, workerId, now, leaseId).0) < Measure(s) <==> WorkWaits(s, now))
  {
    hide Inv, Measure;
    SettleOverMeasure(s, s.order, now);
    SettleOverFollows(s, s.order, now);
    var settled := Settle(s, now);
    NothingIsSkipped(settled);
    assert settled.(queued := settled.queued) == settled;
    if workerId != "" && settled.queued != [] {
      FrontIsQueued(settled);
      DoMeasure(settled, Granted(NewLease(settled, settled.queued[0], workerId, now, leaseId)));
    }
    WorkIsFound(s, now);
  }

  /** Work waits exactly if settling changes something or leaves something queued. */
  lemma WorkIsFound(s: State, now: int)
    requires Inv(s)
    ensures WorkWaits(s, now) ==> Settle(s, now).queued != [] || Measure(Settle(s, now)) < Measure(s)
    ensures !WorkWaits(s, now) ==> Settle(s, now) == s && s.queued == []
    ensures Settle(s, now).queued != [] ==> WorkWaits(s, now)
  {
    if s.queued != [] {
      FrontIsQueued(s);
    }
    if id :| id in s.tasks && (s.tasks[id].state.Queued? || Due(s.tasks[id], now)) {
      SettleOverMeasure(s, s.order, now);
      if s.tasks[id].state.Queued? {
        SettleOverKeepsQueued(s, s.order, now, id);
      }
    } else {
      SettleOverIdle(s, s.order, now);
    }
  }

  lemma {:induction false} SettleOverKeepsQueued(s: State, ids: seq<string>, now: int, id: string)
    requires Inv(s) && id in s.queued
    ensures id in SettleOver(s, ids, now).queued
    decreases |ids|
  {
    if ids == [] {
    } else {
      SettleOverFollows(s, [ids[0]], now);
      assert SettleOver(s, [ids[0]], now) == SettleOne(s, ids[0], now);
      SettleOverKeepsQueued(SettleOne(s, ids[0], now), ids[1..], now, id);
    }
  }

  // ---- draining ----

  /** The claims that can still find work in a task: one for each attempt left, and one that finds the last
      attempt's lease run out. */
  function Chances(t: Task, maxAttempts: int): int {
    if Terminal(t) then 0 else maxAttempts - t.attempts + 1
  }

  function SumChances(ids: seq<string>, tasks: map<string, Task>, maxAttempts: int): int {
    if ids == [] then 0
    else (if ids[0] in tasks then Chances(tasks[ids[0]], maxAttempts) else 0) + SumChances(ids[1..], tasks, maxAttempts)
  }

  function Remaining(s: State): int {
    SumChances(s.order, s.tasks, s.maxAttempts)
  }

  lemma {:induction false} ChancesFall(ids: seq<string>, tasks: map<string, Task>, tasks': map<string, Task>, maxAttempts: int)
    requires forall id :: id in ids ==>
               id in tasks && id in tasks' && Chances(tasks'[id], maxAttempts) <= Chances(tasks[id], maxAttempts)
    ensures SumChances(ids, tasks', maxAttempts) <= SumChances(ids, tasks, maxAttempts)
    ensures (exists id :: id in ids && Chances(tasks'[id], maxAttempts) < Chances(tasks[id], maxAttempts)) ==>
              SumChances(ids, tasks', maxAttempts) < SumChances(ids, tasks, maxAttempts)
  {
    if ids == [] {
    } else {
      assert ids[0] in ids;
      ChancesFall(ids[1..], tasks, tasks', maxAttempts);
    }
  }

  lemma {:induction false} ChancesBounds(ids: seq<string>, tasks: map<string, Task>, maxAttempts: int)
    requires 0 < maxAttempts && forall id :: id in ids ==> id in tasks && 0 <= tasks[id].attempts <= maxAttempts
    ensures 0 <= SumChances(ids, tasks, maxAttempts) <= (maxAttempts + 1) * |ids|
    ensures SumChances(ids, tasks, maxAttempts) == 0 <==> forall id :: id in ids ==> Terminal(tasks[id])
  {
    if ids == [] {
    } else {
      assert ids[0] in ids;
      ChancesBounds(ids[1..], tasks, maxAttempts);
      assert (maxAttempts + 1) * |ids| == (maxAttempts + 1) * (|ids| - 1) + (maxAttempts + 1);
    }
  }

  lemma RemainingBounds(s: State)
    requires Inv(s)
    ensures 0 <= Remaining(s) <= (s.maxAttempts + 1) * |s.order|
    ensures AllTerminal(s) <==> Remaining(s) == 0
  {
    OrderListsAll(s);
    forall id | id in s.tasks
      ensures 0 <= s.tasks[id].attempts <= s.maxAttempts
    {
      InvTask(s, id);
    }
    ChancesBounds(s.order, s.tasks, s.maxAttempts);
  }

  /** Chances are never gained, and lost wherever an attempt is used or a task ends. */
  lemma RemainingFalls(s: State, s': State, id: string)
    requires Inv(s) && Inv(s') && Follows(s, s') && s'.order == s.order
    ensures Remaining(s') <= Remaining(s)
    ensures id in s.tasks && !Terminal(s.tasks[id]) && id in s'.tasks
            && (Terminal(s'.tasks[id]) || s.tasks[id].attempts < s'.tasks[id].attempts) ==>
              Remaining(s') < Remaining(s)
  {
    OrderListsAll(s);
    forall x | x in s.order
      ensures x in s'.tasks && Chances(s'.tasks[x], s.maxAttempts) <= Chances(s.tasks[x], s.maxAttempts)
    {
      assert TaskFollows(s.tasks[x], s'.tasks[x]);
      InvTask(s, x);
    }
    if id in s.tasks {
      InvTask(s, id);
    }
    ChancesFall(s.order, s.tasks, s'.tasks, s.maxAttempts);
  }

  lemma OperationsNeverAddChances(s: State, op: Op)
    requires Inv(s) && !op.EnqueueOp?
    ensures Remaining(Apply(s, op)) <= Remaining(s)
  {
    hide Inv, Apply;
    ApplyFollows(s, op);
    OnlyEnqueueOrders(s, op);
    RemainingFalls(s, Apply(s, op), "");
  }

  /** With nothing left in the queue after settling, a due task has just failed. */
  lemma DueTaskFails(s: State, now: int, id: string)
    requires Inv(s) && id in s.tasks && Due(s.tasks[id], now) && Settle(s, now).queued == []
    ensures id in Settle(s, now).tasks && Settle(s, now).tasks[id].state.Failed?
  {
    SettleIsEager(s, now);
    assert id in Settle(s, now).tasks && !Settle(s, now).tasks[id].state.Queued?;
  }

  lemma QueuedIds(s: State, id: string)
    requires Inv(s) && id in s.tasks && s.tasks[id].state.Queued?
    ensures id in s.queued
  {
  }

  /** A claim that finds work uses up a chance: it takes a task, or ends one whose last lease ran out. */
  lemma ClaimUsesChance(s: State, workerId: string, now: int, leaseId: string)
    requires Inv(s) && workerId != "" && WorkWaits(s, now)
    ensures Remaining(Claim(s, workerId, now, leaseId).0) < Remaining(s)
  {
    hide Inv;
    var op := ClaimOp(workerId, now, leaseId);
    var settled, after := Settle(s, now), Apply(s, op);
    ApplyFollows(s, op);
    OnlyEnqueueOrders(s, op);
    SettleOverFollows(s, s.order, now);
    NothingIsSkipped(settled);
    assert settled.(queued := settled.queued) == settled;
    if settled.queued != [] {
      var id := settled.queued[0];
      FrontIsQueued(settled);
      OrderListsAll(s);
      SettleOverRecord(s, s.order, now, id);
      RemainingFalls(s, after, id);
    } else {
      WorkIsFound(s, now);
      var id :| id in s.tasks && (s.tasks[id].state.Queued? || Due(s.tasks[id], now));
      if s.tasks[id].state.Queued? {
        QueuedIds(s, id);
        SettleOverKeepsQueued(s, s.order, now, id);
      } else {
        DueTaskFails(s, now, id);
      }
      RemainingFalls(s, after, id);
    }
  }

  /** How many operations of a run are claims by a named worker when there is work to be had. */
  function UsefulClaims(s: State, ops: seq<Op>): nat
    requires Linked(s)
    decreases |ops|
  {
    if ops == [] then 0
    else
      ApplyLinked(s, ops[0]);
      (if ops[0].ClaimOp? && ops[0].workerId != "" && WorkWaits(s, ops[0].now) then 1 else 0)
      + UsefulClaims(Apply(s, ops[0]), ops[1..])
  }

  /** Between enqueues a run has at most (maxAttempts + 1) * n such claims, whatever else happens in between. */
  lemma {:induction false} UsefulClaimsRunOut(s: State, ops: seq<Op>)
    requires Inv(s) && forall i :: 0 <= i < |ops| ==> !ops[i].EnqueueOp?
    ensures UsefulClaims(s, ops) + Remaining(Run(s, ops)) <= Remaining(s) <= (s.maxAttempts + 1) * |s.order|
    decreases |ops|
  {
    hide Inv, Remaining, WorkWaits;
    RemainingBounds(s);
    if ops == [] {
    } else {
      ApplyFollows(s, ops[0]);
      OperationsNeverAddChances(s, ops[0]);
      if ops[0].ClaimOp? && ops[0].workerId != "" && WorkWaits(s, ops[0].now) {
        ClaimUsesChance(s, ops[0].workerId, ops[0].now, ops[0].leaseId);
      }
      UsefulClaimsRunOut(Apply(s, ops[0]), ops[1..]);
    }
  }

  /** How many operations of a run are claims by a named worker that find work, or nothing left to do. */
  function CountedClaims(s: State, ops: seq<Op>): nat
    requires Linked(s)
    decreases |ops|
  {
    if ops == [] then 0
    else
      ApplyLinked(s, ops[0]);
      (if ops[0].ClaimOp? && ops[0].workerId != "" && (WorkWaits(s, ops[0].now) || AllTerminal(s)) then 1 else 0)
      + CountedClaims(Apply(s, ops[0]), ops[1..])
  }

  /** The only claims by a named worker that do not count are made while some task is open and every open task
      is under a lease in force. */
  lemma WhenAClaimDoesNotCount(s: State, now: int)
    ensures !(WorkWaits(s, now) || AllTerminal(s))
       <==> && (exists id :: id in s.tasks && !Terminal(s.tasks[id]))
            && (forall id :: id in s.tasks && !Terminal(s.tasks[id]) ==> s.tasks[id].state.Leased? && !Due(s.tasks[id], now))
  {
  }

  /** A queue that keeps being claimed from drains: once the claims that count are as many as the chances there
      were, at most (maxAttempts + 1) * n, every task is terminal, whatever else happened in between. */
  lemma {:induction false} ClaimingDrains(s: State, ops: seq<Op>)
    requires Inv(s) && forall i :: 0 <= i < |ops| ==> !ops[i].EnqueueOp?
    requires CountedClaims(s, ops) >= Remaining(s) || CountedClaims(s, ops) >= (s.maxAttempts + 1) * |s.order|
    ensures AllTerminal(Run(s, ops))
    decreases |ops|
  {
    hide Inv, Remaining, WorkWaits, AllTerminal;
    RemainingBounds(s);
    UsefulClaimsRunOut(s, ops);
    RunFollows(s, ops);
    RemainingBounds(Run(s, ops));
    if ops == [] || AllTerminal(s) {
    } else {
      ApplyFollows(s, ops[0]);
      OperationsNeverAddChances(s, ops[0]);
      if ops[0].ClaimOp? && ops[0].workerId != "" && WorkWaits(s, ops[0].now) {
        ClaimUsesChance(s, ops[0].workerId, ops[0].now, ops[0].leaseId);
      }
      ClaimingDrains(Apply(s, ops[0]), ops[1..]);
    }
  }

  // ---- even if every worker crashes ----

  predicate NoLeaseBeyond(s: State, time: int) {
    forall id :: id in s.tasks && s.tasks[id].lease.Some? ==> s.tasks[id].lease.value.expiresAt <= time
  }

  /** Claims by named workers, the first at `start` or later and each at least a lease duration after the one before. */
  predicate SpacedClaims(ops: seq<Op>, start: int, duration: int)
    decreases |ops|
  {
    ops == [] ||
    (ops[0].ClaimOp? && ops[0].workerId != "" && start <= ops[0].now && SpacedClaims(ops[1..], ops[0].now + duration, duration))
  }

  lemma ClaimLeavesOneLease(s: State, workerId: string, now: int, leaseId: string)
    requires Inv(s) && NoLeaseBeyond(s, now) && workerId != ""
    ensures NoLeaseBeyond(Claim(s, workerId, now, leaseId).0, now + s.duration)
  {
    hide Inv;
    SettleIsEager(s, now);
    forall id | id in s.tasks
      ensures Eager(s.tasks[id], now, s.maxAttempts).lease.None?
    {
      InvTask(s, id);
    }
  }

  lemma {:induction false} SpacedClaimsCount(s: State, ops: seq<Op>, start: int)
    requires Inv(s) && NoLeaseBeyond(s, start) && SpacedClaims(ops, start, s.duration)
    ensures CountedClaims(s, ops) == |ops|
    ensures forall i :: 0 <= i < |ops| ==> ops[i].ClaimOp?
    decreases |ops|
  {
    hide Inv, Apply;
    if ops == [] {
    } else {
      var now := ops[0].now;
      LeasedHasLease(s);
      WhenAClaimDoesNotCount(s, now);
      ApplyFollows(s, ops[0]);
      ClaimLeavesOneLease(s, ops[0].workerId, now, ops[0].leaseId);
      ApplyClaim(s, ops[0]);
      SpacedClaimsCount(Apply(s, ops[0]), ops[1..], now + s.duration);
    }
  }

  lemma LeasedHasLease(s: State)
    requires Inv(s)
    ensures forall id :: id in s.tasks && s.tasks[id].state.Leased? ==> s.tasks[id].lease.Some?
  {
  }

  lemma ApplyClaim(s: State, op: Op)
    requires Linked(s) && op.ClaimOp?
    ensures Apply(s, op) == Claim(s, op.workerId, op.now, op.leaseId).0
  {
  }

  /** Claims a lease duration apart drain the queue by themselves, even if no claimed task is ever reported on:
      after (maxAttempts + 1) * n of them every task is terminal. */
  lemma SpacedClaimsDrain(s: State, ops: seq<Op>, start: int)
    requires Inv(s) && NoLeaseBeyond(s, start) && SpacedClaims(ops, start, s.duration)
    requires |ops| >= (s.maxAttempts + 1) * |s.order|
    ensures AllTerminal(Run(s, ops))
  {
    SpacedClaimsCount(s, ops, start);
    ClaimingDrains(s, ops);
  }
}
