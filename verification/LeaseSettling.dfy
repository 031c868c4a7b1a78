/**
 Leases expire lazily: a due lease stays on record until some operation looks.
 Here the lazy queue is compared with one that expires every lease on time.
 */
module LeaseSettling {
  import opened LeaseModel
  import opened LeaseInvariants
  import opened LeaseRuns

  /** The record an eager queue would hold at time `now`. */
  function Eager(t: Task, now: int, maxAttempts: int): Task {
    if Due(t, now) then Lapse(t, maxAttempts) else t
  }

  function EagerTasks(s: State, now: int): map<string, Task> {
    map id | id in s.tasks :: Eager(s.tasks[id], now, s.maxAttempts)
  }

  /** The due tasks that go back to the queue, in the order of `ids`. */
  function Returning(tasks: map<string, Task>, ids: seq<string>, now: int, maxAttempts: int): seq<string> {
    if ids == [] then []
    else
      (if ids[0] in tasks && Due(tasks[ids[0]], now) && tasks[ids[0]].attempts < maxAttempts then [ids[0]] else [])
      + Returning(tasks, ids[1..], now, maxAttempts)
  }

  lemma {:induction false} SettleOverRecord(s: State, ids: seq<string>, now: int, id: string)
    requires Linked(s) && NoDuplicates(ids)
    ensures var s' := SettleOver(s, ids, now);
      && (id in s'.tasks <==> id in s.tasks)
      && (id in s.tasks ==> s'.tasks[id] == if id in ids then Eager(s.tasks[id], now, s.maxAttempts) else s.tasks[id])
    decreases |ids|
  {
    if ids == [] {
    } else {
      SettleOverRecord(SettleOne(s, ids[0], now), ids[1..], now, id);
    }
  }

  lemma {:induction false} SettleOverFrame(s: State, ids: seq<string>, now: int)
    requires Linked(s)
    ensures var s' := SettleOver(s, ids, now);
      s'.order == s.order && s'.maxAttempts == s.maxAttempts && s'.duration == s.duration
    decreases |ids|
  {
    if ids == [] {
    } else {
      SettleOverFrame(SettleOne(s, ids[0], now), ids[1..], now);
    }
  }

  lemma OnlyEnqueueOrders(s: State, op: Op)
    requires Linked(s) && !op.EnqueueOp?
    ensures Apply(s, op).order == s.order
  {
    match op
    case ClaimOp(_, now, _) => SettleOverFrame(s, s.order, now);
    case SettleOp(now) => SettleOverFrame(s, s.order, now);
    case RenewOp(_, _, _, _) =>
    case CompleteOp(_, _, _, _, _) =>
  }

  lemma {:induction false} SettleOverQueue(s: State, ids: seq<string>, now: int, tasks: map<string, Task>)
    requires Linked(s) && NoDuplicates(ids)
    requires forall id :: id in ids ==> id in s.tasks && id in tasks && s.tasks[id] == tasks[id]
    ensures SettleOver(s, ids, now).queued == s.queued + Returning(tasks, ids, now, s.maxAttempts)
    decreases |ids|
  {
    hide SettleOne, Linked;
    if ids == [] {
    } else {
      var next := SettleOne(s, ids[0], now);
      var first := if Due(tasks[ids[0]], now) && tasks[ids[0]].attempts < s.maxAttempts then [ids[0]] else [];
      SettleOneQueue(s, ids[0], now);
      SettleOverQueue(next, ids[1..], now, tasks);
      assert SettleOver(s, ids, now).queued == (s.queued + first) + Returning(tasks, ids[1..], now, s.maxAttempts);
    }
  }

  lemma SettleOneQueue(s: State, id: string, now: int)
    requires Linked(s) && id in s.tasks
    ensures var s' := SettleOne(s, id, now);
      && s'.queued == s.queued + (if Due(s.tasks[id], now) && s.tasks[id].attempts < s.maxAttempts then [id] else [])
      && s'.maxAttempts == s.maxAttempts
      && (forall other :: other in s.tasks && other != id ==> other in s'.tasks && s'.tasks[other] == s.tasks[other])
  {
  }

  lemma OrderListsAll(s: State)
    requires Inv(s)
    ensures NoDuplicates(s.order) && forall id :: id in s.order <==> id in s.tasks
  {
  }

  /** Settling gives every task its eager record; due tasks with attempts left join the queue in enqueue order. */
  lemma SettleIsEager(s: State, now: int)
    requires Inv(s)
    ensures var s' := Settle(s, now);
      && s'.tasks == EagerTasks(s, now)
      && s'.queued == s.queued + Returning(s.tasks, s.order, now, s.maxAttempts)
      && s'.order == s.order && s'.maxAttempts == s.maxAttempts && s'.duration == s.duration
      && Inv(s')
  {
    hide Inv, SettleOver;
    OrderListsAll(s);
    SettleOverFollows(s, s.order, now);
    SettleOverFrame(s, s.order, now);
    SettleOverQueue(s, s.order, now, s.tasks);
    forall id
      ensures id in Settle(s, now).tasks <==> id in s.tasks
      ensures id in s.tasks ==> Settle(s, now).tasks[id] == Eager(s.tasks[id], now, s.maxAttempts)
    {
      SettleOverRecord(s, s.order, now, id);
    }
  }

  // ---- settling in two steps ----

  lemma {:induction false} ReturningSplits(tasks: map<string, Task>, eager: map<string, Task>, ids: seq<string>,
                                          t1: int, t2: int, maxAttempts: int)
    requires t1 <= t2
    requires forall id :: id in ids ==> id in tasks && id in eager && eager[id] == Eager(tasks[id], t1, maxAttempts)
    ensures multiset(Returning(tasks, ids, t1, maxAttempts)) + multiset(Returning(eager, ids, t2, maxAttempts))
         == multiset(Returning(tasks, ids, t2, maxAttempts))
  {
    if ids == [] {
    } else {
      ReturningSplits(tasks, eager, ids[1..], t1, t2, maxAttempts);
    }
  }

  /** Settling early and again later gives the tasks that settling once later gives; the queues hold
      the same IDs, possibly in another order. */
  lemma SettlingTwice(s: State, t1: int, t2: int)
    requires Inv(s) && t1 <= t2
    ensures Settle(Settle(s, t1), t2).tasks == Settle(s, t2).tasks
    ensures multiset(Settle(Settle(s, t1), t2).queued) == multiset(Settle(s, t2).queued)
    ensures t1 == t2 ==> Settle(Settle(s, t1), t2).queued == Settle(s, t2).queued
  {
    hide Inv, Settle, EagerTasks;
    var first := Settle(s, t1);
    OrderListsAll(s);
    EagerRecords(s, t1);
    SettleIsEager(s, t1);
    SettleIsEager(s, t2);
    SettleIsEager(first, t2);
    EagerTwice(s, first, t1, t2);
    ReturningSplits(s.tasks, first.tasks, s.order, t1, t2, s.maxAttempts);
    if t1 == t2 {
      NoneReturnTwice(s.tasks, first.tasks, s.order, t1, s.maxAttempts);
    }
  }

  lemma EagerRecords(s: State, now: int)
    ensures forall id :: id in s.tasks <==> id in EagerTasks(s, now)
    ensures forall id :: id in s.tasks ==> EagerTasks(s, now)[id] == Eager(s.tasks[id], now, s.maxAttempts)
  {
  }

  lemma EagerTwice(s: State, first: State, t1: int, t2: int)
    requires t1 <= t2 && first.tasks == EagerTasks(s, t1) && first.maxAttempts == s.maxAttempts
    ensures EagerTasks(first, t2) == EagerTasks(s, t2)
  {
  }

  lemma {:induction false} NoneReturnTwice(tasks: map<string, Task>, eager: map<string, Task>, ids: seq<string>,
                                          now: int, maxAttempts: int)
    requires forall id :: id in ids ==> id in tasks && id in eager && eager[id] == Eager(tasks[id], now, maxAttempts)
    ensures Returning(eager, ids, now, maxAttempts) == []
  {
    if ids == [] {
    } else {
      NoneReturnTwice(tasks, eager, ids[1..], now, maxAttempts);
    }
  }

  // ---- operations on unsettled and on settled queues ----

  lemma {:induction false} SettleOverIdle(s: State, ids: seq<string>, now: int)
    requires Linked(s) && forall id :: id in ids && id in s.tasks ==> !Due(s.tasks[id], now)
    ensures SettleOver(s, ids, now) == s
  {
    if ids == [] {
    } else {
      SettleOverIdle(s, ids[1..], now);
    }
  }

  /** A claim does and answers the same on the unsettled queue as on the settled one. */
  lemma ClaimSettlesFirst(s: State, workerId: string, now: int, leaseId: string)
    requires Inv(s) && workerId != ""
    ensures Claim(s, workerId, now, leaseId) == Claim(Settle(s, now), workerId, now, leaseId)
  {
    hide Inv;
    SettleIsEager(s, now);
    SettleOverIdle(Settle(s, now), s.order, now);
  }

  /** What renewals and reports check, on a queue and on one where the target holds its eager record. */
  lemma CheckAgrees(s: State, settled: State, taskId: string, leaseId: string, workerId: string, now: int)
    requires Linked(s) && Linked(settled)
    requires taskId in s.tasks <==> taskId in settled.tasks
    requires taskId in s.tasks ==> settled.tasks[taskId] == Eager(s.tasks[taskId], now, s.maxAttempts)
    ensures CheckLease(settled, taskId, leaseId, workerId, now).0 == settled
    ensures CheckLease(s, taskId, leaseId, workerId, now).1.None?
       <==> CheckLease(settled, taskId, leaseId, workerId, now).1.None?
    ensures CheckLease(s, taskId, leaseId, workerId, now).1.None? ==> settled.tasks[taskId] == s.tasks[taskId]
  {
  }

  /** Renewals and reports are accepted on the unsettled queue exactly when they are on the settled one. */
  lemma AcceptanceIgnoresLaziness(s: State, taskId: string, leaseId: string, workerId: string, result: Result, now: int)
    requires Inv(s)
    ensures Renew(s, taskId, leaseId, workerId, now).1.LeaseRenewed?
       <==> Renew(Settle(s, now), taskId, leaseId, workerId, now).1.LeaseRenewed?
    ensures Complete(s, taskId, leaseId, workerId, result, now).1.Accepted?
       <==> Complete(Settle(s, now), taskId, leaseId, workerId, result, now).1.Accepted?
  {
    SettleIsEager(s, now);
    CheckAgrees(s, Settle(s, now), taskId, leaseId, workerId, now);
  }

  /** Changing one record to one that is not due changes the eager records in that place only. */
  lemma EagerAfter(s: State, s': State, id: string, t: Task, now: int)
    requires s'.tasks == s.tasks[id := t] && s'.maxAttempts == s.maxAttempts && !Due(t, now)
    ensures EagerTasks(s', now) == EagerTasks(s, now)[id := t]
  {
  }

  lemma RefusedKeepsEager(s: State, taskId: string, leaseId: string, workerId: string, now: int)
    requires Linked(s)
    ensures EagerTasks(CheckLease(s, taskId, leaseId, workerId, now).0, now) == EagerTasks(s, now)
  {
  }

  lemma SettleAfter(s: State, op: Op, now: int)
    requires Inv(s)
    ensures Linked(Apply(s, op)) && Settle(Apply(s, op), now).tasks == EagerTasks(Apply(s, op), now)
    ensures var settled := Settle(s, now);
      && settled.tasks == EagerTasks(s, now)
      && settled.maxAttempts == s.maxAttempts && settled.duration == s.duration
      && 0 < s.duration
  {
    SettleIsEager(s, now);
    ApplyFollows(s, op);
    SettleIsEager(Apply(s, op), now);
  }

  lemma CompleteOnEager(s: State, settled: State, taskId: string, leaseId: string, workerId: string,
                        result: Result, now: int)
    requires Linked(s) && Linked(settled)
    requires settled.tasks == EagerTasks(s, now) && settled.maxAttempts == s.maxAttempts
    ensures EagerTasks(Complete(s, taskId, leaseId, workerId, result, now).0, now)
         == Complete(settled, taskId, leaseId, workerId, result, now).0.tasks
  {
    CheckAgrees(s, settled, taskId, leaseId, workerId, now);
    RefusedKeepsEager(s, taskId, leaseId, workerId, now);
    if CheckLease(s, taskId, leaseId, workerId, now).1.None? {
      var s' := Complete(s, taskId, leaseId, workerId, result, now).0;
      EagerAfter(s, s', taskId, s'.tasks[taskId], now);
    }
  }

  lemma RenewOnEager(s: State, settled: State, taskId: string, leaseId: string, workerId: string, now: int)
    requires Linked(s) && Linked(settled) && 0 < s.duration
    requires settled.tasks == EagerTasks(s, now) && settled.maxAttempts == s.maxAttempts && settled.duration == s.duration
    ensures EagerTasks(Renew(s, taskId, leaseId, workerId, now).0, now)
         == Renew(settled, taskId, leaseId, workerId, now).0.tasks
  {
    CheckAgrees(s, settled, taskId, leaseId, workerId, now);
    RefusedKeepsEager(s, taskId, leaseId, workerId, now);
    if CheckLease(s, taskId, leaseId, workerId, now).1.None? {
      var s' := Renew(s, taskId, leaseId, workerId, now).0;
      EagerAfter(s, s', taskId, s'.tasks[taskId], now);
    }
  }

  /** After a report, settling gives the tasks that reporting to the settled queue gives. */
  lemma CompleteCommutesWithSettling(s: State, taskId: string, leaseId: string, workerId: string, result: Result, now: int)
    requires Inv(s)
    ensures Settle(Complete(s, taskId, leaseId, workerId, result, now).0, now).tasks
         == Complete(Settle(s, now), taskId, leaseId, workerId, result, now).0.tasks
  {
    hide Inv, Settle, Complete, EagerTasks;
    SettleAfter(s, CompleteOp(taskId, leaseId, workerId, result, now), now);
    CompleteOnEager(s, Settle(s, now), taskId, leaseId, workerId, result, now);
  }

  /** The same for renewals. */
  lemma RenewCommutesWithSettling(s: State, taskId: string, leaseId: string, workerId: string, now: int)
    requires Inv(s)
    ensures Settle(Renew(s, taskId, leaseId, workerId, now).0, now).tasks
         == Renew(Settle(s, now), taskId, leaseId, workerId, now).0.tasks
  {
    hide Inv, Settle, Renew, EagerTasks;
    SettleAfter(s, RenewOp(taskId, leaseId, workerId, now), now);
    RenewOnEager(s, Settle(s, now), taskId, leaseId, workerId, now);
  }

  /** The target's lease is due but not yet settled, and either its last attempt is spent (the settled queue
      says that the task failed) or the lease ID matches but the worker does not. */
  predicate Overlooked(s: State, taskId: string, leaseId: string, workerId: string, now: int) {
    && taskId in s.tasks && Due(s.tasks[taskId], now)
    && (s.tasks[taskId].attempts == s.maxAttempts
        || (s.tasks[taskId].lease.value.id == leaseId && s.tasks[taskId].lease.value.workerId != workerId))
  }

  lemma CheckErrorsDiffer(s: State, settled: State, taskId: string, leaseId: string, workerId: string, now: int)
    requires Linked(s) && Linked(settled) && settled.tasks == EagerTasks(s, now)
    requires taskId in s.tasks ==> TaskOk(s.tasks[taskId], taskId, s.maxAttempts)
    ensures CheckLease(s, taskId, leaseId, workerId, now).1 != CheckLease(settled, taskId, leaseId, workerId, now).1
       <==> Overlooked(s, taskId, leaseId, workerId, now)
  {
  }

  lemma InvTarget(s: State, taskId: string)
    requires Inv(s)
    ensures taskId in s.tasks ==> TaskOk(s.tasks[taskId], taskId, s.maxAttempts)
  {
  }

  /** Exactly when the answer to a report differs from the settled queue's. */
  lemma WhenAnswersDiffer(s: State, taskId: string, leaseId: string, workerId: string, result: Result, now: int)
    requires Inv(s)
    ensures Complete(s, taskId, leaseId, workerId, result, now).1
         != Complete(Settle(s, now), taskId, leaseId, workerId, result, now).1
       <==> Overlooked(s, taskId, leaseId, workerId, now)
  {
    hide Inv, Settle, Overlooked, EagerTasks;
    SettleIsEager(s, now);
    InvTarget(s, taskId);
    TargetIsEager(s, Settle(s, now), taskId, now);
    CheckAgrees(s, Settle(s, now), taskId, leaseId, workerId, now);
    CheckErrorsDiffer(s, Settle(s, now), taskId, leaseId, workerId, now);
  }

  /** The same for renewals. */
  lemma WhenRenewalsDiffer(s: State, taskId: string, leaseId: string, workerId: string, now: int)
    requires Inv(s)
    ensures Renew(s, taskId, leaseId, workerId, now).1 != Renew(Settle(s, now), taskId, leaseId, workerId, now).1
       <==> Overlooked(s, taskId, leaseId, workerId, now)
  {
    hide Inv, Settle, Overlooked, EagerTasks;
    SettleIsEager(s, now);
    InvTarget(s, taskId);
    TargetIsEager(s, Settle(s, now), taskId, now);
    CheckAgrees(s, Settle(s, now), taskId, leaseId, workerId, now);
    CheckErrorsDiffer(s, Settle(s, now), taskId, leaseId, workerId, now);
  }

  lemma TargetIsEager(s: State, settled: State, taskId: string, now: int)
    requires settled.tasks == EagerTasks(s, now)
    ensures taskId in s.tasks <==> taskId in settled.tasks
    ensures taskId in s.tasks ==> settled.tasks[taskId] == Eager(s.tasks[taskId], now, s.maxAttempts)
  {
  }
}
