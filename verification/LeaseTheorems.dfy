/**
 What holds of the lease queue after any run: exclusion of leases, death of ended
 leases, FIFO order, where terminal records come from, and a bound on all work.
 */
module LeaseTheorems {
  import opened Options
  import opened LeaseModel
  import opened LeaseHistory
  import opened LeaseInvariants
  import opened LeaseRuns

  // ---- a forward clock gives a chronological log ----

  ghost predicate Clocked(s: State, now: int) {
    Chronological(s.log) && NoLaterThan(s.log, now)
  }

  lemma DoClocked(s: State, e: Event, now: int)
    requires Linked(s) && Legal(s, e) && Clocked(s, now)
    requires Timed(e) ==> At(e) == now
    ensures Clocked(Do(s, e), now)
  {
    var log' := s.log + [e];
    assert forall i :: 0 <= i < |s.log| ==> log'[i] == s.log[i];
  }

  lemma {:induction false} SettleOverClocked(s: State, ids: seq<string>, now: int)
    requires Linked(s) && Clocked(s, now)
    ensures Clocked(SettleOver(s, ids, now), now)
    decreases |ids|
  {
    if ids == [] {
    } else {
      if ids[0] in s.tasks && Due(s.tasks[ids[0]], now) {
        DoClocked(s, Expired(s.tasks[ids[0]].lease.value, now), now);
      }
      SettleOverClocked(SettleOne(s, ids[0], now), ids[1..], now);
    }
  }

  lemma ApplyClocked(s: State, op: Op, now: int)
    requires Inv(s) && Clocked(s, now) && (!op.EnqueueOp? ==> op.now == now)
    ensures Clocked(Apply(s, op), now)
  {
    match op
    case EnqueueOp(spec) =>
      if Legal(s, Added(spec)) {
        DoClocked(s, Added(spec), now);
      }
    case ClaimOp(workerId, _, leaseId) =>
      SettleOverClocked(s, s.order, now);
      var settled := Settle(s, now);
      var ready := settled.(queued := SkipStale(settled.queued, settled.tasks));
      if workerId != "" && ready.queued != [] {
        DoClocked(ready, Granted(NewLease(ready, ready.queued[0], workerId, now, leaseId)), now);
      }
    case RenewOp(taskId, leaseId, workerId, _) =>
      CheckLeaseClocked(s, taskId, leaseId, workerId, now);
      if CheckLease(s, taskId, leaseId, workerId, now).1.None? {
        DoClocked(s, Renewed(s.tasks[taskId].lease.value, now), now);
      }
    case CompleteOp(taskId, leaseId, workerId, result, _) =>
      CheckLeaseClocked(s, taskId, leaseId, workerId, now);
      if CheckLease(s, taskId, leaseId, workerId, now).1.None? {
        DoClocked(s, Resolved(s.tasks[taskId].lease.value, now, result), now);
      }
    case SettleOp(_) =>
      SettleOverClocked(s, s.order, now);
  }

  lemma CheckLeaseClocked(s: State, taskId: string, leaseId: string, workerId: string, now: int)
    requires Linked(s) && Clocked(s, now)
    ensures Clocked(CheckLease(s, taskId, leaseId, workerId, now).0, now)
  {
    if LeaseError(s, taskId, leaseId, workerId).None? && Due(s.tasks[taskId], now) {
      DoClocked(s, Expired(s.tasks[taskId].lease.value, now), now);
    }
  }

  lemma {:induction false} RunChronological(s: State, ops: seq<Op>, start: int)
    requires Inv(s) && Clocked(s, start) && ClockForward(ops)
    requires forall i :: 0 <= i < |ops| && !ops[i].EnqueueOp? ==> start <= ops[i].now
    ensures Chronological(Run(s, ops).log)
    decreases |ops|
  {
    hide Inv;
    if ops == [] {
    } else {
      var now := if ops[0].EnqueueOp? then start else ops[0].now;
      ApplyClocked(s, ops[0], now);
      ApplyFollows(s, ops[0]);
      RunChronological(Apply(s, ops[0]), ops[1..], now);
    }
  }

  lemma ReachedChronological(duration: int, maxAttempts: int, ops: seq<Op>)
    requires 0 < duration && 0 < maxAttempts && ClockForward(ops)
    ensures Chronological(Reached(duration, maxAttempts, ops).log)
  {
    hide Inv;
    InvInit(duration, maxAttempts);
    var i := FirstTimed(ops);
    RunChronological(Init(duration, maxAttempts), ops, if i < |ops| then ops[i].now else 0);
  }

  function FirstTimed(ops: seq<Op>): (i: nat)
    ensures i <= |ops| && (i < |ops| ==> !ops[i].EnqueueOp?)
    ensures forall j :: 0 <= j < i ==> ops[j].EnqueueOp?
  {
    if ops == [] || !ops[0].EnqueueOp? then 0 else FirstTimed(ops[1..]) + 1
  }

  // ---- a fresh generator gives distinct lease IDs in the log ----

  ghost predicate Unused(s: State, ops: seq<Op>) {
    forall i :: 0 <= i < |ops| && ops[i].ClaimOp? ==> !GrantedIn(s.log, ops[i].leaseId)
  }

  lemma {:induction false} SettleOverGrantsNothing(s: State, ids: seq<string>, now: int)
    requires Linked(s)
    ensures FreshLeaseIds(s.log) ==> FreshLeaseIds(SettleOver(s, ids, now).log)
    ensures forall x :: GrantedIn(SettleOver(s, ids, now).log, x) ==> GrantedIn(s.log, x)
    decreases |ids|
  {
    if ids == [] {
    } else {
      if ids[0] in s.tasks && Due(s.tasks[ids[0]], now) {
        AppendIds(s.log, Expired(s.tasks[ids[0]].lease.value, now));
      }
      SettleOverGrantsNothing(SettleOne(s, ids[0], now), ids[1..], now);
    }
  }

  lemma ApplyGrantsAtMostItsOwn(s: State, op: Op)
    requires Linked(s) && FreshLeaseIds(s.log)
    requires op.ClaimOp? ==> !GrantedIn(s.log, op.leaseId)
    ensures FreshLeaseIds(Apply(s, op).log)
    ensures forall x :: GrantedIn(Apply(s, op).log, x) ==> GrantedIn(s.log, x) || (op.ClaimOp? && x == op.leaseId)
  {
    match op
    case EnqueueOp(spec) =>
      AppendIds(s.log, Added(spec));
    case ClaimOp(workerId, now, leaseId) =>
      SettleOverGrantsNothing(s, s.order, now);
      var settled := Settle(s, now);
      var ready := settled.(queued := SkipStale(settled.queued, settled.tasks));
      if workerId != "" && ready.queued != [] {
        AppendIds(settled.log, Granted(NewLease(ready, ready.queued[0], workerId, now, leaseId)));
      }
    case RenewOp(taskId, leaseId, workerId, now) =>
      if taskId in s.tasks && s.tasks[taskId].lease.Some? {
        AppendIds(s.log, Renewed(s.tasks[taskId].lease.value, now));
        AppendIds(s.log, Expired(s.tasks[taskId].lease.value, now));
      }
    case CompleteOp(taskId, leaseId, workerId, result, now) =>
      if taskId in s.tasks && s.tasks[taskId].lease.Some? {
        AppendIds(s.log, Resolved(s.tasks[taskId].lease.value, now, result));
        AppendIds(s.log, Expired(s.tasks[taskId].lease.value, now));
      }
    case SettleOp(now) =>
      SettleOverGrantsNothing(s, s.order, now);
  }

  lemma {:induction false} RunFresh(s: State, ops: seq<Op>)
    requires Linked(s) && FreshLeaseIds(s.log) && Unused(s, ops) && GeneratorFresh(ops)
    ensures FreshLeaseIds(Run(s, ops).log)
    decreases |ops|
  {
    if ops == [] {
    } else {
      ApplyLinked(s, ops[0]);
      ApplyGrantsAtMostItsOwn(s, ops[0]);
      RunFresh(Apply(s, ops[0]), ops[1..]);
    }
  }

  // ---- exclusion ----

  /** The k-th lease of task `id` is in force at `time`: issued, and neither resolved nor run out. */
  predicate InForce(log: seq<Event>, id: string, k: nat, time: int) {
    && k < |Grants(log, id)|
    && Grants(log, id)[k].issuedAt <= time
    && (k < |Endings(log, id)| ==> time < ValidUntil(Endings(log, id)[k]))
  }

  /** The leases of a task carry attempts 1, 2, 3, ...; all but possibly the last have ended, each one
      before the next was issued: by its holder's report, or by its last renewed expiry passing. */
  lemma LeaseSuccession(duration: int, maxAttempts: int, ops: seq<Op>, id: string)
    requires 0 < duration && 0 < maxAttempts && ClockForward(ops)
    ensures var log := Reached(duration, maxAttempts, ops).log;
            var grants, ends := Grants(log, id), Endings(log, id);
      && |ends| <= |grants| <= |ends| + 1
      && (forall k :: 0 <= k < |grants| ==> grants[k].attempt == k + 1)
      && (forall k :: 0 <= k < |ends| ==> SameLease(grants[k], ends[k].lease))
      && Disjoint(grants, ends)
  {
    var s := Reached(duration, maxAttempts, ops);
    ReachedInv(duration, maxAttempts, ops);
    ReachedChronological(duration, maxAttempts, ops);
    assert StoryOf(s, id) && TimingOf(s, id);
  }

  /** At no instant are two leases of one task in force. */
  lemma OneLeaseAtATime(duration: int, maxAttempts: int, ops: seq<Op>, id: string, j: nat, k: nat, time: int)
    requires 0 < duration && 0 < maxAttempts && ClockForward(ops)
    requires InForce(Reached(duration, maxAttempts, ops).log, id, j, time)
    requires InForce(Reached(duration, maxAttempts, ops).log, id, k, time)
    ensures j == k
  {
    LeaseSuccession(duration, maxAttempts, ops, id);
  }

  lemma EndedMeansRefused(s: State, leaseId: string, taskId: string, workerId: string)
    requires Inv(s) && FreshLeaseIds(s.log) && EndedIn(s.log, leaseId)
    ensures LeaseError(s, taskId, leaseId, workerId).Some?
  {
  }

  lemma EndedStaysEnded(log: seq<Event>, later: seq<Event>, leaseId: string)
    requires log <= later && EndedIn(log, leaseId)
    ensures EndedIn(later, leaseId)
  {
    var i :| 0 <= i < |log| && Ends(log[i]) && log[i].lease.id == leaseId;
    assert later[i] == log[i];
  }

  /** Once a lease ended, every later renewal or report under its ID is refused and changes nothing. */
  lemma EndedLeaseIsDead(duration: int, maxAttempts: int, ops: seq<Op>, later: seq<Op>,
                         taskId: string, leaseId: string, workerId: string, result: Result, now: int)
    requires 0 < duration && 0 < maxAttempts && GeneratorFresh(ops + later)
    requires EndedIn(Reached(duration, maxAttempts, ops).log, leaseId)
    ensures var s := Reached(duration, maxAttempts, ops + later);
      && Renew(s, taskId, leaseId, workerId, now).1.RenewRefused?
      && Renew(s, taskId, leaseId, workerId, now).0 == s
      && Complete(s, taskId, leaseId, workerId, result, now).1.CompleteRefused?
      && Complete(s, taskId, leaseId, workerId, result, now).0 == s
  {
    hide Inv;
    var s := Reached(duration, maxAttempts, ops);
    var s' := Reached(duration, maxAttempts, ops + later);
    ReachedInv(duration, maxAttempts, ops);
    ReachedInv(duration, maxAttempts, ops + later);
    RunConcat(Init(duration, maxAttempts), ops, later);
    RunFollows(s, later);
    EndedStaysEnded(s.log, s'.log, leaseId);
    RunFresh(Init(duration, maxAttempts), ops + later);
    EndedMeansRefused(s', leaseId, taskId, workerId);
  }

  // ---- FIFO ----

  /** Claims happen exactly in the order in which IDs entered the queue: nothing is skipped, dropped,
      or overtaken, and what was not claimed yet is what waits. */
  lemma ClaimsFollowEntries(duration: int, maxAttempts: int, ops: seq<Op>)
    requires 0 < duration && 0 < maxAttempts
    ensures var s := Reached(duration, maxAttempts, ops);
      && Entries(s.log, maxAttempts) == Claims(s.log) + s.queued
      && SkipStale(s.queued, s.tasks) == s.queued
  {
    ReachedInv(duration, maxAttempts, ops);
    NothingIsSkipped(Reached(duration, maxAttempts, ops));
  }

  /** A claim takes the oldest entry not claimed so far, counting the requeues it caused itself;
      it finds no work only when every entry has been claimed. */
  lemma ClaimTakesOldestEntry(s: State, workerId: string, now: int, leaseId: string)
    requires Inv(s) && workerId != ""
    ensures var reply := Claim(s, workerId, now, leaseId).1;
            var entries := Entries(Settle(s, now).log, s.maxAttempts);
      && (reply.Assigned? <==> |Claims(s.log)| < |entries|)
      && (reply.NoWork? <==> |Claims(s.log)| == |entries|)
      && (reply.Assigned? ==> reply.lease.taskId == entries[|Claims(s.log)|] && reply.lease.workerId == workerId)
  {
    var settled := Settle(s, now);
    SettleOverFollows(s, s.order, now);
    SettleOverClaimsNothing(s, s.order, now);
    NothingIsSkipped(settled);
  }

  lemma {:induction false} SettleOverClaimsNothing(s: State, ids: seq<string>, now: int)
    requires Linked(s)
    ensures Claims(SettleOver(s, ids, now).log) == Claims(s.log)
    decreases |ids|
  {
    if ids == [] {
    } else {
      if ids[0] in s.tasks && Due(s.tasks[ids[0]], now) {
        Append(s.log, Expired(s.tasks[ids[0]].lease.value, now), s.maxAttempts);
      }
      SettleOverClaimsNothing(SettleOne(s, ids[0], now), ids[1..], now);
    }
  }

  // ---- where terminal records come from ----

  /** A task is completed exactly when one accepted report without error ended one of its leases; that
      was its last lease, the one numbered `attempts`, and record and worker are that report's. */
  lemma CompletedByItsLastHolder(duration: int, maxAttempts: int, ops: seq<Op>, id: string)
    requires 0 < duration && 0 < maxAttempts && id in Reached(duration, maxAttempts, ops).tasks
    ensures var s := Reached(duration, maxAttempts, ops);
            var t, ends := s.tasks[id], Endings(s.log, id);
      && (t.state.Completed? <==> exists k :: 0 <= k < |ends| && Succeeded(ends[k]))
      && (forall k :: 0 <= k < |ends| && Succeeded(ends[k]) ==>
            && k == |ends| - 1
            && ends[k].lease.attempt == t.attempts == |ends|
            && t.workerId == ends[k].lease.workerId
            && t.result == ends[k].report)
  {
    StoryReached(duration, maxAttempts, ops, id);
    var ends := Endings(Reached(duration, maxAttempts, ops).log, id);
    assert ends != [] && Succeeded(ends[|ends| - 1]) ==> exists k :: 0 <= k < |ends| && Succeeded(ends[k]);
  }

  lemma StoryReached(duration: int, maxAttempts: int, ops: seq<Op>, id: string)
    requires 0 < duration && 0 < maxAttempts && id in Reached(duration, maxAttempts, ops).tasks
    ensures var s := Reached(duration, maxAttempts, ops);
      && TaskStory(s.tasks[id], Grants(s.log, id), Endings(s.log, id), maxAttempts)
      && TaskOk(s.tasks[id], id, maxAttempts)
  {
    hide Inv;
    ReachedInv(duration, maxAttempts, ops);
    InvTask(Reached(duration, maxAttempts, ops), id);
  }

  /** A task has failed exactly when `maxAttempts` leases ended, none of them by a report without error. */
  lemma FailedAfterEveryAttempt(duration: int, maxAttempts: int, ops: seq<Op>, id: string)
    requires 0 < duration && 0 < maxAttempts && id in Reached(duration, maxAttempts, ops).tasks
    ensures var s := Reached(duration, maxAttempts, ops);
            var t, ends := s.tasks[id], Endings(s.log, id);
      && (t.state.Failed? <==> |ends| == maxAttempts && forall k :: 0 <= k < |ends| ==> !Succeeded(ends[k]))
      && (t.state.Failed? ==>
            t.result == Some(ReportOf(ends[|ends| - 1]))
            && t.result.value.error != "")
  {
    StoryReached(duration, maxAttempts, ops, id);
    var s := Reached(duration, maxAttempts, ops);
    var t, ends := s.tasks[id], Endings(s.log, id);
    if t.state.Completed? {
      assert Succeeded(ends[|ends| - 1]);
    }
  }

  /** Terminal records never change again. */
  lemma TerminalForever(duration: int, maxAttempts: int, ops: seq<Op>, later: seq<Op>, id: string)
    requires 0 < duration && 0 < maxAttempts
    requires id in Reached(duration, maxAttempts, ops).tasks && Terminal(Reached(duration, maxAttempts, ops).tasks[id])
    ensures id in Reached(duration, maxAttempts, ops + later).tasks
    ensures Reached(duration, maxAttempts, ops + later).tasks[id] == Reached(duration, maxAttempts, ops).tasks[id]
  {
    var s := Reached(duration, maxAttempts, ops);
    ReachedInv(duration, maxAttempts, ops);
    RunConcat(Init(duration, maxAttempts), ops, later);
    RunFollows(s, later);
    assert TaskFollows(s.tasks[id], Run(s, later).tasks[id]);
  }
}
