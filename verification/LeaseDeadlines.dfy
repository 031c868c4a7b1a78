/**
 Acceptance and deadlines: a renewal or report is accepted exactly under a lease in force, so nothing is
 accepted once a deadline passed, whether or not any operation has noticed.
 */
module LeaseDeadlines {
  import opened LeaseModel
  import opened LeaseHistory
  import opened LeaseInvariants
  import opened LeaseRuns
  import opened LeaseSettling
  import opened LeaseTheorems

  /** Renew and Complete accept the holder's calls before the deadline, and no others. */
  lemma AcceptedWhileHeld(s: State, taskId: string, leaseId: string, workerId: string, result: Result, now: int)
    requires Linked(s)
    ensures Renew(s, taskId, leaseId, workerId, now).1.LeaseRenewed? <==> HeldAt(s, taskId, leaseId, workerId, now)
    ensures Complete(s, taskId, leaseId, workerId, result, now).1.Accepted? <==> HeldAt(s, taskId, leaseId, workerId, now)
  {
    if taskId in s.tasks && s.tasks[taskId].lease.Some? {
      var deadline := s.tasks[taskId].lease.value.expiresAt;
      assert LeaseError(s, taskId, leaseId, workerId).None? ==> HeldUntil(s, taskId, leaseId, workerId, deadline);
    }
  }

  // ---- deadlines that nothing moves ----

  /** If the task holds the lease named, its deadline is at most `latest`. */
  predicate NotExtended(s: State, id: string, leaseId: string, latest: int) {
    id in s.tasks && s.tasks[id].lease.Some? && s.tasks[id].lease.value.id == leaseId ==>
      s.tasks[id].lease.value.expiresAt <= latest
  }

  lemma LateIsRefused(s: State, id: string, leaseId: string, workerId: string, result: Result, latest: int, now: int)
    requires Linked(s) && NotExtended(s, id, leaseId, latest) && latest <= now
    ensures Renew(s, id, leaseId, workerId, now).1.RenewRefused?
    ensures Complete(s, id, leaseId, workerId, result, now).1.CompleteRefused?
  {
    AcceptedWhileHeld(s, id, leaseId, workerId, result, now);
  }

  lemma SettleExtendsNothing(s: State, id: string, leaseId: string, latest: int, now: int)
    requires Inv(s) && NotExtended(s, id, leaseId, latest)
    ensures NotExtended(Settle(s, now), id, leaseId, latest)
  {
    SettleOverRecord(s, s.order, now, id);
  }

  lemma NotExtendedKept(s: State, op: Op, id: string, leaseId: string, latest: int)
    requires Inv(s) && NotExtended(s, id, leaseId, latest)
    requires op.ClaimOp? ==> op.leaseId != leaseId
    requires op.RenewOp? && op.taskId == id && op.leaseId == leaseId ==> latest <= op.now
    ensures NotExtended(Apply(s, op), id, leaseId, latest)
  {
    hide Inv;
    match op
    case EnqueueOp(_) =>
    case ClaimOp(_, now, _) => SettleExtendsNothing(s, id, leaseId, latest, now);
    case SettleOp(now) => SettleExtendsNothing(s, id, leaseId, latest, now);
    case RenewOp(_, _, _, _) =>
    case CompleteOp(_, _, _, _, _) =>
  }

  /** No later claim draws the lease's ID, and every renewal of it comes at `latest` or after. */
  predicate LeavesDeadline(ops: seq<Op>, id: string, leaseId: string, latest: int) {
    forall i :: 0 <= i < |ops| ==>
      && (ops[i].ClaimOp? ==> ops[i].leaseId != leaseId)
      && (ops[i].RenewOp? && ops[i].taskId == id && ops[i].leaseId == leaseId ==> latest <= ops[i].now)
  }

  lemma {:induction false} DeadlineStays(s: State, ops: seq<Op>, id: string, leaseId: string, latest: int)
    requires Inv(s) && NotExtended(s, id, leaseId, latest) && LeavesDeadline(ops, id, leaseId, latest)
    ensures NotExtended(Run(s, ops), id, leaseId, latest)
    decreases |ops|
  {
    hide Inv, NotExtended, Apply;
    if ops == [] {
    } else {
      NotExtendedKept(s, ops[0], id, leaseId, latest);
      ApplyFollows(s, ops[0]);
      DeadlineStays(Apply(s, ops[0]), ops[1..], id, leaseId, latest);
    }
  }

  // ---- whole runs ----

  /** Every lease ID in the log was drawn by some claim of the run. */
  lemma {:induction false} RunGrantsWhatItDraws(s: State, ops: seq<Op>, leaseId: string)
    requires Linked(s) && FreshLeaseIds(s.log) && Unused(s, ops) && GeneratorFresh(ops)
    requires GrantedIn(Run(s, ops).log, leaseId)
    ensures GrantedIn(s.log, leaseId) || exists i :: 0 <= i < |ops| && ops[i].ClaimOp? && ops[i].leaseId == leaseId
    decreases |ops|
  {
    if ops == [] {
    } else {
      ApplyLinked(s, ops[0]);
      ApplyGrantsAtMostItsOwn(s, ops[0]);
      RunGrantsWhatItDraws(Apply(s, ops[0]), ops[1..], leaseId);
      if i :| 0 <= i < |ops[1..]| && ops[1..][i].ClaimOp? && ops[1..][i].leaseId == leaseId {
        assert ops[i + 1] == ops[1..][i];
      }
    }
  }

  lemma NotDrawnAgain(ops: seq<Op>, later: seq<Op>, leaseId: string, i: nat)
    requires GeneratorFresh(ops + later) && i < |later| && later[i].ClaimOp?
    requires exists k :: 0 <= k < |ops| && ops[k].ClaimOp? && ops[k].leaseId == leaseId
    ensures later[i].leaseId != leaseId
  {
    var k :| 0 <= k < |ops| && ops[k].ClaimOp? && ops[k].leaseId == leaseId;
    assert (ops + later)[k] == ops[k] && (ops + later)[|ops| + i] == later[i];
  }

  lemma OnlyHolder(s: State, id: string, taskId: string, leaseId: string, workerId: string, deadline: int)
    requires Inv(s) && FreshLeaseIds(s.log) && HeldUntil(s, id, leaseId, workerId, deadline)
    ensures NotExtended(s, taskId, leaseId, deadline)
    ensures GrantedIn(s.log, leaseId)
  {
  }

  /** A lease whose last renewed deadline has passed is as dead as one whose end is on record, even if no
      operation has noticed: from then on every renewal or report under its ID is refused. */
  lemma ExpiredLeaseIsDead(duration: int, maxAttempts: int, ops: seq<Op>, later: seq<Op>,
                           id: string, leaseId: string, holder: string, deadline: int,
                           taskId: string, workerId: string, result: Result, now: int)
    requires 0 < duration && 0 < maxAttempts && GeneratorFresh(ops + later)
    requires HeldUntil(Reached(duration, maxAttempts, ops), id, leaseId, holder, deadline)
    requires forall i :: 0 <= i < |later| && !later[i].EnqueueOp? ==> deadline <= later[i].now
    requires deadline <= now
    ensures var s := Reached(duration, maxAttempts, ops + later);
      && Renew(s, taskId, leaseId, workerId, now).1.RenewRefused?
      && Complete(s, taskId, leaseId, workerId, result, now).1.CompleteRefused?
  {
    hide Inv;
    var start, s := Init(duration, maxAttempts), Reached(duration, maxAttempts, ops);
    ReachedInv(duration, maxAttempts, ops);
    assert GeneratorFresh(ops) by {
      assert forall i :: 0 <= i < |ops| ==> (ops + later)[i] == ops[i];
    }
    RunFresh(start, ops);
    OnlyHolder(s, id, taskId, leaseId, holder, deadline);
    RunGrantsWhatItDraws(start, ops, leaseId);
    forall i | 0 <= i < |later| && later[i].ClaimOp?
      ensures later[i].leaseId != leaseId
    {
      NotDrawnAgain(ops, later, leaseId, i);
    }
    DeadlineStays(s, later, taskId, leaseId, deadline);
    RunConcat(start, ops, later);
    LateIsRefused(Run(s, later), taskId, leaseId, workerId, result, deadline, now);
  }
}
