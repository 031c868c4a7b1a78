/**
 Queues with one task, for concrete runs.
 */
module LeaseExamples {
  import opened Options
  import opened LeaseModel

  /** The queue holds task "t" only; leases last 10, and there are two attempts. */
  predicate Alone(s: State, t: Task) {
    && s.order == ["t"] && s.tasks == map["t" := t] && s.queued == (if t.state.Queued? then ["t"] else [])
    && s.duration == 10 && s.maxAttempts == 2
  }

  function Granting(t: Task, workerId: string, now: int, leaseId: string): Task {
    t.(state := Leased, attempts := t.attempts + 1, workerId := workerId,
       lease := Some(Lease(leaseId, "t", workerId, now, now + 10, t.attempts + 1)))
  }

  lemma AloneAssigned(s: State, t: Task, workerId: string, now: int, leaseId: string)
    requires Alone(s, t) && t.state.Queued? && workerId != ""
    ensures Linked(s) && Alone(Assignment(s, workerId, now, leaseId).0, Granting(t, workerId, now, leaseId))
  {
  }

  lemma AloneEnqueued(spec: TaskSpec)
    requires spec.id == "t"
    ensures Linked(Init(10, 2)) && Linked(Enqueue(Init(10, 2), spec).0)
    ensures Alone(Enqueue(Init(10, 2), spec).0, NewTask(spec)) && NewTask(spec).state.Queued?
  {
  }

  lemma AloneClaimed(s: State, t: Task, workerId: string, now: int, leaseId: string)
    requires Alone(s, t) && Linked(s) && t.state.Queued? && workerId != ""
    ensures Linked(Claim(s, workerId, now, leaseId).0)
    ensures Alone(Claim(s, workerId, now, leaseId).0, Granting(t, workerId, now, leaseId))
  {
    hide Settle, Assignment;
    AloneLapsed(s, t, now);
    AloneAssigned(s, t, workerId, now, leaseId);
  }

  lemma AloneLapsed(s: State, t: Task, now: int)
    requires Alone(s, t) && Linked(s)
    ensures t.state.Queued? ==> Settle(s, now) == s
    ensures Due(t, now) && t.attempts < 2 ==> Alone(Settle(s, now), Lapse(t, 2))
  {
    assert SettleOver(s, ["t"], now) == SettleOver(SettleOne(s, "t", now), [], now);
  }

  lemma AloneReported(s: State, t: Task, r: Result)
    requires Alone(s, t) && Linked(s) && t.state.Leased? && t.lease.Some?
    requires t.lease.value.id == "a" && t.lease.value.workerId == "w" && 1 < t.lease.value.expiresAt
    ensures Alone(Complete(s, "t", "a", "w", r, 1).0, Report(t, r, 2))
  {
  }
}
