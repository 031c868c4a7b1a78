/**
 Readings of a queue's event log: the leases a task was given, how each of them
 ended, the IDs that entered the FIFO queue and the IDs that were claimed.
 */
module LeaseHistory {
  import opened Options
  import opened LeaseModel

  /** The end of a lease: a report accepted at time `at`, or an expiry noticed at time `at`. */
  datatype Ending = Ending(lease: Lease, at: int, report: Option<Result>)

  /** The lease was valid from its issue until just before this time. */
  function ValidUntil(e: Ending): int {
    if e.report.Some? then e.at else e.lease.expiresAt
  }

  /** What is recorded of the ending: the holder's report, or that the lease ran out. */
  function ReportOf(e: Ending): Result {
    if e.report.Some? then e.report.value else EXPIRY_RESULT
  }

  predicate Succeeded(e: Ending) {
    e.report.Some? && e.report.value.error == ""
  }

  /** Two records of one lease; renewals move only its expiry. */
  predicate SameLease(a: Lease, b: Lease) {
    a == b.(expiresAt := a.expiresAt)
  }

  // ---- per-task readings ----

  function GrantOf(e: Event, id: string): seq<Lease> {
    if e.Granted? && e.lease.taskId == id then [e.lease] else []
  }

  /** The leases given to task `id`, oldest first. */
  function Grants(log: seq<Event>, id: string): seq<Lease> {
    if log == [] then [] else Grants(log[..|log| - 1], id) + GrantOf(log[|log| - 1], id)
  }

  predicate Ends(e: Event) {
    e.Resolved? || e.Expired?
  }

  function EndingBy(e: Event): Ending
    requires Ends(e)
  {
    Ending(e.lease, e.at, if e.Resolved? then Some(e.result) else None)
  }

  function EndingOf(e: Event, id: string): seq<Ending> {
    if Ends(e) && e.lease.taskId == id then [EndingBy(e)] else []
  }

  /** How the leases of task `id` ended, oldest first. */
  function Endings(log: seq<Event>, id: string): seq<Ending> {
    if log == [] then [] else Endings(log[..|log| - 1], id) + EndingOf(log[|log| - 1], id)
  }

  lemma {:induction false} EndingIsLogged(log: seq<Event>, id: string, k: nat)
    requires k < |Endings(log, id)|
    ensures exists i :: 0 <= i < |log| && Ends(log[i]) && log[i].lease.taskId == id && EndingBy(log[i]) == Endings(log, id)[k]
  {
    if log == [] {
    } else {
      var init, last := log[..|log| - 1], |log| - 1;
      if k < |Endings(init, id)| {
        EndingIsLogged(init, id, k);
        var i :| 0 <= i < |init| && Ends(init[i]) && init[i].lease.taskId == id && EndingBy(init[i]) == Endings(init, id)[k];
        assert log[i] == init[i];
      } else {
        assert EndingBy(log[last]) == Endings(log, id)[k];
      }
    }
  }

  // ---- the FIFO log ----

  predicate ReturnsToQueue(e: Event, maxAttempts: int) {
    match e
    case Resolved(l, _, r) => r.error != "" && l.attempt < maxAttempts
    case Expired(l, _) => l.attempt < maxAttempts
    case _ => false
  }

  function EntryOf(e: Event, maxAttempts: int): seq<string> {
    if e.Added? then [e.spec.id]
    else if ReturnsToQueue(e, maxAttempts) then [e.lease.taskId]
    else []
  }

  /** Every ID put at the back of the queue: first enqueues, failure requeues, expiry requeues. */
  function Entries(log: seq<Event>, maxAttempts: int): seq<string> {
    if log == [] then [] else Entries(log[..|log| - 1], maxAttempts) + EntryOf(log[|log| - 1], maxAttempts)
  }

  /** Every claimed ID, in claim order. */
  function Claims(log: seq<Event>): seq<string> {
    if log == [] then []
    else Claims(log[..|log| - 1]) + if log[|log| - 1].Granted? then [log[|log| - 1].lease.taskId] else []
  }

  /** How many claims, reports and expiries happened. */
  function Moves(log: seq<Event>): nat {
    if log == [] then 0
    else Moves(log[..|log| - 1]) + if log[|log| - 1].Granted? || Ends(log[|log| - 1]) then 1 else 0
  }

  /** What one more event adds to each reading. */
  lemma Append(log: seq<Event>, e: Event, maxAttempts: int)
    ensures Entries(log + [e], maxAttempts) == Entries(log, maxAttempts) + EntryOf(e, maxAttempts)
    ensures Claims(log + [e]) == Claims(log) + if e.Granted? then [e.lease.taskId] else []
    ensures Moves(log + [e]) == Moves(log) + if e.Granted? || Ends(e) then 1 else 0
  {
    assert (log + [e])[..|log|] == log;
  }

  lemma AppendTo(log: seq<Event>, e: Event, id: string)
    ensures Grants(log + [e], id)
         == if e.Granted? && e.lease.taskId == id then Grants(log, id) + [e.lease] else Grants(log, id)
    ensures Endings(log + [e], id)
         == if Ends(e) && e.lease.taskId == id then Endings(log, id) + [EndingBy(e)] else Endings(log, id)
  {
    assert (log + [e])[..|log|] == log;
  }

  // ---- time ----

  predicate Timed(e: Event) {
    !e.Added?
  }

  function At(e: Event): int
    requires Timed(e)
  {
    if e.Granted? then e.lease.issuedAt else e.at
  }

  /** The clock readings behind the events never went back. */
  ghost predicate Chronological(log: seq<Event>) {
    forall i, j :: 0 <= i < j < |log| && Timed(log[i]) && Timed(log[j]) ==> At(log[i]) <= At(log[j])
  }

  ghost predicate NoLaterThan(log: seq<Event>, time: int) {
    forall i :: 0 <= i < |log| && Timed(log[i]) ==> At(log[i]) <= time
  }

  lemma ChronologicalPrefix(log: seq<Event>, e: Event)
    requires Chronological(log + [e])
    ensures Chronological(log)
    ensures Timed(e) ==> NoLaterThan(log, At(e))
  {
    var all := log + [e];
    assert forall i :: 0 <= i < |log| ==> all[i] == log[i];
    assert all[|log|] == e;
  }

  lemma {:induction false} ReadingsAreNoLater(log: seq<Event>, id: string, time: int)
    requires NoLaterThan(log, time)
    ensures forall k :: 0 <= k < |Grants(log, id)| ==> Grants(log, id)[k].issuedAt <= time
    ensures forall k :: 0 <= k < |Endings(log, id)| ==> Endings(log, id)[k].at <= time
  {
    if log == [] {
    } else {
      var init := log[..|log| - 1];
      assert NoLaterThan(init, time);
      ReadingsAreNoLater(init, id, time);
    }
  }

  // ---- lease identifiers ----

  /** The generator never repeated a lease ID. */
  ghost predicate FreshLeaseIds(log: seq<Event>) {
    forall i, j :: 0 <= i < j < |log| && log[i].Granted? && log[j].Granted? ==> log[i].lease.id != log[j].lease.id
  }

  ghost predicate GrantedIn(log: seq<Event>, leaseId: string) {
    exists i :: 0 <= i < |log| && log[i].Granted? && log[i].lease.id == leaseId
  }

  ghost predicate EndedIn(log: seq<Event>, leaseId: string) {
    exists i :: 0 <= i < |log| && Ends(log[i]) && log[i].lease.id == leaseId
  }

  /** No lease ended twice. */
  ghost predicate EndedOnce(log: seq<Event>) {
    forall i, j :: 0 <= i < j < |log| && Ends(log[i]) && Ends(log[j]) ==> log[i].lease.id != log[j].lease.id
  }

  lemma AppendIds(log: seq<Event>, e: Event)
    ensures forall x :: GrantedIn(log + [e], x) <==> GrantedIn(log, x) || (e.Granted? && e.lease.id == x)
    ensures forall x :: EndedIn(log + [e], x) <==> EndedIn(log, x) || (Ends(e) && e.lease.id == x)
    ensures FreshLeaseIds(log + [e]) <==>
              FreshLeaseIds(log) && (e.Granted? ==> !GrantedIn(log, e.lease.id))
    ensures EndedOnce(log + [e]) <==> EndedOnce(log) && (Ends(e) ==> !EndedIn(log, e.lease.id))
  {
    var all := log + [e];
    assert all[|log|] == e;
    assert forall i :: 0 <= i < |log| ==> all[i] == log[i];
    forall x
      ensures GrantedIn(all, x) <==> GrantedIn(log, x) || (e.Granted? && e.lease.id == x)
      ensures EndedIn(all, x) <==> EndedIn(log, x) || (Ends(e) && e.lease.id == x)
    {
      if GrantedIn(log, x) {
        var i :| 0 <= i < |log| && log[i].Granted? && log[i].lease.id == x;
        assert all[i].Granted?;
      }
      if EndedIn(log, x) {
        var i :| 0 <= i < |log| && Ends(log[i]) && log[i].lease.id == x;
        assert Ends(all[i]);
      }
    }
  }
}
