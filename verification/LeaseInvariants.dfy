/**
 What every legal change of the queue keeps, and so what holds after every run.
 */
module LeaseInvariants {
  import opened Options
  import opened LeaseModel
  import opened LeaseHistory

  ghost predicate NoDuplicates(s: seq<string>) {
    forall i, j :: 0 <= i < j < |s| ==> s[i] != s[j]
  }

  predicate TaskOk(t: Task, id: string, maxAttempts: int) {
    && t.spec.id == id && id != ""
    && (t.lease.Some? <==> t.state.Leased?)
    && (t.lease.Some? ==> t.lease.value.taskId == id && t.lease.value.workerId == t.workerId
                          && t.lease.value.attempt == t.attempts)
    && (t.result.Some? <==> Terminal(t))
    && 0 <= t.attempts <= maxAttempts
    && (t.state.Queued? ==> t.attempts < maxAttempts)
    && (!t.state.Queued? ==> 1 <= t.attempts && t.workerId != "")
    && (t.state.Completed? ==> t.result.value.error == "")
    && (t.state.Failed? ==> t.attempts == maxAttempts && t.result.value.error != "")
  }

  /** `order` lists every task once; `queued` lists every queued task once. */
  ghost predicate Lists(s: State) {
    && NoDuplicates(s.order) && NoDuplicates(s.queued)
    && (forall id :: id in s.order <==> id in s.tasks)
    && (forall id :: id in s.queued <==> id in s.tasks && s.tasks[id].state.Queued?)
  }

  /** Every record fits its state. */
  ghost predicate Records(s: State) {
    && 0 < s.duration && 0 < s.maxAttempts
    && (forall id :: id in s.tasks ==> TaskOk(s.tasks[id], id, s.maxAttempts))
  }

  ghost predicate Structure(s: State) {
    Lists(s) && Records(s)
  }

  /** Everything that ever entered the queue has been claimed, in that order, or still waits. */
  ghost predicate Fifo(s: State) {
    Entries(s.log, s.maxAttempts) == Claims(s.log) + s.queued
  }

  /** The task record is what its leases and their endings say. */
  ghost predicate TaskStory(t: Task, grants: seq<Lease>, ends: seq<Ending>, maxAttempts: int) {
    && |grants| == t.attempts
    && |ends| == t.attempts - (if t.state.Leased? then 1 else 0)
    && (forall k :: 0 <= k < |grants| ==> grants[k].attempt == k + 1 && grants[k].taskId == t.spec.id)
    && (forall k :: 0 <= k < |ends| ==> SameLease(grants[k], ends[k].lease))
    && (forall k :: 0 <= k < |ends| ==> (Succeeded(ends[k]) <==> t.state.Completed? && k == |ends| - 1))
    && (t.attempts > 0 ==> t.workerId == grants[|grants| - 1].workerId)
    && (t.state.Leased? ==> t.lease.Some? && SameLease(grants[|grants| - 1], t.lease.value))
    && (Terminal(t) ==>
          && ends != []
          && t.result == Some(ReportOf(ends[|ends| - 1])))
  }

  ghost predicate StoryOf(s: State, id: string) {
    if id in s.tasks
    then TaskStory(s.tasks[id], Grants(s.log, id), Endings(s.log, id), s.maxAttempts)
    else Grants(s.log, id) == [] && Endings(s.log, id) == []
  }

  ghost predicate Story(s: State) {
    forall id :: StoryOf(s, id)
  }

  /** Validity intervals of one task's leases do not overlap and come in attempt order. */
  ghost predicate Disjoint(grants: seq<Lease>, ends: seq<Ending>) {
    && |ends| <= |grants|
    && (forall k :: 0 <= k < |ends| ==> grants[k].issuedAt <= ValidUntil(ends[k]) <= ends[k].at)
    && (forall j, k :: 0 <= j < k < |grants| && j < |ends| ==> ValidUntil(ends[j]) <= grants[k].issuedAt)
  }

  ghost predicate TimingOf(s: State, id: string) {
    id in s.tasks ==>
      && Disjoint(Grants(s.log, id), Endings(s.log, id))
      && (s.tasks[id].lease.Some? ==>
            s.tasks[id].lease.value.issuedAt + s.duration <= s.tasks[id].lease.value.expiresAt)
  }

  ghost predicate Timing(s: State) {
    Chronological(s.log) ==> forall id :: TimingOf(s, id)
  }

  /** A lease ID is in force for one task only, and never again once that lease ended. */
  ghost predicate Identity(s: State) {
    && (forall x :: EndedIn(s.log, x) ==> GrantedIn(s.log, x))
    && (forall id :: id in s.tasks && s.tasks[id].lease.Some? ==> GrantedIn(s.log, s.tasks[id].lease.value.id))
    && (FreshLeaseIds(s.log) ==>
          && EndedOnce(s.log)
          && (forall id :: id in s.tasks && s.tasks[id].lease.Some? ==> !EndedIn(s.log, s.tasks[id].lease.value.id))
          && (forall id, id' | id in s.tasks && id' in s.tasks && id != id' ::
                s.tasks[id].lease.Some? && s.tasks[id'].lease.Some? ==>
                  s.tasks[id].lease.value.id != s.tasks[id'].lease.value.id))
  }

  /** Changes a task can still go through: two for each lease left, one for the lease it holds. */
  function Weight(t: Task, maxAttempts: int): int {
    if Terminal(t) then 0 else 2 * (maxAttempts - t.attempts) + if t.state.Leased? then 1 else 0
  }

  function SumWeights(ids: seq<string>, tasks: map<string, Task>, maxAttempts: int): int {
    if ids == [] then 0
    else (if ids[0] in tasks then Weight(tasks[ids[0]], maxAttempts) else 0) + SumWeights(ids[1..], tasks, maxAttempts)
  }

  function SumAttempts(ids: seq<string>, tasks: map<string, Task>): int {
    if ids == [] then 0
    else (if ids[0] in tasks then tasks[ids[0]].attempts else 0) + SumAttempts(ids[1..], tasks)
  }

  /** The measure that every claim, report and expiry lowers. */
  function Measure(s: State): int {
    SumWeights(s.order, s.tasks, s.maxAttempts)
  }

  /** The changes n tasks can go through. */
  function Allowance(n: nat, maxAttempts: int): int {
    2 * maxAttempts * n
  }

  predicate Budget(s: State) {
    && Measure(s) + Moves(s.log) <= Allowance(|s.order|, s.maxAttempts)
    && |Claims(s.log)| == SumAttempts(s.order, s.tasks)
  }

  ghost predicate Inv(s: State)
    ensures Inv(s) ==> Linked(s)
  {
    Structure(s) && Fifo(s) && Story(s) && Timing(s) && Identity(s) && Budget(s)
  }

  // ---- each part is kept by every legal change ----

  lemma PushFresh(ids: seq<string>, id: string)
    requires NoDuplicates(ids) && id !in ids
    ensures NoDuplicates(ids + [id])
    ensures forall x :: x in ids + [id] <==> x in ids || x == id
  {
  }

  lemma PopFirst(ids: seq<string>)
    requires NoDuplicates(ids) && ids != []
    ensures NoDuplicates(ids[1..])
    ensures forall x :: x in ids[1..] <==> x in ids && x != ids[0]
  {
    assert ids == [ids[0]] + ids[1..];
  }

  lemma ListsKept(s: State, e: Event)
    requires Lists(s) && Records(s) && Linked(s) && Legal(s, e)
    ensures Lists(Do(s, e))
  {
    if e.Added? {
      PushFresh(s.order, e.spec.id);
      PushFresh(s.queued, e.spec.id);
    } else if e.Granted? {
      PopFirst(s.queued);
    } else if !e.Renewed? {
      PushFresh(s.queued, e.lease.taskId);
    }
  }

  lemma RecordsKept(s: State, e: Event)
    requires Records(s) && Linked(s) && Legal(s, e)
    ensures Records(Do(s, e))
  {
    var id := if e.Added? then e.spec.id else e.lease.taskId;
    assert !e.Added? ==> TaskOk(s.tasks[id], id, s.maxAttempts);
    assert TaskOk(Do(s, e).tasks[id], id, s.maxAttempts);
  }

  /** The record a change concerns fits its state. */
  predicate TargetOk(s: State, e: Event) {
    e.Added? || (e.lease.taskId in s.tasks && TaskOk(s.tasks[e.lease.taskId], e.lease.taskId, s.maxAttempts))
  }

  lemma FifoKept(s: State, e: Event)
    requires TargetOk(s, e) && Fifo(s) && Linked(s) && Legal(s, e)
    ensures Fifo(Do(s, e))
  {
    Append(s.log, e, s.maxAttempts);
    var claimed := if e.Granted? then [e.lease.taskId] else [];
    var waiting := if e.Granted? then s.queued[1..] else s.queued;
    assert s.queued == claimed + waiting;
    assert Do(s, e).queued == waiting + EntryOf(e, s.maxAttempts);
    FourParts(Claims(s.log), claimed, waiting, EntryOf(e, s.maxAttempts));
  }

  lemma FourParts(a: seq<string>, b: seq<string>, c: seq<string>, d: seq<string>)
    ensures (a + (b + c)) + d == (a + b) + (c + d)
  {
  }

  lemma NewStory(spec: TaskSpec, maxAttempts: int)
    ensures TaskStory(NewTask(spec), [], [], maxAttempts)
  {
  }

  lemma GrantStory(t: Task, grants: seq<Lease>, ends: seq<Ending>, l: Lease, duration: int, maxAttempts: int)
    requires TaskStory(t, grants, ends, maxAttempts) && 0 <= t.attempts
    requires t.state.Queued? && l.attempt == t.attempts + 1 && l.taskId == t.spec.id
    ensures TaskStory(Change(t, Granted(l), duration, maxAttempts), grants + [l], ends, maxAttempts)
  {
  }

  lemma EndStory(t: Task, grants: seq<Lease>, ends: seq<Ending>, e: Event, duration: int, maxAttempts: int)
    requires TaskStory(t, grants, ends, maxAttempts) && 1 <= t.attempts
    requires Ends(e) && t.state.Leased? && t.lease == Some(e.lease)
    ensures TaskStory(Change(t, e, duration, maxAttempts), grants, ends + [EndingBy(e)], maxAttempts)
  {
  }

  lemma RenewStory(t: Task, grants: seq<Lease>, ends: seq<Ending>, e: Event, duration: int, maxAttempts: int)
    requires TaskStory(t, grants, ends, maxAttempts) && 1 <= t.attempts
    requires e.Renewed? && t.state.Leased? && t.lease == Some(e.lease)
    ensures TaskStory(Change(t, e, duration, maxAttempts), grants, ends, maxAttempts)
  {
  }

  lemma StoryKept(s: State, e: Event)
    requires TargetOk(s, e) && Story(s) && Linked(s) && Legal(s, e)
    ensures Story(Do(s, e))
  {
    forall id
      ensures StoryOf(Do(s, e), id)
    {
      StoryOfKept(s, e, id);
    }
  }

  /** A change leaves every other task, and every reading about it, alone. */
  lemma OthersUntouched(s: State, e: Event, id: string)
    requires Linked(s) && Legal(s, e) && id != Target(e)
    ensures id in Do(s, e).tasks <==> id in s.tasks
    ensures id in s.tasks ==> Do(s, e).tasks[id] == s.tasks[id]
    ensures Grants(Do(s, e).log, id) == Grants(s.log, id)
    ensures Endings(Do(s, e).log, id) == Endings(s.log, id)
  {
    AppendTo(s.log, e, id);
  }

  lemma StoryOfKept(s: State, e: Event, id: string)
    requires TargetOk(s, e) && StoryOf(s, id) && Linked(s) && Legal(s, e)
    ensures StoryOf(Do(s, e), id)
  {
    hide TaskStory;
    if id != Target(e) {
      OthersUntouched(s, e, id);
    } else if e.Added? {
      AppendTo(s.log, e, id);
      NewStory(e.spec, s.maxAttempts);
    } else {
      StoryOfTargetKept(s, e);
    }
  }

  lemma StoryOfTargetKept(s: State, e: Event)
    requires !e.Added? && TargetOk(s, e) && StoryOf(s, Target(e)) && Linked(s) && Legal(s, e)
    ensures StoryOf(Do(s, e), Target(e))
  {
    hide TaskStory;
    var id := Target(e);
    var t, grants, ends := s.tasks[id], Grants(s.log, id), Endings(s.log, id);
    AppendTo(s.log, e, id);
    if e.Granted? {
      GrantStory(t, grants, ends, e.lease, s.duration, s.maxAttempts);
    } else if Ends(e) {
      EndStory(t, grants, ends, e, s.duration, s.maxAttempts);
    } else {
      RenewStory(t, grants, ends, e, s.duration, s.maxAttempts);
    }
  }

  lemma TimingKept(s: State, e: Event)
    requires TargetOk(s, e) && Story(s) && Timing(s) && Linked(s) && Legal(s, e) && 0 < s.duration
    ensures Timing(Do(s, e))
  {
    if Chronological(Do(s, e).log) {
      ChronologicalPrefix(s.log, e);
      forall id
        ensures TimingOf(Do(s, e), id)
      {
        assert StoryOf(s, id) && TimingOf(s, id);
        TimingOfKept(s, e, id);
      }
    }
  }

  lemma GrantTiming(grants: seq<Lease>, ends: seq<Ending>, l: Lease)
    requires Disjoint(grants, ends) && |ends| == |grants|
    requires forall k :: 0 <= k < |ends| ==> ends[k].at <= l.issuedAt
    ensures Disjoint(grants + [l], ends)
  {
  }

  lemma EndTiming(grants: seq<Lease>, ends: seq<Ending>, last: Ending)
    requires Disjoint(grants, ends) && |ends| == |grants| - 1
    requires grants[|ends|].issuedAt <= ValidUntil(last) <= last.at
    ensures Disjoint(grants, ends + [last])
  {
  }

  lemma TimingOfKept(s: State, e: Event, id: string)
    requires TargetOk(s, e) && StoryOf(s, id) && TimingOf(s, id) && Linked(s) && Legal(s, e)
    requires 0 < s.duration && (Timed(e) ==> NoLaterThan(s.log, At(e)))
    ensures TimingOf(Do(s, e), id)
  {
    if id != Target(e) {
      OthersUntouched(s, e, id);
    } else {
      AppendTo(s.log, e, id);
      if !e.Added? {
        TimingOfTargetKept(s, e);
      }
    }
  }

  lemma TimingOfTargetKept(s: State, e: Event)
    requires !e.Added? && TargetOk(s, e) && StoryOf(s, Target(e)) && TimingOf(s, Target(e)) && Linked(s) && Legal(s, e)
    requires 0 < s.duration && NoLaterThan(s.log, At(e))
    ensures TimingOf(Do(s, e), Target(e))
  {
    var id := Target(e);
    AppendTo(s.log, e, id);
    ReadingsAreNoLater(s.log, id, At(e));
    if e.Granted? {
      GrantTiming(Grants(s.log, id), Endings(s.log, id), e.lease);
    } else {
      HolderTiming(s.tasks[id], Grants(s.log, id), Endings(s.log, id), e, s.duration, s.maxAttempts);
    }
  }

  lemma HolderTiming(t: Task, grants: seq<Lease>, ends: seq<Ending>, e: Event, duration: int, maxAttempts: int)
    requires TaskStory(t, grants, ends, maxAttempts) && Disjoint(grants, ends) && 0 < duration
    requires !e.Added? && t.state.Leased? && t.lease == Some(e.lease) && 1 <= t.attempts
    requires e.lease.issuedAt + duration <= e.lease.expiresAt
    requires e.Expired? ==> e.lease.expiresAt <= e.at
    requires forall k :: 0 <= k < |grants| ==> grants[k].issuedAt <= At(e)
    ensures e.lease.issuedAt <= At(e)
    ensures Ends(e) ==> Disjoint(grants, ends + [EndingBy(e)])
  {
    assert SameLease(grants[|grants| - 1], e.lease);
    if Ends(e) {
      EndTiming(grants, ends, EndingBy(e));
    }
  }

  lemma IdentityKept(s: State, e: Event)
    requires TargetOk(s, e) && Identity(s) && Linked(s) && Legal(s, e)
    ensures Identity(Do(s, e))
  {
    AppendIds(s.log, e);
  }

  lemma {:induction false} SumsUnchanged(ids: seq<string>, tasks: map<string, Task>, id: string, t: Task, maxAttempts: int)
    requires id !in ids
    ensures SumWeights(ids, tasks[id := t], maxAttempts) == SumWeights(ids, tasks, maxAttempts)
    ensures SumAttempts(ids, tasks[id := t]) == SumAttempts(ids, tasks)
  {
    if ids == [] {
    } else {
      SumsUnchanged(ids[1..], tasks, id, t, maxAttempts);
    }
  }

  lemma {:induction false} SumsUpdated(ids: seq<string>, tasks: map<string, Task>, id: string, t: Task, maxAttempts: int)
    requires NoDuplicates(ids) && id in ids && id in tasks
    ensures SumWeights(ids, tasks[id := t], maxAttempts)
         == SumWeights(ids, tasks, maxAttempts) - Weight(tasks[id], maxAttempts) + Weight(t, maxAttempts)
    ensures SumAttempts(ids, tasks[id := t]) == SumAttempts(ids, tasks) - tasks[id].attempts + t.attempts
  {
    if ids[0] == id {
      SumsUnchanged(ids[1..], tasks, id, t, maxAttempts);
    } else {
      SumsUpdated(ids[1..], tasks, id, t, maxAttempts);
    }
  }

  lemma {:induction false} SumsExtended(ids: seq<string>, id: string, tasks: map<string, Task>, maxAttempts: int)
    requires id in tasks
    ensures SumWeights(ids + [id], tasks, maxAttempts) == SumWeights(ids, tasks, maxAttempts) + Weight(tasks[id], maxAttempts)
    ensures SumAttempts(ids + [id], tasks) == SumAttempts(ids, tasks) + tasks[id].attempts
  {
    if ids == [] {
    } else {
      SumsExtended(ids[1..], id, tasks, maxAttempts);
      assert (ids + [id])[1..] == ids[1..] + [id];
    }
  }

  /** Claims, reports and expiries lower the measure; renewals leave it; an enqueue adds its task's share. */
  lemma MeasureStep(s: State, e: Event)
    requires Lists(s) && TargetOk(s, e) && Linked(s) && Legal(s, e)
    ensures e.Added? ==> Measure(Do(s, e)) == Measure(s) + 2 * s.maxAttempts
    ensures e.Renewed? ==> Measure(Do(s, e)) == Measure(s)
    ensures e.Granted? || Ends(e) ==> Measure(Do(s, e)) < Measure(s)
    ensures SumAttempts(Do(s, e).order, Do(s, e).tasks)
         == SumAttempts(s.order, s.tasks) + if e.Granted? then 1 else 0
  {
    var s' := Do(s, e);
    if e.Added? {
      SumsExtended(s.order, e.spec.id, s'.tasks, s.maxAttempts);
      SumsUnchanged(s.order, s.tasks, e.spec.id, s'.tasks[e.spec.id], s.maxAttempts);
    } else {
      var id := e.lease.taskId;
      SumsUpdated(s.order, s.tasks, id, s'.tasks[id], s.maxAttempts);
    }
  }

  lemma AllowanceStep(n: nat, maxAttempts: int)
    ensures Allowance(n + 1, maxAttempts) == Allowance(n, maxAttempts) + 2 * maxAttempts
  {
  }

  lemma BudgetKept(s: State, e: Event)
    requires Lists(s) && TargetOk(s, e) && Budget(s) && Linked(s) && Legal(s, e)
    ensures Budget(Do(s, e))
  {
    hide Allowance, Measure, Lists, TargetOk, Linked;
    Append(s.log, e, s.maxAttempts);
    MeasureStep(s, e);
    AllowanceStep(|s.order|, s.maxAttempts);
  }

  lemma InvKept(s: State, e: Event)
    requires Inv(s) && Legal(s, e)
    ensures Inv(Do(s, e))
  {
    ListsKept(s, e);
    RecordsKept(s, e);
    FifoKept(s, e);
    StoryKept(s, e);
    TimingKept(s, e);
    IdentityKept(s, e);
    BudgetKept(s, e);
  }

  lemma InvTask(s: State, id: string)
    requires Inv(s) && id in s.tasks
    ensures TaskOk(s.tasks[id], id, s.maxAttempts)
    ensures TaskStory(s.tasks[id], Grants(s.log, id), Endings(s.log, id), s.maxAttempts)
  {
    assert StoryOf(s, id);
  }

  lemma InvInit(duration: int, maxAttempts: int)
    requires 0 < duration && 0 < maxAttempts
    ensures Inv(Init(duration, maxAttempts))
  {
  }
}
