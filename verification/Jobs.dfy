/**
 Jobs over runs: which records belong to a job, and how the state told to clients moves.
 */
module Jobs {
  import opened LeaseExamples
  import opened LeaseModel
  import opened LeaseInvariants
  import opened LeaseRuns
  import opened LeaseSettling
  import opened LeaseQueue
  import opened Options
  import opened Views

  /** The IDs of a job's tasks, in enqueue order. */
  function JobIds(ids: seq<string>, tasks: map<string, Task>, jobId: string): seq<string> {
    if ids == [] then []
    else
      var rest := JobIds(ids[..|ids| - 1], tasks, jobId);
      var last := ids[|ids| - 1];
      if last in tasks && tasks[last].spec.jobId == jobId then rest + [last] else rest
  }

  lemma {:induction false} JobListingByIds(ids: seq<string>, tasks: map<string, Task>, jobId: string)
    ensures |JobListing(ids, tasks, jobId)| == |JobIds(ids, tasks, jobId)|
    ensures forall k :: 0 <= k < |JobIds(ids, tasks, jobId)| ==>
              && JobIds(ids, tasks, jobId)[k] in ids
              && JobIds(ids, tasks, jobId)[k] in tasks
              && JobListing(ids, tasks, jobId)[k] == tasks[JobIds(ids, tasks, jobId)[k]]
              && tasks[JobIds(ids, tasks, jobId)[k]].spec.jobId == jobId
  {
    if ids == [] {
    } else {
      JobListingByIds(ids[..|ids| - 1], tasks, jobId);
    }
  }

  ghost predicate SameSpecs(ids: seq<string>, tasks: map<string, Task>, tasks': map<string, Task>) {
    forall id :: id in ids ==> id in tasks && id in tasks' && tasks[id].spec == tasks'[id].spec
  }

  lemma {:induction false} JobIdsBySpecs(ids: seq<string>, tasks: map<string, Task>, tasks': map<string, Task>, jobId: string)
    requires SameSpecs(ids, tasks, tasks')
    ensures JobIds(ids, tasks', jobId) == JobIds(ids, tasks, jobId)
  {
    if ids == [] {
    } else {
      assert ids[|ids| - 1] in ids;
      assert SameSpecs(ids[..|ids| - 1], tasks, tasks');
      JobIdsBySpecs(ids[..|ids| - 1], tasks, tasks', jobId);
    }
  }

  lemma JobIdsOneMore(ids: seq<string>, id: string, tasks: map<string, Task>, jobId: string)
    requires id in tasks
    ensures JobIds(ids + [id], tasks, jobId)
         == if tasks[id].spec.jobId == jobId then JobIds(ids, tasks, jobId) + [id] else JobIds(ids, tasks, jobId)
  {
    assert (ids + [id])[..|ids|] == ids;
  }

  lemma {:induction false} NoJobIds(ids: seq<string>, tasks: map<string, Task>, jobId: string)
    requires forall id :: id in ids && id in tasks ==> tasks[id].spec.jobId != jobId
    ensures JobIds(ids, tasks, jobId) == []
  {
    if ids == [] {
    } else {
      assert ids[|ids| - 1] in ids;
      NoJobIds(ids[..|ids| - 1], tasks, jobId);
    }
  }

  lemma FollowsKeepsSpecs(s: State, s': State)
    requires Follows(s, s') && forall id :: id in s.order ==> id in s.tasks
    ensures SameSpecs(s.order, s.tasks, s'.tasks)
  {
  }

  /** Only an enqueue changes which tasks there are. */
  lemma OnlyEnqueueAdds(s: State, op: Op)
    requires Inv(s) && !op.EnqueueOp?
    ensures Apply(s, op).order == s.order
    ensures SameSpecs(s.order, s.tasks, Apply(s, op).tasks)
  {
    hide Inv, Apply, Follows, SameSpecs;
    ApplyFollows(s, op);
    InvLists(s);
    OnlyEnqueueOrders(s, op);
    FollowsKeepsSpecs(s, Apply(s, op));
  }

  /** Enqueues for other jobs leave a job's list of tasks alone. */
  lemma EnqueueOfOthers(s: State, spec: TaskSpec, jobId: string)
    requires Inv(s) && spec.jobId != jobId
    ensures var s' := Enqueue(s, spec).0; JobIds(s'.order, s'.tasks, jobId) == JobIds(s.order, s.tasks, jobId)
  {
    InvLists(s);
    hide Inv;
    if Enqueue(s, spec).1.None? {
      var s' := Enqueue(s, spec).0;
      JobIdsOneMore(s.order, spec.id, s'.tasks, jobId);
      JobIdsBySpecs(s.order, s.tasks, s'.tasks, jobId);
    }
  }

  /** The job's tasks are all enqueued: no later operation adds one. */
  predicate SubmissionOver(ops: seq<Op>, jobId: string) {
    forall i :: 0 <= i < |ops| && ops[i].EnqueueOp? ==> ops[i].spec.jobId != jobId
  }

  lemma {:induction false} JobIdsStay(s: State, ops: seq<Op>, jobId: string)
    requires Inv(s) && SubmissionOver(ops, jobId)
    ensures JobIds(Run(s, ops).order, Run(s, ops).tasks, jobId) == JobIds(s.order, s.tasks, jobId)
    decreases |ops|
  {
    hide Inv;
    if ops == [] {
    } else {
      var next := Apply(s, ops[0]);
      ApplyFollows(s, ops[0]);
      if ops[0].EnqueueOp? {
        EnqueueOfOthers(s, ops[0].spec, jobId);
      } else {
        OnlyEnqueueAdds(s, ops[0]);
        JobIdsBySpecs(s.order, s.tasks, next.tasks, jobId);
      }
      JobIdsStay(next, ops[1..], jobId);
    }
  }

  function Rank(state: JobState): nat {
    match state
    case JobQueued => 0
    case JobRunning => 1
    case JobCompleted => 2
    case JobFailed => 2
  }

  lemma StateAdvances(tasks: seq<Task>, tasks': seq<Task>)
    requires |tasks| == |tasks'| && forall i :: 0 <= i < |tasks| ==> TaskFollows(tasks[i], tasks'[i])
    ensures Rank(ReportedState(tasks)) <= Rank(ReportedState(tasks'))
    ensures Finished(ReportedState(tasks)) ==> tasks' == tasks
  {
  }

  /** Once a job's submission is over, the state told to clients only moves from queued to running to
      terminal, whatever runs in between; and a terminal answer is final down to every record. */
  lemma JobOnlyAdvances(s: State, ops: seq<Op>, jobId: string)
    requires Inv(s) && SubmissionOver(ops, jobId)
    ensures var tasks, tasks' := JobListing(s.order, s.tasks, jobId), JobListing(Run(s, ops).order, Run(s, ops).tasks, jobId);
      && |tasks'| == |tasks|
      && Rank(ReportedState(tasks)) <= Rank(ReportedState(tasks'))
      && (Finished(ReportedState(tasks)) ==> tasks' == tasks)
  {
    hide Inv;
    var s' := Run(s, ops);
    RunFollows(s, ops);
    JobIdsStay(s, ops, jobId);
    JobListingByIds(s.order, s.tasks, jobId);
    JobListingByIds(s'.order, s'.tasks, jobId);
    var tasks, tasks' := JobListing(s.order, s.tasks, jobId), JobListing(s'.order, s'.tasks, jobId);
    forall i | 0 <= i < |tasks|
      ensures TaskFollows(tasks[i], tasks'[i])
    {
      var id := JobIds(s.order, s.tasks, jobId)[i];
      assert TaskFollows(s.tasks[id], s'.tasks[id]);
    }
    StateAdvances(tasks, tasks');
  }

  // ---- the derivations on reachable queues ----

  lemma JobRecordsOk(s: State, jobId: string)
    requires Inv(s)
    ensures RecordsOk(JobListing(s.order, s.tasks, jobId), s.maxAttempts)
  {
    hide Inv;
    var job := JobListing(s.order, s.tasks, jobId);
    JobListingByIds(s.order, s.tasks, jobId);
    forall i | 0 <= i < |job|
      ensures TaskOk(job[i], job[i].spec.id, s.maxAttempts)
    {
      InvTask(s, JobIds(s.order, s.tasks, jobId)[i]);
    }
  }

  /** On every job of every reachable queue, clients and monitor agree on when and how it ended, and on
      everything else but a job that waits as a whole after some of it was tried. */
  lemma ReachedJobsAgree(duration: int, maxAttempts: int, ops: seq<Op>, jobId: string)
    requires 0 < duration && 0 < maxAttempts
    ensures var s := Reached(duration, maxAttempts, ops);
            var job := JobListing(s.order, s.tasks, jobId);
      job != [] ==>
        && (Finished(ReportedState(job)) <==> Finished(MonitorState(job)))
        && (Finished(ReportedState(job)) <==> ClientSeesEnd(job))
        && (ReportedState(job) == MonitorState(job)
            || (ReportedState(job) == JobRunning && MonitorState(job) == JobQueued))
        && (ReportedState(job) != MonitorState(job)
            <==> (forall i :: 0 <= i < |job| ==> job[i].state.Queued?) && AnyStarted(job))
  {
    hide Inv;
    var s := Reached(duration, maxAttempts, ops);
    var job := JobListing(s.order, s.tasks, jobId);
    ReachedInv(duration, maxAttempts, ops);
    JobRecordsOk(s, jobId);
    if job != [] {
      DerivationsAgree(job, maxAttempts);
    }
  }

  /** Such a job is reachable: its only task was claimed, reported an error, and waits again. */
  lemma TriedJobIsSeenDifferently()
    ensures var ops := [EnqueueOp(TaskSpec("t", "j", "k", "http_probe", "")), ClaimOp("w", 0, "a"),
                        CompleteOp("t", "a", "w", Result("", 1, "refused"), 1)];
            var s := Reached(10, 2, ops);
            var job := JobListing(s.order, s.tasks, "j");
      job != [] && ReportedState(job) == JobRunning && MonitorState(job) == JobQueued
  {
    hide Alone, Enqueue, Claim, Complete, Linked, Report, Granting;
    var spec, report := TaskSpec("t", "j", "k", "http_probe", ""), Result("", 1, "refused");
    var t := Granting(NewTask(spec), "w", 0, "a");
    var ops := [EnqueueOp(spec), ClaimOp("w", 0, "a"), CompleteOp("t", "a", "w", report, 1)];
    AloneEnqueued(spec);
    var s0 := Enqueue(Init(10, 2), spec).0;
    AloneClaimed(s0, NewTask(spec), "w", 0, "a");
    var s1 := Claim(s0, "w", 0, "a").0;
    GrantedOnce(spec, "w", 0, "a", report);
    AloneReported(s1, t, report);
    ThreeSteps(Init(10, 2), ops[0], ops[1], ops[2]);
    AloneListed(Complete(s1, "t", "a", "w", report, 1).0, Report(t, report, 2), "j");
  }

  lemma GrantedOnce(spec: TaskSpec, workerId: string, now: int, leaseId: string, report: Result)
    requires report.error != ""
    ensures var t := Granting(NewTask(spec), workerId, now, leaseId);
      && t.state.Leased? && t.lease == Some(Lease(leaseId, "t", workerId, now, now + 10, 1))
      && Report(t, report, 2).state.Queued? && Report(t, report, 2).attempts == 1 && Report(t, report, 2).spec == spec
  {
  }

  lemma AloneListed(s: State, t: Task, jobId: string)
    requires Alone(s, t) && t.spec.jobId == jobId
    ensures JobListing(s.order, s.tasks, jobId) == [t]
    ensures t.state.Queued? && t.attempts > 0 ==> ReportedState([t]) == JobRunning && MonitorState([t]) == JobQueued
  {
    var ids := ["t"];
    assert ids[..|ids| - 1] == [] && JobListing([], s.tasks, jobId) == [];
    assert JobListing(ids, s.tasks, jobId) == [] + [t];
    assert [t][..0] == [];
    if t.state.Queued? && t.attempts > 0 {
      assert [t][0].attempts > 0;
      AllQueuedCounts([t]);
      assert CountIn([t], Queued) == 1;
      CountsSumUp([t]);
    }
  }
}
