/**
 The coordinator's monitor snapshot and lease tally, and the client's job progress.
 */
module Monitor {
  import opened Options
  import opened LeaseModel
  import opened LeaseInvariants
  import opened LeaseQueue
  import opened Views
  import opened Jobs
  import opened Tallies

  datatype Tally = Tally(queued: nat, running: nat, completed: nat, failed: nat, total: nat)

  function Plus(t: Tally, state: TaskState): Tally {
    match state
    case Queued => t.(queued := t.queued + 1, total := t.total + 1)
    case Leased => t.(running := t.running + 1, total := t.total + 1)
    case Completed => t.(completed := t.completed + 1, total := t.total + 1)
    case Failed => t.(failed := t.failed + 1, total := t.total + 1)
  }

  datatype TaskProgress = TaskProgress(taskId: string, key: string, state: TaskState, workerId: string, attempt: int,
                                       output: string, error: string, duration: int, startedAt: Option<int>)

  datatype Contribution = Contribution(workerId: string, active: nat, completed: nat, failed: nat)

  datatype JobProgress = JobProgress(jobId: string, state: JobState, counts: Tally,
                                     tasks: seq<TaskProgress>, workers: seq<Contribution>,
                                     startedAt: Option<int>, elapsed: int)

  function TallyOf(tasks: seq<Task>): Tally {
    Tally(CountIn(tasks, Queued), CountIn(tasks, Leased), CountIn(tasks, Completed), CountIn(tasks, Failed), |tasks|)
  }

  lemma TallyOneMore(tasks: seq<Task>, t: Task)
    ensures TallyOf(tasks + [t]) == Plus(TallyOf(tasks), t.state)
  {
    assert (tasks + [t])[..|tasks|] == tasks;
  }

  /** A task as the client shows it. */
  function ProgressOf(v: JobTask): TaskProgress {
    var r := if v.result.Some? then v.result.value else Result("", 0, "");
    TaskProgress(v.taskId, v.key, v.state, v.workerId, v.attempts, r.output, r.error, r.duration, None)
  }

  /** The progress of a task says what its response entry says; without a result, output and error are empty. */
  predicate ShowsEntry(p: TaskProgress, v: JobTask) {
    && p.taskId == v.taskId && p.key == v.key && p.state == v.state && p.workerId == v.workerId && p.attempt == v.attempts
    && (v.result.Some? ==>
          p.output == v.result.value.output && p.error == v.result.value.error && p.duration == v.result.value.duration)
    && (v.result.None? ==> p.output == "" && p.error == "" && p.duration == 0)
    && p.startedAt == None
  }

  predicate ShowsEntries(progress: seq<TaskProgress>, views: seq<JobTask>) {
    |progress| == |views| && forall i :: 0 <= i < |views| ==> ShowsEntry(progress[i], views[i])
  }

  lemma ProgressShowsEntry(v: JobTask)
    ensures ShowsEntry(ProgressOf(v), v)
  {
  }

  function Since(start: Option<int>, now: int): int {
    if start.Some? then now - start.value else 0
  }

  // ---- MonitorSnapshot ----

  /** The tasks of one job, in order. */
  function OfJob(tasks: seq<Task>, jobId: string): seq<Task> {
    if tasks == [] then []
    else
      var rest := OfJob(tasks[..|tasks| - 1], jobId);
      if tasks[|tasks| - 1].spec.jobId == jobId then rest + [tasks[|tasks| - 1]] else rest
  }

  /** The job IDs in order of first appearance. */
  function JobsSeen(tasks: seq<Task>): (jobs: seq<string>)
    ensures NoDuplicates(jobs)
    ensures forall i :: 0 <= i < |tasks| ==> tasks[i].spec.jobId in jobs
  {
    if tasks == [] then []
    else
      var rest := JobsSeen(tasks[..|tasks| - 1]);
      var last := tasks[|tasks| - 1].spec.jobId;
      assert forall i :: 0 <= i < |tasks| - 1 ==> tasks[..|tasks| - 1][i] == tasks[i];
      if last in rest then rest else rest + [last]
  }

  /** When the lease that a task is under was issued. */
  function IssueOf(t: Task): Option<int> {
    if t.state.Leased? && t.lease.Some? then Some(t.lease.value.issuedAt) else None
  }

  /** A task as the monitor shows it: what it reported, or how long it has been under its lease. */
  function MonitoredTask(t: Task, now: int): TaskProgress {
    ProgressOf(ViewOf(t)).(
      startedAt := IssueOf(t),
      duration := if t.result.Some? then t.result.value.duration else Since(IssueOf(t), now))
  }

  /** What the monitor shows of a task: its own ID, key, state, worker and attempts; a lease's issue time and age
      while it is under one; and of a result output, error and duration. */
  lemma MonitoredTaskMeans(t: Task, now: int)
    requires t.state.Leased? ==> t.result.None?
    ensures var p := MonitoredTask(t, now);
      && p.taskId == t.spec.id && p.key == t.spec.key && p.state == t.state && p.workerId == t.workerId
      && p.attempt == t.attempts
      && (t.state.Leased? && t.lease.Some? ==>
            p.startedAt == Some(t.lease.value.issuedAt) && p.duration == now - t.lease.value.issuedAt)
      && (!t.state.Leased? ==> p.startedAt.None?)
      && (t.result.Some? ==> p.output == t.result.value.output && p.error == t.result.value.error
                             && p.duration == t.result.value.duration)
      && (t.result.None? ==> p.output == "" && p.error == "")
      && (t.result.None? && !t.state.Leased? ==> p.duration == 0)
  {
  }

  function MonitoredTasks(tasks: seq<Task>, now: int): seq<TaskProgress> {
    seq(|tasks|, i requires 0 <= i < |tasks| => MonitoredTask(tasks[i], now))
  }

  function Earlier(a: Option<int>, b: Option<int>): Option<int> {
    if a.None? || (b.Some? && b.value < a.value) then b else a
  }

  /** The earliest issue time of the leases in force, if there are any. */
  function EarliestIssue(tasks: seq<Task>): Option<int> {
    if tasks == [] then None else Earlier(EarliestIssue(tasks[..|tasks| - 1]), IssueOf(tasks[|tasks| - 1]))
  }

  /** It is one of those times, and none is before it. */
  lemma {:induction false} EarliestIssueIsLeast(tasks: seq<Task>)
    ensures EarliestIssue(tasks).None? ==> forall i :: 0 <= i < |tasks| ==> IssueOf(tasks[i]).None?
    ensures EarliestIssue(tasks).Some? ==>
              && (exists i :: 0 <= i < |tasks| && IssueOf(tasks[i]) == EarliestIssue(tasks))
              && (forall i :: 0 <= i < |tasks| && IssueOf(tasks[i]).Some? ==>
                    EarliestIssue(tasks).value <= IssueOf(tasks[i]).value)
  {
    if tasks == [] {
    } else {
      var init, last := tasks[..|tasks| - 1], |tasks| - 1;
      EarliestIssueIsLeast(init);
      assert forall i :: 0 <= i < |init| ==> init[i] == tasks[i];
      if i :| 0 <= i < |init| && IssueOf(init[i]) == EarliestIssue(init) {
        assert IssueOf(tasks[i]) == EarliestIssue(init);
      }
      assert EarliestIssue(tasks) == Earlier(EarliestIssue(init), IssueOf(tasks[last]));
    }
  }

  function MonitoredJob(tasks: seq<Task>, jobId: string, now: int): JobProgress {
    var mine := OfJob(tasks, jobId);
    JobProgress(jobId, MonitorState(mine), TallyOf(mine), MonitoredTasks(mine, now), [],
                EarliestIssue(mine), Since(EarliestIssue(mine), now))
  }

  /** The last job, in order of appearance, that has not ended. */
  function CurrentJob(jobs: seq<string>, tasks: seq<Task>, now: int): Option<JobProgress> {
    if jobs == [] then None
    else
      var last := MonitoredJob(tasks, jobs[|jobs| - 1], now);
      if !Finished(last.state) then Some(last) else CurrentJob(jobs[..|jobs| - 1], tasks, now)
  }

  /** Jobs are listed once each, by their first tasks. */
  lemma {:induction false} JobsSeenInOrder(tasks: seq<Task>, a: nat, b: nat)
    requires a < b < |JobsSeen(tasks)|
    ensures exists i :: 0 <= i < |tasks| && tasks[i].spec.jobId == JobsSeen(tasks)[a]
                        && forall j :: 0 <= j < |tasks| && tasks[j].spec.jobId == JobsSeen(tasks)[b] ==> i < j
  {
    if tasks == [] {
    } else {
      var init, last := tasks[..|tasks| - 1], |tasks| - 1;
      assert forall j :: 0 <= j < last ==> init[j] == tasks[j];
      if b < |JobsSeen(init)| {
        JobsSeenInOrder(init, a, b);
        var i :| 0 <= i < |init| && init[i].spec.jobId == JobsSeen(init)[a]
          && forall j :: 0 <= j < |init| && init[j].spec.jobId == JobsSeen(init)[b] ==> i < j;
        assert tasks[i].spec.jobId == JobsSeen(tasks)[a];
      } else {
        SeenJobHasTask(init, a);
        var i :| 0 <= i < |init| && init[i].spec.jobId == JobsSeen(init)[a];
        assert tasks[i].spec.jobId == JobsSeen(tasks)[a];
      }
    }
  }

  lemma {:induction false} SeenJobHasTask(tasks: seq<Task>, a: nat)
    requires a < |JobsSeen(tasks)|
    ensures exists i :: 0 <= i < |tasks| && tasks[i].spec.jobId == JobsSeen(tasks)[a]
  {
    if tasks == [] {
    } else {
      var init, last := tasks[..|tasks| - 1], |tasks| - 1;
      if a < |JobsSeen(init)| {
        SeenJobHasTask(init, a);
        var i :| 0 <= i < |init| && init[i].spec.jobId == JobsSeen(init)[a];
        assert tasks[i].spec.jobId == JobsSeen(tasks)[a];
      } else {
        assert tasks[last].spec.jobId == JobsSeen(tasks)[a];
      }
    }
  }

  /** What the monitor's entry of a job says. */
  predicate ShowsJob(p: JobProgress, jobId: string, mine: seq<Task>, now: int) {
    && p.jobId == jobId && p.state == MonitorState(mine) && p.workers == []
    && p.counts == Tally(CountIn(mine, Queued), CountIn(mine, Leased), CountIn(mine, Completed), CountIn(mine, Failed), |mine|)
    && |p.tasks| == |mine| && (forall i :: 0 <= i < |mine| ==> p.tasks[i] == MonitoredTask(mine[i], now))
    && p.startedAt == EarliestIssue(mine)
    && p.elapsed == if p.startedAt.Some? then now - p.startedAt.value else 0
  }

  lemma OneJobMeans(tasks: seq<Task>, jobId: string, now: int)
    ensures var mine, p := OfJob(tasks, jobId), MonitoredJob(tasks, jobId, now);
      ShowsJob(p, jobId, mine, now) && (Finished(p.state) <==> AllEnded(mine))
  {
    hide OfJob;
    var mine := OfJob(tasks, jobId);
    CountsAndQuantifiers(mine);
    MonitorStateMeans(mine);
  }

  /** Job a is the last one listed some task of which has not ended, and `p` shows it. */
  predicate IsCurrent(jobs: seq<string>, tasks: seq<Task>, now: int, a: nat, p: JobProgress) {
    && a < |jobs|
    && !AllEnded(OfJob(tasks, jobs[a]))
    && (forall b :: a < b < |jobs| ==> AllEnded(OfJob(tasks, jobs[b])))
    && ShowsJob(p, jobs[a], OfJob(tasks, jobs[a]), now)
  }

  /** The current job is the last one listed some task of which has not ended; there is none exactly if every
      listed job has ended.  It is shown with its own tasks, counts, start and state. */
  lemma {:induction false} CurrentJobMeans(jobs: seq<string>, tasks: seq<Task>, now: int)
    ensures var current := CurrentJob(jobs, tasks, now);
      && (current.None? ==> forall a :: 0 <= a < |jobs| ==> AllEnded(OfJob(tasks, jobs[a])))
      && (current.Some? ==> exists a :: IsCurrent(jobs, tasks, now, a, current.value))
  {
    hide OfJob, ShowsJob, MonitoredJob, AllEnded;
    if jobs == [] {
    } else {
      var init, last := jobs[..|jobs| - 1], |jobs| - 1;
      OneJobMeans(tasks, jobs[last], now);
      CurrentJobMeans(init, tasks, now);
      assert forall a :: 0 <= a < last ==> init[a] == jobs[a];
      if AllEnded(OfJob(tasks, jobs[last])) {
        var current := CurrentJob(jobs, tasks, now);
        if current.Some? {
          var a :| IsCurrent(init, tasks, now, a, current.value);
          assert IsCurrent(jobs, tasks, now, a, current.value);
        }
      } else {
        assert IsCurrent(jobs, tasks, now, last, MonitoredJob(tasks, jobs[last], now));
      }
    }
  }

  lemma SeenOneMore(tasks: seq<Task>, t: Task)
    ensures JobsSeen(tasks + [t])
         == if t.spec.jobId in JobsSeen(tasks) then JobsSeen(tasks) else JobsSeen(tasks) + [t.spec.jobId]
  {
    assert (tasks + [t])[..|tasks|] == tasks;
  }

  lemma OfJobOneMore(tasks: seq<Task>, t: Task, j: string)
    ensures OfJob(tasks + [t], j) == if t.spec.jobId == j then OfJob(tasks, j) + [t] else OfJob(tasks, j)
  {
    assert (tasks + [t])[..|tasks|] == tasks;
  }

  lemma {:induction false} UnseenJobIsEmpty(tasks: seq<Task>, jobId: string)
    requires jobId !in JobsSeen(tasks)
    ensures OfJob(tasks, jobId) == []
  {
    if tasks == [] {
    } else {
      var init, last := tasks[..|tasks| - 1], tasks[|tasks| - 1];
      assert tasks == init + [last];
      SeenOneMore(init, last);
      OfJobOneMore(init, last, jobId);
      UnseenJobIsEmpty(init, jobId);
    }
  }

  /** A job's entry while the monitor is still counting. */
  predicate CountedSoFar(p: JobProgress, tasks: seq<Task>, jobId: string, now: int) {
    var mine := OfJob(tasks, jobId);
    && p.jobId == jobId && p.counts == TallyOf(mine) && p.tasks == MonitoredTasks(mine, now)
    && p.workers == [] && p.startedAt == EarliestIssue(mine) && p.elapsed == 0
  }

  ghost predicate GroupedSoFar(jobs: map<string, JobProgress>, tasks: seq<Task>, now: int) {
    && (forall j :: j in jobs <==> j in JobsSeen(tasks))
    && (forall j :: j in jobs ==> CountedSoFar(jobs[j], tasks, j, now))
  }

  const EMPTY_TALLY := Tally(0, 0, 0, 0, 0)

  function NewJob(jobId: string): JobProgress {
    JobProgress(jobId, JobQueued, EMPTY_TALLY, [], [], None, 0)
  }

  lemma NothingSeen(now: int)
    ensures TallyOf([]) == EMPTY_TALLY && JobsSeen([]) == []
    ensures MonitoredTasks([], now) == [] && EarliestIssue([]) == None
    ensures GroupedSoFar(map[], [], now)
  {
  }

  lemma MonitoredOneMore(tasks: seq<Task>, t: Task, now: int)
    ensures MonitoredTasks(tasks + [t], now) == MonitoredTasks(tasks, now) + [MonitoredTask(t, now)]
    ensures EarliestIssue(tasks + [t]) == Earlier(EarliestIssue(tasks), IssueOf(t))
  {
    assert (tasks + [t])[..|tasks|] == tasks;
  }

  /** One task added to its job's entry. */
  method CountTask(job: JobProgress, ghost mine: seq<Task>, task: Task, now: int) returns (job': JobProgress)
    requires job.counts == TallyOf(mine) && job.tasks == MonitoredTasks(mine, now) && job.startedAt == EarliestIssue(mine)
    ensures job'.counts == TallyOf(mine + [task]) && job'.tasks == MonitoredTasks(mine + [task], now)
    ensures job'.startedAt == EarliestIssue(mine + [task])
    ensures job'.jobId == job.jobId && job'.workers == job.workers && job'.elapsed == job.elapsed
  {
    hide TallyOf, MonitoredTasks, EarliestIssue;
    TallyOneMore(mine, task);
    MonitoredOneMore(mine, task, now);
    job' := job.(counts := Plus(job.counts, task.state));
    var progress := ProgressOf(ViewOf(task)).(duration := 0);
    if task.state == Leased && task.lease.Some? {
      var issuedAt := task.lease.value.issuedAt;
      progress := progress.(startedAt := Some(issuedAt), duration := now - issuedAt);
      if job'.startedAt.None? || issuedAt < job'.startedAt.value {
        job' := job'.(startedAt := Some(issuedAt));
      }
    }
    if task.result.Some? {
      progress := progress.(duration := task.result.value.duration);
    }
    job' := job'.(tasks := job'.tasks + [progress]);
  }

  /** One task more in the monitor's map of jobs. */
  method Regroup(jobs: map<string, JobProgress>, ghost seen: seq<Task>, task: Task, now: int)
    returns (jobs': map<string, JobProgress>)
    requires GroupedSoFar(jobs, seen, now)
    ensures GroupedSoFar(jobs', seen + [task], now)
  {
    hide JobsSeen, OfJob, TallyOf, MonitoredTasks, EarliestIssue;
    var jobId := task.spec.jobId;
    var job := NewJob(jobId);
    if jobId in jobs {
      job := jobs[jobId];
    }
    SeenOneMore(seen, task);
    NothingSeen(now);
    if jobId !in jobs {
      UnseenJobIsEmpty(seen, jobId);
    }
    job := CountTask(job, OfJob(seen, jobId), task, now);
    jobs' := jobs[jobId := job];
    forall j
      ensures j in jobs' <==> j in JobsSeen(seen + [task])
      ensures j in jobs' ==> CountedSoFar(jobs'[j], seen + [task], j, now)
    {
      OfJobOneMore(seen, task, j);
    }
  }

  /** The first half of MonitorSnapshot: count all tasks, and each job's. */
  method GroupByJob(tasks: seq<Task>, now: int) returns (counts: Tally, jobs: map<string, JobProgress>, jobOrder: seq<string>)
    ensures counts == TallyOf(tasks)
    ensures jobOrder == JobsSeen(tasks)
    ensures GroupedSoFar(jobs, tasks, now)
  {
    hide TallyOf, JobsSeen, OfJob, CountedSoFar;
    NothingSeen(now);
    jobs, jobOrder, counts := map[], [], EMPTY_TALLY;
    for i := 0 to |tasks|
      invariant counts == TallyOf(tasks[..i]) && jobOrder == JobsSeen(tasks[..i])
      invariant GroupedSoFar(jobs, tasks[..i], now)
    {
      assert tasks[..i + 1] == tasks[..i] + [tasks[i]];
      TallyOneMore(tasks[..i], tasks[i]);
      SeenOneMore(tasks[..i], tasks[i]);
      counts := Plus(counts, tasks[i].state);
      if tasks[i].spec.jobId !in jobs {
        jobOrder := jobOrder + [tasks[i].spec.jobId];
      }
      jobs := Regroup(jobs, tasks[..i], tasks[i], now);
    }
    assert tasks[..|tasks|] == tasks;
  }

  /** MonitorSnapshot's view of the tasks observed at `now`: the counts, the number of jobs, and the last job,
      in order of appearance, that has not ended. */
  method Snapshot(tasks: seq<Task>, now: int) returns (counts: Tally, jobCount: nat, current: Option<JobProgress>)
    ensures counts == TallyOf(tasks)
    ensures jobCount == |JobsSeen(tasks)|
    ensures current == CurrentJob(JobsSeen(tasks), tasks, now)
  {
    hide JobsSeen, OfJob, MonitoredTasks, EarliestIssue;
    var jobs, jobOrder;
    counts, jobs, jobOrder := GroupByJob(tasks, now);
    jobCount := |jobOrder|;
    current := None;
    for i := 0 to |jobOrder|
      invariant current == CurrentJob(jobOrder[..i], tasks, now)
    {
      assert jobOrder[..i + 1][..i] == jobOrder[..i];
      assert jobOrder[i] in jobOrder;
      var job := jobs[jobOrder[i]];
      var c := job.counts;
      job := job.(state := MonitoredState(c.queued, c.running, c.completed, c.failed, c.total));
      if job.startedAt.Some? {
        job := job.(elapsed := now - job.startedAt.value);
      }
      assert CountedSoFar(jobs[jobOrder[i]], tasks, jobOrder[i], now);
      assert job == MonitoredJob(tasks, jobOrder[i], now);
      if job.state == JobQueued || job.state == JobRunning {
        current := Some(job);
      }
    }
    assert jobOrder[..|jobOrder|] == jobOrder;
  }

  function ByJob(tasks: seq<Task>): seq<Entry> {
    seq(|tasks|, i requires 0 <= i < |tasks| => Entry(tasks[i].spec.jobId, tasks[i].state))
  }

  lemma {:induction false} ByJobCounts(tasks: seq<Task>, state: TaskState)
    ensures CountAll(ByJob(tasks), state) == CountIn(tasks, state)
    ensures forall j :: CountGroup(ByJob(tasks), j, state) == CountIn(OfJob(tasks, j), state)
  {
    if tasks == [] {
    } else {
      var init, last := tasks[..|tasks| - 1], tasks[|tasks| - 1];
      ByJobCounts(init, state);
      assert tasks == init + [last];
      assert ByJob(tasks) == ByJob(init) + [Entry(last.spec.jobId, last.state)];
      CountOneMoreEntry(init, last, state);
      forall j
        ensures CountGroup(ByJob(tasks), j, state) == CountIn(OfJob(tasks, j), state)
      {
        OfJobOneMore(init, last, j);
        CountAppended(OfJob(init, j), last, state);
      }
      CountAppended(init, last, state);
    }
  }

  lemma CountAppended(tasks: seq<Task>, t: Task, state: TaskState)
    ensures CountIn(tasks + [t], state) == CountIn(tasks, state) + if t.state == state then 1 else 0
  {
    assert (tasks + [t])[..|tasks|] == tasks;
  }

  lemma CountOneMoreEntry(init: seq<Task>, last: Task, state: TaskState)
    ensures CountAll(ByJob(init) + [Entry(last.spec.jobId, last.state)], state)
         == CountAll(ByJob(init), state) + if last.state == state then 1 else 0
    ensures forall j ::
              CountGroup(ByJob(init) + [Entry(last.spec.jobId, last.state)], j, state)
              == CountGroup(ByJob(init), j, state) + if last.spec.jobId == j && last.state == state then 1 else 0
  {
    Tallies.CountOneMore(ByJob(init), Entry(last.spec.jobId, last.state));
  }

  /** The jobs' counts in any state add up to the monitor's global count. */
  lemma JobCountsSumUp(tasks: seq<Task>, state: TaskState)
    ensures SumGroups(JobsSeen(tasks), ByJob(tasks), state) == CountIn(tasks, state)
    ensures forall j :: CountGroup(ByJob(tasks), j, state) == CountIn(OfJob(tasks, j), state)
  {
    ByJobCounts(tasks, state);
    GroupsSumUp(JobsSeen(tasks), ByJob(tasks), state);
  }

  /** The queue's list of one job is the monitor's group of that job, taken from the whole list. */
  lemma {:induction false} JobListingIsOfJob(ids: seq<string>, tasks: map<string, Task>, jobId: string)
    requires forall id :: id in ids ==> id in tasks
    ensures JobListing(ids, tasks, jobId) == OfJob(Listing(ids, tasks), jobId)
  {
    if ids == [] {
    } else {
      var init := ids[..|ids| - 1];
      JobListingIsOfJob(init, tasks, jobId);
      assert Listing(ids, tasks)[..|ids| - 1] == Listing(init, tasks);
      assert Listing(ids, tasks)[|ids| - 1] == tasks[ids[|ids| - 1]];
    }
  }

  // ---- leases per worker ----

  function HeldBy(tasks: seq<Task>, workerId: string): nat {
    if tasks == [] then 0
    else
      var t := tasks[|tasks| - 1];
      HeldBy(tasks[..|tasks| - 1], workerId)
      + if t.state.Leased? && t.lease.Some? && t.lease.value.workerId == workerId then 1 else 0
  }

  predicate IsHeldBy(t: Task, workerId: string) {
    t.state.Leased? && t.lease.Some? && t.lease.value.workerId == workerId
  }

  ghost function HeldTasks(tasks: seq<Task>, workerId: string): set<nat> {
    set i: nat | i < |tasks| && IsHeldBy(tasks[i], workerId)
  }

  /** It is the number of tasks under one of the worker's leases. */
  lemma {:induction false} HeldByCounts(tasks: seq<Task>, workerId: string)
    ensures HeldBy(tasks, workerId) == |HeldTasks(tasks, workerId)|
  {
    if tasks == [] {
    } else {
      var init, last := tasks[..|tasks| - 1], |tasks| - 1;
      HeldByCounts(init, workerId);
      HeldTasksOneMore(init, tasks[last], workerId);
      assert tasks == init + [tasks[last]];
    }
  }

  lemma HeldTasksOneMore(tasks: seq<Task>, t: Task, workerId: string)
    ensures |HeldTasks(tasks + [t], workerId)| == |HeldTasks(tasks, workerId)| + if IsHeldBy(t, workerId) then 1 else 0
  {
    hide IsHeldBy;
    var all, before := tasks + [t], HeldTasks(tasks, workerId);
    var last := if IsHeldBy(t, workerId) then {|tasks|} else {};
    assert forall i :: 0 <= i < |tasks| ==> all[i] == tasks[i];
    assert all[|tasks|] == t && |tasks| !in before;
    assert HeldTasks(all, workerId) == before + last;
  }

  /** The status handler's tally: one pass, one map. */
  method ActiveLeases(tasks: seq<Task>) returns (held: map<string, nat>)
    ensures forall w :: (if w in held then held[w] else 0) == HeldBy(tasks, w)
  {
    held := map[];
    for i := 0 to |tasks|
      invariant forall w :: (if w in held then held[w] else 0) == HeldBy(tasks[..i], w)
    {
      var t := tasks[i];
      assert tasks[..i + 1][..i] == tasks[..i];
      if t.state == Leased && t.lease.Some? {
        var w := t.lease.value.workerId;
        held := held[w := (if w in held then held[w] else 0) + 1];
      }
    }
    assert tasks[..|tasks|] == tasks;
  }

  /** The monitor's count: one pass for each worker. */
  method CountHeld(tasks: seq<Task>, workerId: string) returns (active: nat)
    ensures active == HeldBy(tasks, workerId)
  {
    active := 0;
    for i := 0 to |tasks|
      invariant active == HeldBy(tasks[..i], workerId)
    {
      assert tasks[..i + 1][..i] == tasks[..i];
      if tasks[i].state == Leased && tasks[i].lease.Some? && tasks[i].lease.value.workerId == workerId {
        active := active + 1;
      }
    }
    assert tasks[..|tasks|] == tasks;
  }

  datatype WorkerSummary = WorkerSummary(workerId: string, lastActivity: int, active: nat)

  /** The workers heard from since `cutoff`, by name, with the leases each holds; older ones are forgotten. */
  method RecentWorkers(tasks: seq<Task>, activity: map<string, int>, cutoff: int)
    returns (workers: seq<WorkerSummary>, kept: map<string, int>)
    ensures kept == map w | w in activity && cutoff <= activity[w] :: activity[w]
    ensures StrictlySorted(seq(|workers|, i requires 0 <= i < |workers| => workers[i].workerId))
    ensures forall w :: w in kept <==> exists i :: 0 <= i < |workers| && workers[i].workerId == w
    ensures forall i :: 0 <= i < |workers| && workers[i].workerId in kept ==>
              workers[i] == WorkerSummary(workers[i].workerId, kept[workers[i].workerId], HeldBy(tasks, workers[i].workerId))
  {
    kept := map w | w in activity && cutoff <= activity[w] :: activity[w];
    var names := SortedNames(kept.Keys);
    workers := [];
    for i := 0 to |names|
      invariant |workers| == i
      invariant forall k :: 0 <= k < i ==>
                  names[k] in kept && workers[k] == WorkerSummary(names[k], kept[names[k]], HeldBy(tasks, names[k]))
    {
      assert names[i] in names;
      var active := CountHeld(tasks, names[i]);
      workers := workers + [WorkerSummary(names[i], kept[names[i]], active)];
    }
    assert seq(|workers|, i requires 0 <= i < |workers| => workers[i].workerId) == names;
  }

  // ---- JobFromResponse ----

  function ByWorker(views: seq<JobTask>): seq<Entry> {
    seq(|views|, i requires 0 <= i < |views| => Entry(views[i].workerId, views[i].state))
  }

  function TallyViews(views: seq<JobTask>): Tally {
    var es := ByWorker(views);
    Tally(CountAll(es, Queued), CountAll(es, Leased), CountAll(es, Completed), CountAll(es, Failed), |views|)
  }

  function ContributionOf(views: seq<JobTask>, workerId: string): Contribution {
    var es := ByWorker(views);
    Contribution(workerId, CountGroup(es, workerId, Leased),
                 CountGroup(es, workerId, Completed), CountGroup(es, workerId, Failed))
  }

  lemma ViewsOneMore(views: seq<JobTask>, v: JobTask)
    ensures ByWorker(views + [v]) == ByWorker(views) + [Entry(v.workerId, v.state)]
    ensures TallyViews(views + [v]) == Plus(TallyViews(views), v.state)
    ensures forall w ::
              ContributionOf(views + [v], w)
              == if w == v.workerId then Credit(ContributionOf(views, w), v.state) else ContributionOf(views, w)
  {
    assert ByWorker(views + [v]) == ByWorker(views) + [Entry(v.workerId, v.state)];
    Tallies.CountOneMore(ByWorker(views), Entry(v.workerId, v.state));
  }

  function Credit(c: Contribution, state: TaskState): Contribution {
    match state
    case Leased => c.(active := c.active + 1)
    case Completed => c.(completed := c.completed + 1)
    case Failed => c.(failed := c.failed + 1)
    case Queued => c
  }

  predicate IsOf(v: JobTask, workerId: string, state: TaskState) {
    v.workerId == workerId && v.state == state
  }

  ghost function TasksOf(views: seq<JobTask>, workerId: string, state: TaskState): set<nat> {
    set i: nat | i < |views| && IsOf(views[i], workerId, state)
  }

  lemma TasksOfOneMore(views: seq<JobTask>, v: JobTask, workerId: string, state: TaskState)
    ensures |TasksOf(views + [v], workerId, state)|
         == |TasksOf(views, workerId, state)| + if IsOf(v, workerId, state) then 1 else 0
  {
    hide IsOf;
    var all, before := views + [v], TasksOf(views, workerId, state);
    var last := if IsOf(v, workerId, state) then {|views|} else {};
    assert forall i :: 0 <= i < |views| ==> all[i] == views[i];
    assert all[|views|] == v && |views| !in before;
    assert TasksOf(all, workerId, state) == before + last;
  }

  /** A worker's contribution: the numbers of its tasks that run, are completed, and failed. */
  lemma {:induction false} ContributionMeans(views: seq<JobTask>, workerId: string)
    ensures ContributionOf(views, workerId)
         == Contribution(workerId, |TasksOf(views, workerId, Leased)|, |TasksOf(views, workerId, Completed)|,
                         |TasksOf(views, workerId, Failed)|)
  {
    if views == [] {
    } else {
      hide ContributionOf, TasksOf;
      var init, last := views[..|views| - 1], views[|views| - 1];
      assert views == init + [last];
      ContributionMeans(init, workerId);
      ViewsOneMore(init, last);
      TasksOfOneMore(init, last, workerId, Leased);
      TasksOfOneMore(init, last, workerId, Completed);
      TasksOfOneMore(init, last, workerId, Failed);
    }
  }

  function Names(workers: seq<Contribution>): seq<string> {
    seq(|workers|, i requires 0 <= i < |workers| => workers[i].workerId)
  }

  lemma {:induction false} AbsentWorkerHasNothing(views: seq<JobTask>, w: string)
    requires forall i :: 0 <= i < |views| ==> views[i].workerId != w
    ensures ContributionOf(views, w) == Contribution(w, 0, 0, 0)
  {
    if views == [] {
    } else {
      var init, last := views[..|views| - 1], views[|views| - 1];
      assert views == init + [last];
      assert forall i :: 0 <= i < |init| ==> init[i] == views[i];
      AbsentWorkerHasNothing(init, w);
      ViewsOneMore(init, last);
    }
  }

  /** One task of JobFromResponse. */
  method ShowTask(view: JobTask) returns (progress: TaskProgress)
    ensures ShowsEntry(progress, view)
  {
    progress := TaskProgress(view.taskId, view.key, view.state, view.workerId, view.attempts, "", "", 0, None);
    if view.result.Some? {
      var r := view.result.value;
      progress := progress.(duration := r.duration, output := r.output, error := r.error);
    }
  }

  /** JobFromResponse: counters, per-task progress in response order, and one entry per named worker,
      strictly sorted by name, that counts that worker's tasks. */
  method JobFromResponse(response: JobResponse, startedAt: Option<int>, observedAt: int) returns (job: JobProgress)
    ensures job.jobId == response.jobId && job.state == response.state
    ensures job.counts == TallyViews(response.tasks)
    ensures ShowsEntries(job.tasks, response.tasks)
    ensures job.startedAt == startedAt && job.elapsed == Since(startedAt, observedAt)
    ensures StrictlySorted(Names(job.workers))
    ensures forall w :: w in Names(job.workers) <==>
              w != "" && exists i :: 0 <= i < |response.tasks| && response.tasks[i].workerId == w
    ensures forall i :: 0 <= i < |job.workers| ==> job.workers[i] == ContributionOf(response.tasks, job.workers[i].workerId)
  {
    hide ShowsEntry;
    var views := response.tasks;
    var counts := Tally(0, 0, 0, 0, 0);
    var tasks := [];
    var workers: map<string, Contribution> := map[];
    for i := 0 to |views|
      invariant counts == TallyViews(views[..i])
      invariant |tasks| == i && forall k :: 0 <= k < i ==> ShowsEntry(tasks[k], views[k])
      invariant forall w :: w in workers <==> w != "" && exists k :: 0 <= k < i && views[k].workerId == w
      invariant forall w :: w in workers ==> workers[w] == ContributionOf(views[..i], w)
    {
      var view := views[i];
      assert views[..i + 1] == views[..i] + [view];
      ViewsOneMore(views[..i], view);
      counts := Plus(counts, view.state);
      var progress := ShowTask(view);
      tasks := tasks + [progress];
      if view.workerId == "" {
        continue;
      }
      if view.workerId !in workers {
        AbsentWorkerHasNothing(views[..i], view.workerId);
        workers := workers[view.workerId := Contribution(view.workerId, 0, 0, 0)];
      }
      workers := workers[view.workerId := Credit(workers[view.workerId], view.state)];
    }
    assert views[..|views|] == views;
    var names := SortedNames(workers.Keys);
    var contributions := seq(|names|, i requires 0 <= i < |names| => workers[names[i]]);
    assert Names(contributions) == names;
    job := JobProgress(response.jobId, response.state, counts, tasks, contributions, startedAt, 0);
    if startedAt.Some? {
      job := job.(elapsed := observedAt - startedAt.value);
    }
  }

  /** For a job of a reachable queue the workers' active, completed and failed counts add up to the job's. */
  lemma ContributionsSumUp(views: seq<JobTask>, names: seq<string>, state: TaskState)
    requires StrictlySorted(names) && !state.Queued?
    requires forall w :: w in names <==> w != "" && exists i :: 0 <= i < |views| && views[i].workerId == w
    requires forall i :: 0 <= i < |views| && !views[i].state.Queued? ==> views[i].workerId != ""
    ensures SumGroups(names, ByWorker(views), state) == CountAll(ByWorker(views), state)
  {
    SortedHasNoDuplicates(names);
    forall i | 0 <= i < |views| && views[i].state == state
      ensures views[i].workerId in names
    {
    }
    GroupsSumUp(names, ByWorker(views), state);
  }

  /** The client's counters are the coordinator's counts of the same tasks. */
  lemma {:induction false} ViewsCount(tasks: seq<Task>, state: TaskState)
    ensures CountAll(ByWorker(Viewed(tasks)), state) == CountIn(tasks, state)
  {
    if tasks == [] {
    } else {
      var init, last := tasks[..|tasks| - 1], tasks[|tasks| - 1];
      ViewsCount(init, state);
      assert Viewed(tasks) == Viewed(init) + [ViewOf(last)];
      assert ByWorker(Viewed(tasks)) == ByWorker(Viewed(init)) + [Entry(last.workerId, last.state)];
      Tallies.CountOneMore(ByWorker(Viewed(init)), Entry(last.workerId, last.state));
    }
  }

  function Viewed(tasks: seq<Task>): seq<JobTask> {
    seq(|tasks|, i requires 0 <= i < |tasks| => ViewOf(tasks[i]))
  }

  /** What JobFromResponse makes of the coordinator's answer about a job of a reachable queue: its counters are
      the job's counts, and the workers' contributions add up to them in every state but "queued". */
  lemma ClientAgreesWithQueue(s: State, jobId: string, job: JobProgress, state: TaskState)
    requires Inv(s)
    requires var tasks := JobListing(s.order, s.tasks, jobId);
      && job.counts == TallyViews(Viewed(tasks))
      && StrictlySorted(Names(job.workers))
      && forall w :: w in Names(job.workers) <==> w != "" && exists i :: 0 <= i < |tasks| && tasks[i].workerId == w
    ensures var tasks := JobListing(s.order, s.tasks, jobId);
      && job.counts == TallyOf(tasks)
      && ResponseFor(jobId, tasks).tasks == Viewed(tasks)
      && (!state.Queued? ==> SumGroups(Names(job.workers), ByWorker(Viewed(tasks)), state) == CountIn(tasks, state))
  {
    hide Inv;
    var tasks := JobListing(s.order, s.tasks, jobId);
    var views := Viewed(tasks);
    forall st
      ensures CountAll(ByWorker(views), st) == CountIn(tasks, st)
    {
      ViewsCount(tasks, st);
    }
    if !state.Queued? {
      JobListingByIds(s.order, s.tasks, jobId);
      forall i | 0 <= i < |views| && !views[i].state.Queued?
        ensures views[i].workerId != ""
      {
        InvTask(s, JobIds(s.order, s.tasks, jobId)[i]);
      }
      assert forall i :: 0 <= i < |tasks| ==> views[i].workerId == tasks[i].workerId;
      ContributionsSumUp(views, Names(job.workers), state);
    }
  }
}
