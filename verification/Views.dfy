/**
 The derived views: state counts, job responses, the coordinator's monitor and the client's progress.
 Each is computed by its own loop over a list of task records; here they are tied to one notion of counting.
 */
module Views {
  import opened Options
  import opened LeaseModel
  import opened LeaseInvariants
  import opened LeaseQueue

  // ---- counting ----

  function CountIn(tasks: seq<Task>, state: TaskState): nat {
    if tasks == [] then 0
    else CountIn(tasks[..|tasks| - 1], state) + if tasks[|tasks| - 1].state == state then 1 else 0
  }

  lemma CountOne(tasks: seq<Task>, i: nat, state: TaskState)
    requires i < |tasks|
    ensures CountIn(tasks[..i + 1], state) == CountIn(tasks[..i], state) + if tasks[i].state == state then 1 else 0
  {
    assert tasks[..i + 1][..i] == tasks[..i];
  }

  predicate HasState(tasks: seq<Task>, state: TaskState) {
    exists i :: 0 <= i < |tasks| && tasks[i].state == state
  }

  lemma {:induction false} CountsSumUp(tasks: seq<Task>)
    ensures CountIn(tasks, Queued) + CountIn(tasks, Leased) + CountIn(tasks, Completed) + CountIn(tasks, Failed) == |tasks|
    ensures forall st :: CountIn(tasks, st) > 0 <==> HasState(tasks, st)
  {
    if tasks == [] {
    } else {
      var init, last := tasks[..|tasks| - 1], tasks[|tasks| - 1];
      CountsSumUp(init);
      assert forall i :: 0 <= i < |init| ==> init[i] == tasks[i];
      forall st
        ensures HasState(tasks, st) <==> HasState(init, st) || last.state == st
      {
        if HasState(init, st) {
          var i :| 0 <= i < |init| && init[i].state == st;
          assert tasks[i].state == st;
        }
      }
    }
  }

  /** countTaskStates */
  method CountTaskStates(tasks: seq<Task>) returns (stats: QueueStats)
    ensures stats == QueueStats(CountIn(tasks, Queued), CountIn(tasks, Leased), CountIn(tasks, Completed),
                                CountIn(tasks, Failed), |tasks|)
    ensures stats.queued + stats.leased + stats.completed + stats.failed == stats.total
  {
    var q, l, c, f := 0, 0, 0, 0;
    for i := 0 to |tasks|
      invariant q == CountIn(tasks[..i], Queued) && l == CountIn(tasks[..i], Leased)
      invariant c == CountIn(tasks[..i], Completed) && f == CountIn(tasks[..i], Failed)
    {
      CountOne(tasks, i, Queued);
      CountOne(tasks, i, Leased);
      CountOne(tasks, i, Completed);
      CountOne(tasks, i, Failed);
      match tasks[i].state {
        case Queued => q := q + 1;
        case Leased => l := l + 1;
        case Completed => c := c + 1;
        case Failed => f := f + 1;
      }
    }
    assert tasks[..|tasks|] == tasks;
    CountsSumUp(tasks);
    stats := QueueStats(q, l, c, f, |tasks|);
  }

  ghost function Among(ids: seq<string>, tasks: map<string, Task>, state: TaskState): set<string> {
    set id | id in ids && id in tasks && tasks[id].state == state
  }

  lemma AmongOne(ids: seq<string>, last: string, tasks: map<string, Task>, state: TaskState)
    requires last !in ids && last in tasks
    ensures |Among(ids + [last], tasks, state)|
         == |Among(ids, tasks, state)| + if tasks[last].state == state then 1 else 0
  {
    assert Among(ids + [last], tasks, state)
        == Among(ids, tasks, state) + if tasks[last].state == state then {last} else {};
  }

  lemma {:induction false} ListingCounts(ids: seq<string>, tasks: map<string, Task>, state: TaskState)
    requires NoDuplicates(ids) && forall id :: id in ids ==> id in tasks
    ensures CountIn(Listing(ids, tasks), state) == |Among(ids, tasks, state)|
  {
    if ids == [] {
      assert Among(ids, tasks, state) == {};
    } else {
      var init, last := ids[..|ids| - 1], ids[|ids| - 1];
      assert ids == init + [last];
      assert Listing(ids, tasks)[..|ids| - 1] == Listing(init, tasks);
      assert Listing(ids, tasks)[|ids| - 1] == tasks[last];
      ListingCounts(init, tasks, state);
      AmongOne(init, last, tasks, state);
    }
  }

  /** The queue's own statistics over its map are the counts over its ordered snapshot. */
  lemma StatsAgree(s: State, stats: QueueStats)
    requires Inv(s) && StatsOf(stats, s.tasks)
    ensures forall id :: id in s.order ==> id in s.tasks
    ensures var tasks := Listing(s.order, s.tasks);
      stats == QueueStats(CountIn(tasks, Queued), CountIn(tasks, Leased), CountIn(tasks, Completed),
                          CountIn(tasks, Failed), |tasks|)
  {
    InvLists(s);
    forall state
      ensures CountIn(Listing(s.order, s.tasks), state) == |InState(s.tasks, state)|
    {
      ListingCounts(s.order, s.tasks, state);
      assert InState(s.tasks, state) == Among(s.order, s.tasks, state);
    }
    DistinctCount(s.order);
    assert (set id | id in s.order) == s.tasks.Keys;
  }

  lemma {:induction false} DistinctCount(ids: seq<string>)
    requires NoDuplicates(ids)
    ensures |set id | id in ids| == |ids|
  {
    if ids == [] {
    } else {
      var init := ids[..|ids| - 1];
      DistinctCount(init);
      assert (set id | id in ids) == (set id | id in init) + {ids[|ids| - 1]};
    }
  }

  // ---- the state of a job ----

  datatype JobState = JobQueued | JobRunning | JobCompleted | JobFailed

  datatype JobTask = JobTask(taskId: string, key: string, state: TaskState, attempts: int,
                             workerId: string, result: Option<Result>)

  datatype JobResponse = JobResponse(jobId: string, state: JobState, tasks: seq<JobTask>)

  predicate AllEnded(tasks: seq<Task>) {
    forall i :: 0 <= i < |tasks| ==> Terminal(tasks[i])
  }

  predicate AnyFailed(tasks: seq<Task>) {
    exists i :: 0 <= i < |tasks| && tasks[i].state.Failed?
  }

  predicate AnyStarted(tasks: seq<Task>) {
    exists i :: 0 <= i < |tasks| && tasks[i].attempts > 0
  }

  /** The job state that clients are told. */
  function ReportedState(tasks: seq<Task>): JobState {
    if AllEnded(tasks) then (if AnyFailed(tasks) then JobFailed else JobCompleted)
    else if AnyStarted(tasks) then JobRunning
    else JobQueued
  }

  function ViewOf(t: Task): JobTask {
    JobTask(t.spec.id, t.spec.key, t.state, t.attempts, t.workerId, t.result)
  }

  function ResponseFor(jobId: string, tasks: seq<Task>): JobResponse {
    JobResponse(jobId, ReportedState(tasks), seq(|tasks|, i requires 0 <= i < |tasks| => ViewOf(tasks[i])))
  }

  /** The response entry of a task. */
  predicate Entry(v: JobTask, t: Task) {
    && v.taskId == t.spec.id && v.key == t.spec.key && v.state == t.state && v.attempts == t.attempts
    && v.workerId == t.workerId && v.result == t.result
  }

  /** What a job response says: the tasks in order, each with its own ID, key, state, attempts, worker and result;
      and the state, by which tasks have ended, failed, or been tried. */
  lemma JobResponseMeans(jobId: string, tasks: seq<Task>)
    ensures var r := ResponseFor(jobId, tasks);
      && r.jobId == jobId
      && |r.tasks| == |tasks| && (forall i :: 0 <= i < |tasks| ==> Entry(r.tasks[i], tasks[i]))
      && (r.state == JobCompleted <==> forall i :: 0 <= i < |tasks| ==> tasks[i].state == Completed)
      && (r.state == JobFailed <==>
            && (forall i :: 0 <= i < |tasks| ==> tasks[i].state == Completed || tasks[i].state == Failed)
            && (exists i :: 0 <= i < |tasks| && tasks[i].state == Failed))
      && (r.state == JobRunning <==>
            && (exists i :: 0 <= i < |tasks| && (tasks[i].state == Queued || tasks[i].state == Leased))
            && (exists i :: 0 <= i < |tasks| && tasks[i].attempts > 0))
  {
    if AllEnded(tasks) {
      assert AnyFailed(tasks) || forall i :: 0 <= i < |tasks| ==> tasks[i].state == Completed;
    } else {
      var i :| 0 <= i < |tasks| && !Terminal(tasks[i]);
      assert tasks[i].state == Queued || tasks[i].state == Leased;
    }
  }

  datatype JobReply = IdMissing | NotFound | Found(response: JobResponse)

  /** handlePullJob on the job's tasks. */
  method PullJob(jobId: string, tasks: seq<Task>) returns (reply: JobReply)
    ensures reply == if jobId == "" then IdMissing else if tasks == [] then NotFound else Found(ResponseFor(jobId, tasks))
  {
    if jobId == "" {
      return IdMissing;
    }
    if |tasks| == 0 {
      return NotFound;
    }
    var allTerminal, anyFailed, started := true, false, false;
    var views := [];
    for i := 0 to |tasks|
      invariant allTerminal == AllEnded(tasks[..i]) && anyFailed == AnyFailed(tasks[..i])
      invariant started == AnyStarted(tasks[..i])
      invariant |views| == i && forall k :: 0 <= k < i ==> views[k] == ViewOf(tasks[k])
    {
      var task := tasks[i];
      assert tasks[..i + 1] == tasks[..i] + [task];
      assert (tasks[..i] + [task])[i] == task;
      assert forall k :: 0 <= k < i ==> (tasks[..i] + [task])[k] == tasks[..i][k];
      if task.state != Completed && task.state != Failed {
        allTerminal := false;
      }
      if task.state == Failed {
        anyFailed := true;
      }
      if task.attempts > 0 {
        started := true;
      }
      views := views + [ViewOf(task)];
    }
    assert tasks[..|tasks|] == tasks;
    assert views == ResponseFor(jobId, tasks).tasks;
    var state := JobQueued;
    if allTerminal {
      state := if anyFailed then JobFailed else JobCompleted;
    } else if started {
      state := JobRunning;
    }
    reply := Found(JobResponse(jobId, state, views));
  }

  /** The job state that the coordinator's monitor derives from its counters. */
  function MonitoredState(queued: nat, running: nat, completed: nat, failed: nat, total: nat): JobState {
    if failed > 0 && completed + failed == total then JobFailed
    else if completed == total then JobCompleted
    else if running > 0 || completed > 0 || failed > 0 then JobRunning
    else JobQueued
  }

  function MonitorState(tasks: seq<Task>): JobState {
    MonitoredState(CountIn(tasks, Queued), CountIn(tasks, Leased), CountIn(tasks, Completed), CountIn(tasks, Failed), |tasks|)
  }

  predicate Finished(state: JobState) {
    state.JobCompleted? || state.JobFailed?
  }

  /** Records as a reachable queue holds them. */
  predicate RecordsOk(tasks: seq<Task>, maxAttempts: int) {
    forall i :: 0 <= i < |tasks| ==> TaskOk(tasks[i], tasks[i].spec.id, maxAttempts)
  }

  /** The client's own end-of-job test on the counts it received. */
  predicate ClientSeesEnd(tasks: seq<Task>) {
    CountIn(tasks, Completed) + CountIn(tasks, Failed) == |tasks|
  }

  lemma CountsAndQuantifiers(tasks: seq<Task>)
    ensures AllEnded(tasks) <==> CountIn(tasks, Queued) == 0 && CountIn(tasks, Leased) == 0
    ensures AnyFailed(tasks) <==> CountIn(tasks, Failed) > 0
    ensures ClientSeesEnd(tasks) <==> AllEnded(tasks)
  {
    CountsSumUp(tasks);
    assert AnyFailed(tasks) <==> HasState(tasks, Failed);
    assert AllEnded(tasks) <==> !HasState(tasks, Queued) && !HasState(tasks, Leased);
  }

  /** All derivations agree on when and how a job ended.  The only other disagreement is a job all of whose
      tasks wait after some were tried: clients are told "running", the monitor says "queued". */
  lemma DerivationsAgree(tasks: seq<Task>, maxAttempts: int)
    requires tasks != [] && RecordsOk(tasks, maxAttempts)
    ensures Finished(ReportedState(tasks)) <==> Finished(MonitorState(tasks))
    ensures Finished(ReportedState(tasks)) <==> ClientSeesEnd(tasks)
    ensures Finished(ReportedState(tasks)) ==> MonitorState(tasks) == ReportedState(tasks)
    ensures ReportedState(tasks) != MonitorState(tasks)
       <==> (forall i :: 0 <= i < |tasks| ==> tasks[i].state.Queued?) && AnyStarted(tasks)
    ensures ReportedState(tasks) != MonitorState(tasks) ==>
              ReportedState(tasks) == JobRunning && MonitorState(tasks) == JobQueued
  {
    CountsSumUp(tasks);
    CountsAndQuantifiers(tasks);
    AllQueuedCounts(tasks);
    if !AnyStarted(tasks) {
      forall i | 0 <= i < |tasks|
        ensures tasks[i].state.Queued?
      {
        assert TaskOk(tasks[i], tasks[i].spec.id, maxAttempts);
      }
    }
  }

  lemma AllQueuedCounts(tasks: seq<Task>)
    ensures (forall i :: 0 <= i < |tasks| ==> tasks[i].state.Queued?) <==> CountIn(tasks, Queued) == |tasks|
  {
    CountsSumUp(tasks);
    assert (forall i :: 0 <= i < |tasks| ==> tasks[i].state.Queued?)
      <==> !HasState(tasks, Leased) && !HasState(tasks, Completed) && !HasState(tasks, Failed);
  }

  /** What the monitor says of a job. */
  lemma MonitorStateMeans(tasks: seq<Task>)
    ensures MonitorState(tasks) == JobCompleted <==> forall i :: 0 <= i < |tasks| ==> tasks[i].state == Completed
    ensures MonitorState(tasks) == JobFailed <==>
              && (forall i :: 0 <= i < |tasks| ==> tasks[i].state == Completed || tasks[i].state == Failed)
              && (exists i :: 0 <= i < |tasks| && tasks[i].state == Failed)
    ensures MonitorState(tasks) == JobQueued <==> tasks != [] && forall i :: 0 <= i < |tasks| ==> tasks[i].state == Queued
  {
    CountsSumUp(tasks);
    AllQueuedCounts(tasks);
    assert (forall i :: 0 <= i < |tasks| ==> tasks[i].state == Completed)
      <==> !HasState(tasks, Queued) && !HasState(tasks, Leased) && !HasState(tasks, Failed);
    assert (forall i :: 0 <= i < |tasks| ==> tasks[i].state == Completed || tasks[i].state == Failed)
      <==> !HasState(tasks, Queued) && !HasState(tasks, Leased);
    assert (exists i :: 0 <= i < |tasks| && tasks[i].state == Failed) <==> HasState(tasks, Failed);
  }
}
