/**
 Clients, workers and the coordinator in one run: submissions enqueue, workers claim, renew and resubmit over the
 lossy network, and the export speaks about what they delivered.
 */
module Deployment {
  import opened LeaseHistory
  import opened LeaseInvariants
  import opened LeaseModel
  import opened LeaseQueue
  import opened LeaseRuns
  import opened Monitor
  import opened Options
  import opened Views
  import opened Wire
  import Identifiers
  import Protocol
  import Submission

  datatype Deployment = Deployment(net: Protocol.Net, submissions: seq<Submission.Submission>)

  /** Enqueues happen in submissions only; everything else happens on the network's side. */
  datatype Step =
    | Submit(nanos: int, kind: string, tasks: seq<Submission.ManifestTask>)
    | EnqueueNext(k: nat)
    | OnNet(step: Protocol.Step)

  function BoardOf(x: Deployment): Submission.Board {
    Submission.Board(x.net.queue, x.submissions)
  }

  ghost predicate Enabled(x: Deployment, step: Step) {
    match step
    case Submit(_, _, tasks) => tasks != []
    case EnqueueNext(k) => Submission.CanStep(BoardOf(x), Submission.EnqueueNext(k))
    case OnNet(s) => Protocol.Enabled(x.net, s) && !(s.Elsewhere? && s.op.EnqueueOp?)
  }

  ghost function Next(x: Deployment, step: Step): Deployment
    requires Linked(x.net.queue) && Enabled(x, step)
  {
    match step
    case Submit(nanos, kind, tasks) =>
      x.(submissions := Submission.StepBoard(BoardOf(x), Submission.Submit(nanos, kind, tasks)).submissions)
    case EnqueueNext(k) =>
      var b := Submission.StepBoard(BoardOf(x), Submission.EnqueueNext(k));
      Deployment(x.net.(queue := b.queue), b.submissions)
    case OnNet(s) => x.(net := Protocol.Next(x.net, s))
  }

  function Start(duration: int, maxAttempts: int): Deployment {
    Deployment(Protocol.Start(duration, maxAttempts), [])
  }

  ghost predicate Possible(x: Deployment, steps: seq<Step>, x': Deployment)
    decreases |steps|
  {
    if steps == [] then x' == x
    else Linked(x.net.queue) && Enabled(x, steps[0]) && Possible(Next(x, steps[0]), steps[1..], x')
  }

  // ---- each side sees a run of its own ----

  ghost function NetSteps(x: Deployment, step: Step): seq<Protocol.Step>
    requires Enabled(x, step)
  {
    match step
    case Submit(_, _, _) => []
    case EnqueueNext(k) =>
      [Protocol.Elsewhere(EnqueueOp(Submission.SpecOf(x.submissions[k], x.submissions[k].next)))]
    case OnNet(s) => [s]
  }

  ghost function BoardSteps(x: Deployment, step: Step): seq<Submission.BoardStep>
    requires Enabled(x, step)
  {
    match step
    case Submit(nanos, kind, tasks) => [Submission.Submit(nanos, kind, tasks)]
    case EnqueueNext(k) => [Submission.EnqueueNext(k)]
    case OnNet(Elsewhere(op)) => [Submission.Other(op)]
    case OnNet(Deliver(r, now)) =>
      if Acceptable(r) then [Submission.Other(CompleteOp(r.taskId, r.leaseId, r.workerId, r.result, now))] else []
    case OnNet(_) => []
  }

  lemma NetFollows(x: Deployment, step: Step)
    requires Linked(x.net.queue) && Enabled(x, step)
    ensures Protocol.Possible(x.net, NetSteps(x, step), Next(x, step).net)
  {
    if step.OnNet? || step.EnqueueNext? {
      var s := NetSteps(x, step)[0];
      assert [s][1..] == [];
      assert Protocol.Next(x.net, s) == Next(x, step).net;
    }
  }

  lemma BoardFollows(x: Deployment, step: Step)
    requires Linked(x.net.queue) && Enabled(x, step)
    ensures Submission.Leads(BoardOf(x), BoardSteps(x, step), BoardOf(Next(x, step)))
  {
    if BoardSteps(x, step) != [] {
      var s := BoardSteps(x, step)[0];
      assert [s][1..] == [];
      assert Submission.StepBoard(BoardOf(x), s) == BoardOf(Next(x, step));
    }
  }

  lemma NetPrepend(a: Protocol.Net, first: seq<Protocol.Step>, b: Protocol.Net, rest: seq<Protocol.Step>, c: Protocol.Net)
    requires |first| <= 1 && Protocol.Possible(a, first, b) && Protocol.Possible(b, rest, c)
    ensures Protocol.Possible(a, first + rest, c)
  {
    if first == [] {
      assert first + rest == rest;
    } else {
      assert first[1..] == [] && (first + rest)[1..] == rest;
    }
  }

  lemma BoardPrepend(a: Submission.Board, first: seq<Submission.BoardStep>, b: Submission.Board,
                     rest: seq<Submission.BoardStep>, c: Submission.Board)
    requires |first| <= 1 && Submission.Leads(a, first, b) && Submission.Leads(b, rest, c)
    ensures Submission.Leads(a, first + rest, c)
  {
    if first == [] {
      assert first + rest == rest;
    } else {
      assert first[1..] == [] && (first + rest)[1..] == rest;
    }
  }

  lemma {:induction false} RunProjects(x: Deployment, steps: seq<Step>, x': Deployment)
    returns (netSteps: seq<Protocol.Step>, boardSteps: seq<Submission.BoardStep>)
    requires Possible(x, steps, x')
    ensures Protocol.Possible(x.net, netSteps, x'.net)
    ensures Submission.Leads(BoardOf(x), boardSteps, BoardOf(x'))
    decreases |steps|
  {
    if steps == [] {
      netSteps, boardSteps := [], [];
    } else {
      var next := Next(x, steps[0]);
      netSteps, boardSteps := RunProjects(next, steps[1..], x');
      NetFollows(x, steps[0]);
      BoardFollows(x, steps[0]);
      NetPrepend(x.net, NetSteps(x, steps[0]), next.net, netSteps, x'.net);
      BoardPrepend(BoardOf(x), BoardSteps(x, steps[0]), BoardOf(next), boardSteps, BoardOf(x'));
      netSteps, boardSteps := NetSteps(x, steps[0]) + netSteps, BoardSteps(x, steps[0]) + boardSteps;
    }
  }

  /** Every reachable deployment keeps the invariants of both sides. */
  lemma DeploymentReached(duration: int, maxAttempts: int, steps: seq<Step>, x: Deployment)
    requires 0 < duration && 0 < maxAttempts && Possible(Start(duration, maxAttempts), steps, x)
    ensures Protocol.NetInv(x.net) && Submission.BoardInv(BoardOf(x))
  {
    var netSteps, boardSteps := RunProjects(Start(duration, maxAttempts), steps, x);
    Protocol.NetReached(duration, maxAttempts, netSteps, x.net);
    Submission.BoardReached(duration, maxAttempts, boardSteps, BoardOf(x));
  }

  // ---- exported results were delivered ----

  /** Step j of a run, taken in state `m`, delivers `r` and is answered with `response`. */
  ghost predicate Gives(x: Deployment, steps: seq<Step>, j: nat, m: Deployment, a: Protocol.Answer)
    requires j < |steps|
  {
    && Possible(x, steps[..j], m) && Linked(m.net.queue)
    && steps[j].OnNet? && steps[j].step.Deliver?
    && a == Protocol.Answer(steps[j].step.request, HandleResult(m.net.queue, steps[j].step.request, steps[j].step.now).1)
  }

  lemma {:induction false} AnswersWereGiven(x: Deployment, steps: seq<Step>, x': Deployment, a: Protocol.Answer)
    requires Possible(x, steps, x') && a in x'.net.answers && a !in x.net.answers
    ensures exists j, m :: 0 <= j < |steps| && Gives(x, steps, j, m, a)
    decreases |steps|
  {
    if steps == [] {
    } else {
      var next := Next(x, steps[0]);
      if a in next.net.answers {
        assert steps[..0] == [];
        assert Gives(x, steps, 0, x, a);
      } else {
        AnswersWereGiven(next, steps[1..], x', a);
        var j, m :| 0 <= j < |steps[1..]| && Gives(next, steps[1..], j, m, a);
        assert steps[..j + 1][0] == steps[0] && steps[..j + 1][1..] == steps[1..][..j];
        assert Gives(x, steps, j + 1, m, a);
      }
    }
  }

  /** Step j of a run, taken in state `m`, delivers `r` while its sender holds the lease. */
  ghost predicate DeliversWhileHeld(x: Deployment, steps: seq<Step>, j: nat, m: Deployment, r: ResultRequest)
    requires j < |steps|
  {
    && Possible(x, steps[..j], m)
    && steps[j].OnNet? && steps[j].step.Deliver? && steps[j].step.request == r
    && HeldAt(m.net.queue, r.taskId, r.leaseId, r.workerId, steps[j].step.now)
  }

  /** The line shows this request's worker and result. */
  predicate LineFrom(decode: string -> Option<Submission.Probe>, line: Submission.ExportTask, r: ResultRequest) {
    r.workerId == line.worker && Submission.LineShows(decode, line, r.result.output, r.result.error)
  }

  /** Every report that a task's record shows was delivered while its sender held the lease. */
  lemma RecordedReportWasDelivered(duration: int, maxAttempts: int, steps: seq<Step>, x: Deployment, id: string, k: nat)
    requires 0 < duration && 0 < maxAttempts && Possible(Start(duration, maxAttempts), steps, x)
    requires k < |Endings(x.net.queue.log, id)| && Endings(x.net.queue.log, id)[k].report.Some?
    ensures var ending := Endings(x.net.queue.log, id)[k];
      exists r, j, m ::
        && r in x.net.sent && Acceptable(r) && r.result == ending.report.value
        && r.taskId == id && r.leaseId == ending.lease.id && r.workerId == ending.lease.workerId
        && 0 <= j < |steps| && DeliversWhileHeld(Start(duration, maxAttempts), steps, j, m, r)
  {
    hide Inv, HandleResult, Possible, HeldAt;
    var start, log := Start(duration, maxAttempts), x.net.queue.log;
    DeploymentReached(duration, maxAttempts, steps, x);
    EndingIsLogged(log, id, k);
    var i :| 0 <= i < |log| && Ends(log[i]) && log[i].lease.taskId == id && EndingBy(log[i]) == Endings(log, id)[k];
    assert Protocol.TakenFrom(x.net.answers, log[i].lease, log[i].result);
    var n :| 0 <= n < |x.net.answers| && Protocol.Took(x.net.answers[n], log[i].lease, log[i].result);
    var a := x.net.answers[n];
    AnswersWereGiven(start, steps, x, a);
    var j, m :| 0 <= j < |steps| && Gives(start, steps, j, m, a);
    DeploymentReached(duration, maxAttempts, steps[..j], m);
    ReportTaken(m.net.queue, a.request, steps[j].step.now);
    assert DeliversWhileHeld(start, steps, j, m, a.request);
  }

  /** The records of a job, as the queue lists them. */
  function JobOf(x: Deployment, nanos: int): seq<Task> {
    JobListing(x.net.queue.order, x.net.queue.tasks, Identifiers.JobId(nanos))
  }

  /** Line i is the export of a success that some worker delivered while it held the lease of the task. */
  ghost predicate WasDelivered(start: Deployment, steps: seq<Step>, x: Deployment, nanos: int, i: nat,
                               decode: string -> Option<Submission.Probe>, line: Submission.ExportTask) {
    exists r, j, m ::
      && r in x.net.sent && Acceptable(r) && r.result.error == ""
      && r.taskId == Identifiers.TaskId(nanos, i)
      && LineFrom(decode, line, r)
      && 0 <= j < |steps| && DeliversWhileHeld(start, steps, j, m, r)
  }

  /** A completed line comes from the success that ended the task's last lease. */
  lemma LastSuccess(b: Submission.Board, k: nat, i: nat, decode: string -> Option<Submission.Probe>,
                    line: Submission.ExportTask) returns (last: nat)
    requires k < |b.submissions| && i < |b.submissions[k].tasks|
    requires Submission.LineFollows(b, k, i, decode, line) && line.state.Completed?
    ensures var ends := Endings(b.queue.log, Identifiers.TaskId(b.submissions[k].nanos, i));
      last == |ends| - 1 && Succeeded(ends[last])
  {
    last := |Endings(b.queue.log, Identifiers.TaskId(b.submissions[k].nanos, i))| - 1;
  }

  lemma LineFromReport(b: Submission.Board, k: nat, i: nat, decode: string -> Option<Submission.Probe>,
                       line: Submission.ExportTask, last: nat, r: ResultRequest)
    requires k < |b.submissions| && i < |b.submissions[k].tasks|
    requires Submission.LineFollows(b, k, i, decode, line) && line.state.Completed?
    requires var id := Identifiers.TaskId(b.submissions[k].nanos, i);
             var ends := Endings(b.queue.log, id);
      && last == |ends| - 1 && Succeeded(ends[last])
      && r.taskId == id && r.workerId == ends[last].lease.workerId && r.result == ends[last].report.value
    ensures LineFrom(decode, line, r)
  {
  }

  /** Every completed line of the export is a success that some worker delivered while it held the task's lease:
      worker, output and error are those of that request. */
  lemma ExportedSuccessWasDelivered(duration: int, maxAttempts: int, steps: seq<Step>, x: Deployment, k: nat,
                                    decode: string -> Option<Submission.Probe>, progress: seq<TaskProgress>,
                                    lines: seq<Submission.ExportTask>, i: nat)
    requires 0 < duration && 0 < maxAttempts && Possible(Start(duration, maxAttempts), steps, x)
    requires k < |x.submissions| && Submission.ManifestOk(x.submissions[k].tasks)
    requires x.submissions[k].next == |x.submissions[k].tasks|
    requires var nanos := x.submissions[k].nanos;
             var response := ResponseFor(Identifiers.JobId(nanos), JobOf(x, nanos));
      && Finished(response.state) && ShowsEntries(progress, response.tasks)
      && Submission.IsExport(decode, progress, lines)
    requires i < |lines| && lines[i].state.Completed?
    ensures WasDelivered(Start(duration, maxAttempts), steps, x, x.submissions[k].nanos, i, decode, lines[i])
  {
    hide Inv, Possible, DeliversWhileHeld, Acceptable, LineFrom, Submission.LineFollows;
    var b := BoardOf(x);
    var _, boardSteps := RunProjects(Start(duration, maxAttempts), steps, x);
    Submission.ExportFollowsManifest(duration, maxAttempts, boardSteps, b, k, decode, progress, lines);
    var id := Identifiers.TaskId(x.submissions[k].nanos, i);
    var last := LastSuccess(b, k, i, decode, lines[i]);
    RecordedReportWasDelivered(duration, maxAttempts, steps, x, id, last);
    var r, j, m :|
      && r in x.net.sent && Acceptable(r) && r.result == Endings(x.net.queue.log, id)[last].report.value
      && r.taskId == id && r.workerId == Endings(x.net.queue.log, id)[last].lease.workerId
      && 0 <= j < |steps| && DeliversWhileHeld(Start(duration, maxAttempts), steps, j, m, r);
    LineFromReport(b, k, i, decode, lines[i], last, r);
  }

  // ---- the file that the client writes ----

  /** The client polls the job of submission `k` in states of one run, in their order and after the submission
      was answered: `at[i]` steps precede the answer to poll i, the expiry check of that poll among them. */
  ghost predicate PollsRun(start: Deployment, steps: seq<Step>, at: seq<nat>, polls: seq<Submission.Poll>,
                           states: seq<Deployment>, k: nat, nanos: int, manifest: seq<Submission.ManifestTask>) {
    && |at| == |polls| == |states|
    && (forall i, j :: 0 <= i < j < |at| ==> at[i] <= at[j])
    && (forall i :: 0 <= i < |at| ==>
          && at[i] <= |steps| && Possible(start, steps[..at[i]], states[i])
          && k < |states[i].submissions|
          && states[i].submissions[k].nanos == nanos && states[i].submissions[k].tasks == manifest
          && states[i].submissions[k].next == |manifest|
          && (polls[i].Polled? ==> polls[i].response == ResponseFor(Identifiers.JobId(nanos), JobOf(states[i], nanos))))
  }

  lemma AnswersAreCoordinators(start: Deployment, steps: seq<Step>, at: seq<nat>, polls: seq<Submission.Poll>,
                               states: seq<Deployment>, k: nat, nanos: int, manifest: seq<Submission.ManifestTask>, i: nat)
    requires PollsRun(start, steps, at, polls, states, k, nanos, manifest) && i < |polls| && polls[i].Polled?
    ensures Submission.FromCoordinator(polls[i].response)
  {
    assert polls[i].response == ResponseFor(polls[i].response.jobId, JobOf(states[i], nanos));
    assert polls[i].response.jobId[0] == 'p';
  }

  lemma LinesTellTheState(job: JobProgress, response: JobResponse, tasks: seq<Task>,
                          decode: string -> Option<Submission.Probe>, lines: seq<Submission.ExportTask>)
    requires response == ResponseFor(response.jobId, tasks) && job.state == response.state
    requires ShowsEntries(job.tasks, response.tasks) && Submission.IsExport(decode, job.tasks, lines)
    ensures job.state.JobCompleted? <==> forall i :: 0 <= i < |lines| ==> lines[i].state.Completed?
  {
    hide ResponseFor, Submission.LineShows;
    JobResponseMeans(response.jobId, tasks);
    forall i | 0 <= i < |lines|
      ensures lines[i].state == tasks[i].state
    {
      assert Submission.IsLine(decode, job.tasks[i], lines[i]) && ShowsEntry(job.tasks[i], response.tasks[i]);
    }
  }

  /** What the export of an ended job's answer says. */
  ghost predicate FileSays(start: Deployment, steps: seq<Step>, x: Deployment, k: nat, nanos: int,
                           manifest: seq<Submission.ManifestTask>, state: JobState,
                           decode: string -> Option<Submission.Probe>, lines: seq<Submission.ExportTask>)
    requires k < |x.submissions| && x.submissions[k].tasks == manifest
  {
    && |lines| == |manifest|
    && (state.JobCompleted? <==> forall i :: 0 <= i < |lines| ==> lines[i].state.Completed?)
    && (forall i, j :: 0 <= i < j < |lines| ==> lines[i].key != lines[j].key)
    && (forall i :: 0 <= i < |lines| ==>
          && lines[i].key == manifest[i].key
          && Submission.LineFollows(BoardOf(x), k, i, decode, lines[i])
          && (lines[i].state.Completed? ==> WasDelivered(start, steps, x, nanos, i, decode, lines[i])))
  }

  lemma ExportOfEndedJob(duration: int, maxAttempts: int, steps: seq<Step>, x: Deployment, k: nat, nanos: int,
                         manifest: seq<Submission.ManifestTask>, job: JobProgress, response: JobResponse,
                         decode: string -> Option<Submission.Probe>, lines: seq<Submission.ExportTask>)
    requires 0 < duration && 0 < maxAttempts && Submission.ManifestOk(manifest)
    requires Possible(Start(duration, maxAttempts), steps, x) && k < |x.submissions|
    requires var sub := x.submissions[k]; sub.nanos == nanos && sub.tasks == manifest && sub.next == |manifest|
    requires response == ResponseFor(Identifiers.JobId(nanos), JobOf(x, nanos)) && Finished(response.state)
    requires job.state == response.state && ShowsEntries(job.tasks, response.tasks)
    requires Submission.IsExport(decode, job.tasks, lines)
    ensures FileSays(Start(duration, maxAttempts), steps, x, k, nanos, manifest, job.state, decode, lines)
  {
    hide Inv, Possible, Submission.ManifestOk, Submission.LineFollows, WasDelivered, ShowsEntries;
    hide Submission.IsExport, ResponseFor;
    var _, boardSteps := RunProjects(Start(duration, maxAttempts), steps, x);
    Submission.ExportFollowsManifest(duration, maxAttempts, boardSteps, BoardOf(x), k, decode, job.tasks, lines);
    JobResponseMeans(Identifiers.JobId(nanos), JobOf(x, nanos));
    LinesTellTheState(job, response, JobOf(x, nanos), decode, lines);
    forall i | 0 <= i < |lines|
      ensures lines[i].key == manifest[i].key
      ensures lines[i].state.Completed? ==>
                WasDelivered(Start(duration, maxAttempts), steps, x, nanos, i, decode, lines[i])
    {
      Submission.LineHasKey(BoardOf(x), k, i, decode, lines[i]);
      if lines[i].state.Completed? {
        ExportedSuccessWasDelivered(duration, maxAttempts, steps, x, k, decode, job.tasks, lines, i);
      }
    }
  }

  /** From the manifest to the file.  Whatever the polls of a run returned and wherever the client's wait stopped,
      the client writes results exactly if it saw the job end, and what it writes lists the manifest: its keys in
      its order, each line the outcome of the task's last lease, each success one that its worker delivered while
      it held the lease. */
  lemma WrittenFileListsManifest(duration: int, maxAttempts: int, steps: seq<Step>, at: seq<nat>,
                                 polls: seq<Submission.Poll>, states: seq<Deployment>, k: nat, nanos: int,
                                 manifest: seq<Submission.ManifestTask>, seen: nat, ended: bool, job: JobProgress,
                                 startedAt: int, decode: string -> Option<Submission.Probe>,
                                 lines: seq<Submission.ExportTask>)
    requires 0 < duration && 0 < maxAttempts && Submission.ManifestOk(manifest)
    requires PollsRun(Start(duration, maxAttempts), steps, at, polls, states, k, nanos, manifest)
    requires Submission.Waited(polls, seen, ended, job, Identifiers.JobId(nanos), |manifest|, startedAt)
    requires Submission.IsExport(decode, job.tasks, lines)
    ensures Submission.WritesResults(job) <==> ended
    ensures ended ==>
              && 0 < seen <= |polls|
              && FileSays(Start(duration, maxAttempts), steps[..at[seen - 1]], states[seen - 1], k, nanos, manifest,
                          job.state, decode, lines)
  {
    hide Inv, Possible, Submission.ManifestOk, FileSays, Submission.FromCoordinator, ShowsEntries;
    hide Submission.IsExport, ResponseFor;
    forall i | 0 <= i < |polls| && polls[i].Polled?
      ensures Submission.FromCoordinator(polls[i].response)
    {
      AnswersAreCoordinators(Start(duration, maxAttempts), steps, at, polls, states, k, nanos, manifest, i);
    }
    Submission.ManifestTasksPresent(manifest);
    Submission.ResultsWrittenAtTheEnd(polls, seen, ended, job, Identifiers.JobId(nanos), |manifest|, startedAt);
    if ended {
      ExportOfEndedJob(duration, maxAttempts, steps[..at[seen - 1]], states[seen - 1], k, nanos, manifest,
                       job, polls[seen - 1].response, decode, lines);
    }
  }
}
