/**
 From a manifest to its exported results: validation, the coordinator's enqueue loop (which is not
 atomic), and the document the client writes.
 */
module Submission {
  import opened Options
  import opened LeaseHistory
  import opened LeaseModel
  import opened LeaseInvariants
  import opened LeaseRuns
  import opened LeaseQueue
  import opened Views
  import opened Wire
  import opened Monitor
  import opened Jobs
  import opened Identifiers
  import opened Text

  // ---- validation ----

  datatype ManifestTask = ManifestTask(key: string, input: string)

  const MAX_TASKS := 1000
  const MAX_KEY := 128
  const MAX_INPUT := 4096

  predicate TaskOkay(t: ManifestTask) {
    !Blank(t.key) && ByteLength(t.key) <= 128 && t.input != "" && ByteLength(t.input) <= 4096
  }

  ghost predicate ManifestOk(tasks: seq<ManifestTask>) {
    && 1 <= |tasks| <= 1000
    && (forall i :: 0 <= i < |tasks| ==> TaskOkay(tasks[i]))
    && (forall i, j :: 0 <= i < j < |tasks| ==> tasks[i].key != tasks[j].key)
  }

  /** ValidateTasks accepts exactly the well-formed task lists. */
  method ValidateTasks(tasks: seq<ManifestTask>) returns (ok: bool)
    ensures ok <==> ManifestOk(tasks)
  {
    if |tasks| == 0 || |tasks| > MAX_TASKS {
      return false;
    }
    var keys: set<string> := {};
    for i := 0 to |tasks|
      invariant forall j :: 0 <= j < i ==> TaskOkay(tasks[j]) && tasks[j].key in keys
      invariant forall k :: k in keys ==> exists j :: 0 <= j < i && tasks[j].key == k
      invariant forall j, k :: 0 <= j < k < i ==> tasks[j].key != tasks[k].key
    {
      hide TrimSpace, Blank, ByteLength;
      var task := tasks[i];
      TrimmedBlank(task.key);
      if TrimSpace(task.key) == "" || ByteLength(task.key) > MAX_KEY {
        return false;
      }
      if task.key in keys {
        return false;
      }
      keys := keys + {task.key};
      if |task.input| == 0 || ByteLength(task.input) > MAX_INPUT {
        return false;
      }
    }
    return true;
  }

  /** ValidateSimpleInputs */
  method ValidateSimpleInputs(inputs: seq<string>) returns (ok: bool)
    ensures ok <==> 1 <= |inputs| <= 1000 && forall i :: 0 <= i < |inputs| ==> ByteLength(inputs[i]) <= 4096
  {
    if |inputs| == 0 || |inputs| > MAX_TASKS {
      return false;
    }
    for i := 0 to |inputs|
      invariant forall j :: 0 <= j < i ==> ByteLength(inputs[j]) <= MAX_INPUT
    {
      if ByteLength(inputs[i]) > MAX_INPUT {
        return false;
      }
    }
    return true;
  }

  // ---- submissions in progress ----

  /** A validated submission whose job ID was drawn from the clock reading `nanos`; its first `next` tasks
      have been enqueued.  An enqueue error aborts it. */
  datatype Submission = Submission(nanos: int, kind: string, tasks: seq<ManifestTask>, next: nat, aborted: bool)

  datatype Board = Board(queue: State, submissions: seq<Submission>)

  /** The queue's lock is free between the enqueues of a submission. */
  datatype BoardStep =
    | Submit(nanos: int, kind: string, tasks: seq<ManifestTask>)
    | EnqueueNext(k: nat)
    | Other(op: Op)

  function SpecOf(sub: Submission, i: nat): TaskSpec
    requires i < |sub.tasks|
  {
    TaskSpec(TaskId(sub.nanos, i), JobId(sub.nanos), sub.tasks[i].key, sub.kind, sub.tasks[i].input)
  }

  predicate CanStep(b: Board, step: BoardStep) {
    match step
    case Submit(_, _, tasks) => tasks != []
    case EnqueueNext(k) =>
      k < |b.submissions| && !b.submissions[k].aborted && b.submissions[k].next < |b.submissions[k].tasks|
    case Other(op) => !op.EnqueueOp?
  }

  function StepBoard(b: Board, step: BoardStep): Board
    requires Linked(b.queue) && CanStep(b, step)
  {
    match step
    case Submit(nanos, kind, tasks) => b.(submissions := b.submissions + [Submission(nanos, kind, tasks, 0, false)])
    case EnqueueNext(k) =>
      var sub := b.submissions[k];
      var (queue, error) := Enqueue(b.queue, SpecOf(sub, sub.next));
      if error.Some? then b.(submissions := b.submissions[k := sub.(aborted := true)])
      else Board(queue, b.submissions[k := sub.(next := sub.next + 1)])
    case Other(op) => b.(queue := Apply(b.queue, op))
  }

  ghost predicate Leads(b: Board, steps: seq<BoardStep>, b': Board)
    decreases |steps|
  {
    if steps == [] then b' == b
    else Linked(b.queue) && CanStep(b, steps[0]) && Leads(StepBoard(b, steps[0]), steps[1..], b')
  }

  function FirstIds(nanos: int, n: nat): seq<string> {
    seq(n, i requires 0 <= i < n => TaskId(nanos, i))
  }

  // ---- the invariant ----

  /** Every task was enqueued by some submission. */
  ghost predicate FromSubmission(b: Board, id: string) {
    exists k, i :: 0 <= k < |b.submissions| && 0 <= i < b.submissions[k].next && id == TaskId(b.submissions[k].nanos, i)
  }

  ghost predicate SubmissionOk(b: Board, k: nat)
    requires k < |b.submissions|
  {
    var sub := b.submissions[k];
    && sub.next <= |sub.tasks|
    && (sub.aborted ==> sub.next == 0)
    && (forall i :: 0 <= i < sub.next ==>
          TaskId(sub.nanos, i) in b.queue.tasks && b.queue.tasks[TaskId(sub.nanos, i)].spec == SpecOf(sub, i))
    && (0 < sub.next ==> JobIds(b.queue.order, b.queue.tasks, JobId(sub.nanos)) == FirstIds(sub.nanos, sub.next))
  }

  ghost predicate OneJobPerReading(b: Board) {
    forall k, k' | 0 <= k < |b.submissions| && 0 <= k' < |b.submissions| && k != k'
        && 0 < b.submissions[k].next && 0 < b.submissions[k'].next ::
      b.submissions[k].nanos != b.submissions[k'].nanos
  }

  ghost predicate BoardInv(b: Board)
    ensures BoardInv(b) ==> Linked(b.queue)
  {
    && Inv(b.queue)
    && (forall id :: id in b.queue.tasks ==> FromSubmission(b, id))
    && (forall k :: 0 <= k < |b.submissions| ==> SubmissionOk(b, k))
    && OneJobPerReading(b)
  }

  /** No submission is lost, renamed, or set back. */
  predicate Grows(b: Board, b': Board) {
    && |b.submissions| <= |b'.submissions|
    && forall k :: 0 <= k < |b.submissions| ==>
         b'.submissions[k].nanos == b.submissions[k].nanos && b.submissions[k].next <= b'.submissions[k].next
  }

  lemma FromSubmissionKept(b: Board, b': Board, id: string)
    requires FromSubmission(b, id) && Grows(b, b')
    ensures FromSubmission(b', id)
  {
    var k, i :| 0 <= k < |b.submissions| && 0 <= i < b.submissions[k].next && id == TaskId(b.submissions[k].nanos, i);
    assert b'.submissions[k].nanos == b.submissions[k].nanos && i < b'.submissions[k].next;
  }

  lemma OtherKeeps(b: Board, op: Op)
    requires BoardInv(b) && !op.EnqueueOp?
    ensures BoardInv(StepBoard(b, Other(op)))
  {
    hide Inv, Apply, FromSubmission;
    var b' := StepBoard(b, Other(op));
    ApplyFollows(b.queue, op);
    OnlyEnqueueAdds(b.queue, op);
    SameKeys(b.queue, b'.queue);
    forall id | id in b'.queue.tasks
      ensures FromSubmission(b', id)
    {
      FromSubmissionKept(b, b', id);
    }
    forall k | 0 <= k < |b'.submissions|
      ensures SubmissionOk(b', k)
    {
      assert SubmissionOk(b, k);
      JobIdsBySpecs(b.queue.order, b.queue.tasks, b'.queue.tasks, JobId(b.submissions[k].nanos));
    }
  }

  lemma SameKeys(s: State, s': State)
    requires Inv(s) && Inv(s') && s'.order == s.order
    ensures forall id :: id in s.tasks <==> id in s'.tasks
    ensures forall id :: id in s.tasks <==> id in s.order
  {
  }

  lemma SubmitKeeps(b: Board, nanos: int, kind: string, tasks: seq<ManifestTask>)
    requires BoardInv(b) && tasks != []
    ensures BoardInv(StepBoard(b, Submit(nanos, kind, tasks)))
  {
    hide Inv;
    var b' := StepBoard(b, Submit(nanos, kind, tasks));
    forall id | id in b'.queue.tasks
      ensures FromSubmission(b', id)
    {
      FromSubmissionKept(b, b', id);
    }
    forall k | 0 <= k < |b'.submissions|
      ensures SubmissionOk(b', k)
    {
      if k < |b.submissions| {
        assert SubmissionOk(b, k);
      }
    }
  }

  /** Another submission with the same clock reading got its first task in before. */
  ghost predicate Beaten(b: Board, k: nat)
    requires k < |b.submissions|
  {
    exists k' :: 0 <= k' < |b.submissions| && k' != k && 0 < b.submissions[k'].next
      && b.submissions[k'].nanos == b.submissions[k].nanos
  }

  /** The next task of a submission already exists exactly when the submission was beaten to its job ID. */
  lemma CollisionMeansBeaten(b: Board, k: nat)
    requires BoardInv(b) && CanStep(b, EnqueueNext(k))
    ensures TaskId(b.submissions[k].nanos, b.submissions[k].next) in b.queue.tasks <==> Beaten(b, k)
    ensures Beaten(b, k) ==> b.submissions[k].next == 0
  {
    hide Inv;
    var sub := b.submissions[k];
    var id := TaskId(sub.nanos, sub.next);
    if id in b.queue.tasks {
      assert FromSubmission(b, id);
      var k', i :| 0 <= k' < |b.submissions| && 0 <= i < b.submissions[k'].next && id == TaskId(b.submissions[k'].nanos, i);
      TaskIdInjective(sub.nanos, sub.next, b.submissions[k'].nanos, i);
    }
    if Beaten(b, k) {
      var k' :| 0 <= k' < |b.submissions| && k' != k && 0 < b.submissions[k'].next
        && b.submissions[k'].nanos == sub.nanos;
      assert SubmissionOk(b, k') && sub.next == 0;
    }
  }

  lemma NotBeatenIsFirst(b: Board, k: nat)
    requires BoardInv(b) && k < |b.submissions| && !Beaten(b, k) && b.submissions[k].next == 0
    ensures JobIds(b.queue.order, b.queue.tasks, JobId(b.submissions[k].nanos)) == []
  {
    hide Inv;
    var nanos := b.submissions[k].nanos;
    forall id | id in b.queue.tasks
      ensures b.queue.tasks[id].spec.jobId != JobId(nanos)
    {
      assert FromSubmission(b, id);
      var k', i :| 0 <= k' < |b.submissions| && 0 <= i < b.submissions[k'].next && id == TaskId(b.submissions[k'].nanos, i);
      assert SubmissionOk(b, k');
      if b.queue.tasks[id].spec.jobId == JobId(nanos) {
        JobIdInjective(b.submissions[k'].nanos, nanos);
      }
    }
    NoJobIds(b.queue.order, b.queue.tasks, JobId(nanos));
  }

  lemma EnqueueKeeps(b: Board, k: nat)
    requires BoardInv(b) && CanStep(b, EnqueueNext(k))
    ensures BoardInv(StepBoard(b, EnqueueNext(k)))
  {
    hide Inv;
    CollisionMeansBeaten(b, k);
    if Beaten(b, k) {
      AbortKeeps(b, k);
    } else {
      AdvanceKeeps(b, k);
    }
  }

  lemma AbortKeeps(b: Board, k: nat)
    requires BoardInv(b) && CanStep(b, EnqueueNext(k)) && b.submissions[k].next == 0
    requires TaskId(b.submissions[k].nanos, b.submissions[k].next) in b.queue.tasks
    ensures BoardInv(StepBoard(b, EnqueueNext(k)))
  {
    hide Inv, FromSubmission;
    var b' := StepBoard(b, EnqueueNext(k));
    forall id | id in b'.queue.tasks
      ensures FromSubmission(b', id)
    {
      FromSubmissionKept(b, b', id);
    }
    forall m | 0 <= m < |b'.submissions|
      ensures SubmissionOk(b', m)
    {
      assert SubmissionOk(b, m);
    }
  }

  lemma AdvanceKeeps(b: Board, k: nat)
    requires BoardInv(b) && CanStep(b, EnqueueNext(k)) && !Beaten(b, k)
    requires TaskId(b.submissions[k].nanos, b.submissions[k].next) !in b.queue.tasks
    ensures BoardInv(StepBoard(b, EnqueueNext(k)))
  {
    hide Inv, SubmissionOk, FromSubmission, OneJobPerReading;
    var b' := StepBoard(b, EnqueueNext(k));
    var sub := b.submissions[k];
    ApplyFollows(b.queue, EnqueueOp(SpecOf(sub, sub.next)));
    AdvanceKeepsOrigin(b, k);
    AdvanceKeepsReadings(b, k);
    forall m | 0 <= m < |b'.submissions|
      ensures SubmissionOk(b', m)
    {
      AdvanceKeepsEach(b, k, m);
    }
  }

  lemma AdvanceKeepsOrigin(b: Board, k: nat)
    requires BoardInv(b) && CanStep(b, EnqueueNext(k))
    requires TaskId(b.submissions[k].nanos, b.submissions[k].next) !in b.queue.tasks
    ensures forall id :: id in StepBoard(b, EnqueueNext(k)).queue.tasks ==> FromSubmission(StepBoard(b, EnqueueNext(k)), id)
  {
    hide Inv;
    var b' := StepBoard(b, EnqueueNext(k));
    var next := b.submissions[k].next;
    forall id | id in b'.queue.tasks
      ensures FromSubmission(b', id)
    {
      if id in b.queue.tasks {
        FromSubmissionKept(b, b', id);
      } else {
        assert id == TaskId(b'.submissions[k].nanos, next) && next < b'.submissions[k].next;
      }
    }
  }

  lemma AdvanceKeepsReadings(b: Board, k: nat)
    requires BoardInv(b) && CanStep(b, EnqueueNext(k)) && !Beaten(b, k)
    ensures OneJobPerReading(StepBoard(b, EnqueueNext(k)))
  {
    hide Inv, SubmissionOk, FromSubmission;
  }

  lemma AdvanceKeepsEach(b: Board, k: nat, m: nat)
    requires BoardInv(b) && CanStep(b, EnqueueNext(k)) && !Beaten(b, k) && m < |b.submissions|
    requires TaskId(b.submissions[k].nanos, b.submissions[k].next) !in b.queue.tasks
    ensures SubmissionOk(StepBoard(b, EnqueueNext(k)), m)
  {
    hide Inv, StepBoard;
    if m == k {
      AdvanceKeepsOwn(b, k);
    } else {
      AdvanceKeepsOther(b, k, m);
    }
  }

  lemma AdvanceKeepsOwn(b: Board, k: nat)
    requires BoardInv(b) && CanStep(b, EnqueueNext(k)) && !Beaten(b, k)
    requires TaskId(b.submissions[k].nanos, b.submissions[k].next) !in b.queue.tasks
    ensures SubmissionOk(StepBoard(b, EnqueueNext(k)), k)
  {
    hide Inv, FromSubmission, OneJobPerReading, JobIds, TaskId, JobId;
    assert SubmissionOk(b, k);
    var sub := b.submissions[k];
    var spec := SpecOf(sub, sub.next);
    TaskIdIsNamed(sub.nanos, sub.next);
    if sub.next == 0 {
      NotBeatenIsFirst(b, k);
    }
    JobIdsAdvance(b.queue, spec);
    assert FirstIds(sub.nanos, sub.next) + [spec.id] == FirstIds(sub.nanos, sub.next + 1);
  }

  lemma TaskIdIsNamed(nanos: int, i: nat)
    ensures TaskId(nanos, i) != ""
  {
  }

  lemma AdvanceKeepsOther(b: Board, k: nat, m: nat)
    requires BoardInv(b) && CanStep(b, EnqueueNext(k)) && !Beaten(b, k) && m < |b.submissions| && m != k
    requires TaskId(b.submissions[k].nanos, b.submissions[k].next) !in b.queue.tasks
    ensures SubmissionOk(StepBoard(b, EnqueueNext(k)), m)
  {
    hide Inv, FromSubmission, OneJobPerReading, JobIds, FirstIds;
    assert SubmissionOk(b, m);
    var sub, other := b.submissions[k], b.submissions[m];
    if 0 < other.next {
      if JobId(other.nanos) == JobId(sub.nanos) {
        JobIdInjective(other.nanos, sub.nanos);
      }
      EnqueueOfOthers(b.queue, SpecOf(sub, sub.next), JobId(other.nanos));
    }
  }

  lemma JobIdsAdvance(s: State, spec: TaskSpec)
    requires Inv(s) && spec.id != "" && spec.id !in s.tasks
    ensures var s' := Enqueue(s, spec).0;
      JobIds(s'.order, s'.tasks, spec.jobId) == JobIds(s.order, s.tasks, spec.jobId) + [spec.id]
  {
    InvLists(s);
    hide Inv;
    var s' := Enqueue(s, spec).0;
    JobIdsOneMore(s.order, spec.id, s'.tasks, spec.jobId);
    JobIdsBySpecs(s.order, s.tasks, s'.tasks, spec.jobId);
  }

  lemma BoardStepKeeps(b: Board, step: BoardStep)
    requires BoardInv(b) && CanStep(b, step)
    ensures BoardInv(StepBoard(b, step))
  {
    hide Inv;
    match step
    case Submit(nanos, kind, tasks) => SubmitKeeps(b, nanos, kind, tasks);
    case EnqueueNext(k) => EnqueueKeeps(b, k);
    case Other(op) => OtherKeeps(b, op);
  }

  lemma {:induction false} LeadsKeeps(b: Board, steps: seq<BoardStep>, b': Board)
    requires BoardInv(b) && Leads(b, steps, b')
    ensures BoardInv(b')
    decreases |steps|
  {
    hide BoardInv;
    if steps == [] {
    } else {
      BoardStepKeeps(b, steps[0]);
      LeadsKeeps(StepBoard(b, steps[0]), steps[1..], b');
    }
  }

  function EmptyBoard(duration: int, maxAttempts: int): Board {
    Board(Init(duration, maxAttempts), [])
  }

  lemma BoardReached(duration: int, maxAttempts: int, steps: seq<BoardStep>, b: Board)
    requires 0 < duration && 0 < maxAttempts && Leads(EmptyBoard(duration, maxAttempts), steps, b)
    ensures BoardInv(b)
  {
    InvInit(duration, maxAttempts);
    LeadsKeeps(EmptyBoard(duration, maxAttempts), steps, b);
  }

  /** A record made for task i of the submission: under its own ID and the submission's job and kind, with the
      key and the input of that task. */
  predicate IsSubmitted(sub: Submission, i: nat, spec: TaskSpec)
    requires i < |sub.tasks|
  {
    && spec.id == TaskId(sub.nanos, i) && spec.jobId == JobId(sub.nanos)
    && spec.key == sub.tasks[i].key && spec.input == sub.tasks[i].input && spec.kind == sub.kind
  }

  lemma SpecIsSubmitted(sub: Submission, i: nat)
    requires i < |sub.tasks|
    ensures IsSubmitted(sub, i, SpecOf(sub, i))
  {
  }

  /** However submissions interleave, and even if clock readings repeat: an aborted submission left nothing
      behind, and any other owns its whole job, which is its tasks so far in manifest order, each with its own
      key and input. */
  lemma SubmissionsDoNotMix(duration: int, maxAttempts: int, steps: seq<BoardStep>, b: Board, k: nat)
    requires 0 < duration && 0 < maxAttempts && Leads(EmptyBoard(duration, maxAttempts), steps, b)
    requires k < |b.submissions|
    ensures var sub := b.submissions[k]; var job := JobListing(b.queue.order, b.queue.tasks, JobId(sub.nanos));
      && sub.next <= |sub.tasks|
      && (sub.aborted ==> sub.next == 0)
      && (0 < sub.next ==> |job| == sub.next && forall i :: 0 <= i < sub.next ==> IsSubmitted(sub, i, job[i].spec))
  {
    hide Inv, IsSubmitted;
    var sub := b.submissions[k];
    BoardReached(duration, maxAttempts, steps, b);
    assert SubmissionOk(b, k);
    JobListingByIds(b.queue.order, b.queue.tasks, JobId(sub.nanos));
    forall i | 0 <= i < sub.next
      ensures IsSubmitted(sub, i, SpecOf(sub, i))
    {
      SpecIsSubmitted(sub, i);
    }
  }

  // ---- what workers are given ----

  lemma {:induction false} OthersKeep(b: Board, ops: seq<Op>)
    requires BoardInv(b) && forall i :: 0 <= i < |ops| ==> !ops[i].EnqueueOp?
    ensures BoardInv(b.(queue := Run(b.queue, ops)))
    decreases |ops|
  {
    hide BoardInv;
    if ops == [] {
      assert b.(queue := b.queue) == b;
    } else {
      OtherKeeps(b, ops[0]);
      OthersKeep(b.(queue := Apply(b.queue, ops[0])), ops[1..]);
    }
  }

  lemma RecordIsSubmitted(b: Board, id: string)
    requires BoardInv(b) && id in b.queue.tasks
    ensures exists k, i :: 0 <= k < |b.submissions| && 0 <= i < |b.submissions[k].tasks|
                           && IsSubmitted(b.submissions[k], i, b.queue.tasks[id].spec)
  {
    hide Inv;
    assert FromSubmission(b, id);
    var k, i :| 0 <= k < |b.submissions| && 0 <= i < b.submissions[k].next && id == TaskId(b.submissions[k].nanos, i);
    assert SubmissionOk(b, k);
    SpecIsSubmitted(b.submissions[k], i);
  }

  /** Whenever a worker claims from a reached board, among whatever other calls, the task it is given is one that
      was submitted: it is told the kind of that submission and the input of that very task. */
  lemma WorkersGetWhatWasSubmitted(b: Board, workerId: string, requeueAt: int, between: seq<Op>, claimAt: int, leaseId: string)
    requires BoardInv(b) && forall i :: 0 <= i < |between| ==> !between[i].EnqueueOp?
    requires HandleClaim(b.queue, workerId, requeueAt, between, claimAt, leaseId).2.Some?
    ensures var task := HandleClaim(b.queue, workerId, requeueAt, between, claimAt, leaseId).2.value;
      exists k, i ::
        && 0 <= k < |b.submissions| && 0 <= i < |b.submissions[k].tasks|
        && task.taskId == TaskId(b.submissions[k].nanos, i) && task.jobId == JobId(b.submissions[k].nanos)
        && task.kind == b.submissions[k].kind && task.input == b.submissions[k].tasks[i].input
  {
    hide Inv, Claim, Settle, BoardInv;
    BoardLinked(b);
    var settled := Settle(b.queue, requeueAt);
    OtherKeeps(b, SettleOp(requeueAt));
    var b1 := b.(queue := settled);
    OthersKeep(b1, between);
    var b2 := b.(queue := Run(settled, between));
    BoardLinked(b2);
    OtherKeeps(b2, ClaimOp(workerId, claimAt, leaseId));
    var b3 := b.(queue := Claim(b2.queue, workerId, claimAt, leaseId).0);
    ClaimAnswerIsTrue(b.queue, workerId, requeueAt, between, claimAt, leaseId);
    RecordIsSubmitted(b3, HandleClaim(b.queue, workerId, requeueAt, between, claimAt, leaseId).2.value.taskId);
  }

  lemma BoardLinked(b: Board)
    requires BoardInv(b)
    ensures Inv(b.queue)
  {
  }

  /** Two submissions that read the same time: the one whose first enqueue comes second is aborted, and leaves
      nothing behind. */
  lemma SameReadingAborts(duration: int, maxAttempts: int, nanos: int, kind: string,
                          first: seq<ManifestTask>, second: seq<ManifestTask>)
    requires 0 < duration && 0 < maxAttempts && first != [] && second != []
    ensures exists b ::
              && Leads(EmptyBoard(duration, maxAttempts),
                       [Submit(nanos, kind, first), Submit(nanos, kind, second), EnqueueNext(0), EnqueueNext(1)], b)
              && |b.submissions| == 2 && b.submissions[0].next == 1 && !b.submissions[0].aborted
              && b.submissions[1].next == 0 && b.submissions[1].aborted
              && b.queue.order == [TaskId(nanos, 0)]
  {
    hide Linked;
    var b0 := EmptyBoard(duration, maxAttempts);
    assert Linked(b0.queue) by {
      InvInit(duration, maxAttempts);
    }
    var steps := [Submit(nanos, kind, first), Submit(nanos, kind, second), EnqueueNext(0), EnqueueNext(1)];
    var b1 := StepBoard(b0, steps[0]);
    var b2 := StepBoard(b1, steps[1]);
    assert TaskId(nanos, 0) != "";
    var b3 := StepBoard(b2, steps[2]);
    assert b3.queue.order == [TaskId(nanos, 0)] && TaskId(nanos, 0) in b3.queue.tasks;
    var b4 := StepBoard(b3, steps[3]);
    assert steps[1..] == [steps[1], steps[2], steps[3]];
    assert steps[1..][1..] == [steps[2], steps[3]];
    assert steps[1..][1..][1..] == [steps[3]];
    assert Leads(b3, [steps[3]], b4);
    assert Leads(b2, [steps[2], steps[3]], b4);
    assert Leads(b1, steps[1..], b4);
    assert Leads(b0, steps, b4);
  }

  // ---- the exported document ----

  /** What the export needs of a decoded probe output: its two error fields, and the rest. */
  datatype Probe = Probe(errorCategory: string, errorMessage: string, fields: string)

  datatype ExportError = ExportError(category: string, message: string)

  datatype ExportTask = ExportTask(key: string, state: TaskState, attempts: int, worker: string,
                                   output: Option<Probe>, error: Option<ExportError>)

  /** What a line says of a task that produced this output and error: the decoded output without its error fields,
      and the error it reports, or else the execution error.  An output that cannot be decoded has no line. */
  predicate LineShows(decode: string -> Option<Probe>, line: ExportTask, output: string, error: string) {
    var execution := if error == "" then None else Some(ExportError("execution", error));
    && (output == "" ==> line.output == None && line.error == execution)
    && (output != "" ==>
          && decode(output).Some?
          && var p := decode(output).value;
          && line.output == Some(Probe("", "", p.fields))
          && line.error == (if p.errorCategory == "" && p.errorMessage == "" then execution
                            else Some(ExportError(p.errorCategory, p.errorMessage))))
  }

  predicate IsLine(decode: string -> Option<Probe>, t: TaskProgress, line: ExportTask) {
    && line.key == t.key && line.state == t.state && line.attempts == t.attempt && line.worker == t.workerId
    && LineShows(decode, line, t.output, t.error)
  }

  predicate IsExport(decode: string -> Option<Probe>, tasks: seq<TaskProgress>, lines: seq<ExportTask>) {
    |lines| == |tasks| && forall i :: 0 <= i < |tasks| ==> IsLine(decode, tasks[i], lines[i])
  }

  datatype ManifestResults = ManifestResults(jobId: string, state: JobState, tasks: seq<ExportTask>)

  /** buildManifestResults: one line per task in order, or an error exactly when some output cannot be decoded. */
  method BuildManifestResults(decode: string -> Option<Probe>, job: JobProgress) returns (document: Option<ManifestResults>)
    ensures document.Some? <==>
              forall i :: 0 <= i < |job.tasks| && job.tasks[i].output != "" ==> decode(job.tasks[i].output).Some?
    ensures document.Some? ==>
              && document.value.jobId == job.jobId && document.value.state == job.state
              && IsExport(decode, job.tasks, document.value.tasks)
  {
    var tasks, lines := job.tasks, [];
    for i := 0 to |tasks|
      invariant |lines| == i
      invariant forall j :: 0 <= j < i ==> IsLine(decode, tasks[j], lines[j])
      invariant forall j :: 0 <= j < i && tasks[j].output != "" ==> decode(tasks[j].output).Some?
    {
      var task := tasks[i];
      var line := ExportTask(task.key, task.state, task.attempt, task.workerId, None, None);
      if task.output != "" {
        var decoded := decode(task.output);
        if decoded.None? {
          return None;
        }
        var probe := decoded.value;
        if probe.errorCategory != "" || probe.errorMessage != "" {
          line := line.(error := Some(ExportError(probe.errorCategory, probe.errorMessage)));
          probe := probe.(errorCategory := "", errorMessage := "");
        }
        line := line.(output := Some(probe));
      }
      if task.error != "" && line.error.None? {
        line := line.(error := Some(ExportError("execution", task.error)));
      }
      lines := lines + [line];
    }
    document := Some(ManifestResults(job.jobId, job.state, lines));
  }

  /** What clients see of a terminal task is the last lease: its worker, its number, and how it ended. */
  lemma TerminalViewIsLastLease(s: State, id: string)
    requires Inv(s) && id in s.tasks && Terminal(s.tasks[id])
    ensures var t, ends := s.tasks[id], Endings(s.log, id);
      && ends != [] && |ends| == t.attempts && 1 <= t.attempts <= s.maxAttempts
      && var last := ends[|ends| - 1];
         ViewOf(t) == JobTask(id, t.spec.key, if Succeeded(last) then Completed else Failed,
                              last.lease.attempt, last.lease.workerId, Some(ReportOf(last)))
  {
    hide Inv;
    InvTask(s, id);
  }

  /** Manifest order, end to end.  A manifest was accepted and wholly enqueued, in any interleaving with other
      submissions, claims, retries and expiries; the client saw the job end and built the export from the answer.
      The document then lists exactly the manifest's keys, in its order, without duplicates.  Each line is terminal,
      counts the leases its task had, between one and `maxAttempts`, and carries worker, output and error of
      the last of them. */
  lemma ExportFollowsManifest(duration: int, maxAttempts: int, steps: seq<BoardStep>, b: Board, k: nat,
                              decode: string -> Option<Probe>, progress: seq<TaskProgress>, lines: seq<ExportTask>)
    requires 0 < duration && 0 < maxAttempts && Leads(EmptyBoard(duration, maxAttempts), steps, b)
    requires k < |b.submissions| && ManifestOk(b.submissions[k].tasks)
    requires b.submissions[k].next == |b.submissions[k].tasks|
    requires var response := ResponseFor(JobId(b.submissions[k].nanos), JobRecords(b, k));
      Finished(response.state) && ShowsEntries(progress, response.tasks) && IsExport(decode, progress, lines)
    ensures var manifest := b.submissions[k].tasks;
      && |lines| == |manifest|
      && (forall i, j :: 0 <= i < j < |lines| ==> lines[i].key != lines[j].key)
      && (forall i :: 0 <= i < |lines| ==> LineFollows(b, k, i, decode, lines[i]))
  {
    hide Inv, Leads, ManifestOk, LineFollows, IsLine, ShowsEntry, ResponseFor;
    var sub := b.submissions[k];
    BoardReached(duration, maxAttempts, steps, b);
    SubmissionsDoNotMix(duration, maxAttempts, steps, b, k);
    ManifestTasksPresent(sub.tasks);
    JobResponseMeans(JobId(sub.nanos), JobRecords(b, k));
    forall i | 0 <= i < |lines|
      ensures LineFollows(b, k, i, decode, lines[i])
    {
      LineFollowsTask(b, k, i, decode, progress[i], lines[i]);
    }
    forall i | 0 <= i < |lines|
      ensures lines[i].key == sub.tasks[i].key
    {
      LineHasKey(b, k, i, decode, lines[i]);
    }
  }

  /** The records of submission k's job, as the queue lists them. */
  function JobRecords(b: Board, k: nat): seq<Task>
    requires k < |b.submissions|
  {
    JobListing(b.queue.order, b.queue.tasks, JobId(b.submissions[k].nanos))
  }

  /** Line i of the export of submission k: its key is the manifest's, the rest is its task's last lease. */
  predicate LineFollows(b: Board, k: nat, i: nat, decode: string -> Option<Probe>, line: ExportTask)
    requires k < |b.submissions| && i < |b.submissions[k].tasks|
  {
    var ends := Endings(b.queue.log, TaskId(b.submissions[k].nanos, i));
    && line.key == b.submissions[k].tasks[i].key
    && 1 <= line.attempts == |ends| <= b.queue.maxAttempts
    && var last := ends[|ends| - 1];
    && line.state == (if Succeeded(last) then Completed else Failed)
    && line.worker == last.lease.workerId
    && LineShows(decode, line, ReportOf(last).output, ReportOf(last).error)
  }

  lemma LineHasKey(b: Board, k: nat, i: nat, decode: string -> Option<Probe>, line: ExportTask)
    requires k < |b.submissions| && i < |b.submissions[k].tasks| && LineFollows(b, k, i, decode, line)
    ensures line.key == b.submissions[k].tasks[i].key
  {
  }

  lemma EndedJobIsTerminal(jobId: string, job: seq<Task>, i: nat)
    requires Finished(ResponseFor(jobId, job).state) && i < |job|
    ensures Terminal(job[i])
  {
  }

  lemma ListedRecord(s: State, jobId: string, i: nat)
    requires Inv(s) && i < |JobListing(s.order, s.tasks, jobId)|
    ensures var t := JobListing(s.order, s.tasks, jobId)[i];
      t.spec.id in s.tasks && s.tasks[t.spec.id] == t
  {
    hide Inv, JobListing, JobIds;
    JobListingByIds(s.order, s.tasks, jobId);
    InvTask(s, JobIds(s.order, s.tasks, jobId)[i]);
  }

  lemma LineOfRecord(b: Board, k: nat, i: nat, decode: string -> Option<Probe>, v: JobTask, p: TaskProgress, line: ExportTask)
    requires Inv(b.queue) && k < |b.submissions| && i < |b.submissions[k].tasks|
    requires var id := TaskId(b.submissions[k].nanos, i);
      && id in b.queue.tasks && Terminal(b.queue.tasks[id])
      && b.queue.tasks[id].spec.key == b.submissions[k].tasks[i].key
      && Views.Entry(v, b.queue.tasks[id])
    requires ShowsEntry(p, v) && IsLine(decode, p, line)
    ensures LineFollows(b, k, i, decode, line)
  {
    hide Inv, LineShows, Endings, TaskId;
    TerminalViewIsLastLease(b.queue, TaskId(b.submissions[k].nanos, i));
  }

  lemma LineFollowsTask(b: Board, k: nat, i: nat, decode: string -> Option<Probe>, p: TaskProgress, line: ExportTask)
    requires Inv(b.queue) && k < |b.submissions| && i < |b.submissions[k].tasks|
    requires var jobId, job := JobId(b.submissions[k].nanos), JobRecords(b, k);
      && i < |job|
      && job[i].spec.id == TaskId(b.submissions[k].nanos, i) && job[i].spec.key == b.submissions[k].tasks[i].key
      && Finished(ResponseFor(jobId, job).state)
      && ShowsEntry(p, ResponseFor(jobId, job).tasks[i]) && IsLine(decode, p, line)
    ensures LineFollows(b, k, i, decode, line)
  {
    hide Inv, JobListing, JobId, TaskId, ResponseFor, ShowsEntry, IsLine, LineFollows, Finished, Terminal, Views.Entry;
    var jobId, job := JobId(b.submissions[k].nanos), JobRecords(b, k);
    ListedRecord(b.queue, jobId, i);
    EndedJobIsTerminal(jobId, job, i);
    JobResponseMeans(jobId, job);
    LineOfRecord(b, k, i, decode, ResponseFor(jobId, job).tasks[i], p, line);
  }

  lemma ManifestTasksPresent(tasks: seq<ManifestTask>)
    requires ManifestOk(tasks)
    ensures tasks != [] && forall i, j :: 0 <= i < j < |tasks| ==> tasks[i].key != tasks[j].key
  {
  }

  // ---- the client's wait ----

  /** One poll of the job: an error, or the decoded answer and when it came. */
  datatype Poll = PollFailed | Polled(response: JobResponse, at: int)

  predicate EndsWait(p: Poll) {
    p.Polled? && Finished(p.response.state)
  }

  /** The progress that the client keeps after an answer. */
  predicate Shows(job: JobProgress, p: Poll, startedAt: int) {
    && p.Polled?
    && job.jobId == p.response.jobId && job.state == p.response.state
    && job.counts == TallyViews(p.response.tasks)
    && ShowsEntries(job.tasks, p.response.tasks)
    && job.startedAt == Some(startedAt) && job.elapsed == p.at - startedAt
  }

  /** The progress right after submission. */
  function Submitted(jobId: string, total: nat, startedAt: int): JobProgress {
    JobProgress(jobId, JobQueued, Tally(total, 0, 0, 0, total), [], [], Some(startedAt), 0)
  }

  /** The client stopped after `seen` polls, at the first error or terminal answer or out of time, and kept the
      progress of the last answer it decoded. */
  predicate Waited(polls: seq<Poll>, seen: nat, ended: bool, job: JobProgress, jobId: string, total: nat, startedAt: int) {
    && seen <= |polls|
    && (forall i :: 0 <= i < seen - 1 ==> polls[i].Polled? && !EndsWait(polls[i]))
    && (seen < |polls| ==> seen > 0 && (polls[seen - 1].PollFailed? || EndsWait(polls[seen - 1])))
    && (ended <==> seen > 0 && EndsWait(polls[seen - 1]))
    && var decoded := if seen > 0 && polls[seen - 1].PollFailed? then seen - 1 else seen;
       if decoded == 0 then job == Submitted(jobId, total, startedAt) else Shows(job, polls[decoded - 1], startedAt)
  }

  /** execute: poll until an error or a terminal answer; a list of polls that runs out was timed out. */
  method Execute(jobId: string, total: nat, startedAt: int, polls: seq<Poll>)
    returns (job: JobProgress, seen: nat, ended: bool)
    ensures Waited(polls, seen, ended, job, jobId, total, startedAt)
  {
    job, seen, ended := Submitted(jobId, total, startedAt), 0, false;
    while seen < |polls|
      invariant seen <= |polls| && forall i :: 0 <= i < seen ==> polls[i].Polled? && !EndsWait(polls[i])
      invariant if seen == 0 then job == Submitted(jobId, total, startedAt) else Shows(job, polls[seen - 1], startedAt)
    {
      var poll := polls[seen];
      seen := seen + 1;
      if poll.PollFailed? {
        return;
      }
      job := JobFromResponse(poll.response, Some(startedAt), poll.at);
      if poll.response.state == JobCompleted || poll.response.state == JobFailed {
        ended := true;
        return;
      }
    }
  }

  /** finishSubmit's test for writing the results. */
  predicate WritesResults(job: JobProgress) {
    job.jobId != "" && job.counts.completed + job.counts.failed == job.counts.total
  }

  /** The answer was computed by the coordinator from the tasks of a job. */
  ghost predicate FromCoordinator(response: JobResponse) {
    response.jobId != "" && exists tasks :: response == ResponseFor(response.jobId, tasks)
  }

  lemma CountersTellTheEnd(response: JobResponse, job: JobProgress)
    requires FromCoordinator(response) && job.jobId == response.jobId && job.counts == TallyViews(response.tasks)
    ensures WritesResults(job) <==> Finished(response.state)
  {
    var tasks :| response == ResponseFor(response.jobId, tasks);
    assert response.tasks == Viewed(tasks);
    ViewsCount(tasks, Completed);
    ViewsCount(tasks, Failed);
    CountsAndQuantifiers(tasks);
  }

  /** With answers the coordinator computed, the client writes the results exactly if its wait ended with the
      job, though it tests its own counters and not the state it was told. */
  lemma ResultsWrittenAtTheEnd(polls: seq<Poll>, seen: nat, ended: bool, job: JobProgress,
                               jobId: string, total: nat, startedAt: int)
    requires Waited(polls, seen, ended, job, jobId, total, startedAt) && 0 < total
    requires forall i :: 0 <= i < |polls| && polls[i].Polled? ==> FromCoordinator(polls[i].response)
    ensures WritesResults(job) <==> ended
  {
    hide FromCoordinator;
    var decoded := if seen > 0 && polls[seen - 1].PollFailed? then seen - 1 else seen;
    if decoded > 0 {
      CountersTellTheEnd(polls[decoded - 1].response, job);
    }
  }
}
