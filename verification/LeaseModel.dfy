/**
 The lease queue on plain values: what one locked call of each exported method does
 to the queue, written as a function from the old state to the new one.

 `State.log` is the history the proofs speak about.  It records every change of a
 task in the order it happened; nothing reads it to decide what to do next.
 Clock readings are integers (nanoseconds); a call receives the reading it made and,
 for a claim, the lease ID it would generate.
 */
module LeaseModel {
  import opened Options

  datatype TaskState = Queued | Leased | Completed | Failed

  datatype TaskSpec = TaskSpec(id: string, jobId: string, key: string, kind: string, input: string)

  datatype Result = Result(output: string, duration: int, error: string)

  datatype Lease = Lease(id: string, taskId: string, workerId: string,
                         issuedAt: int, expiresAt: int, attempt: int)

  datatype Task = Task(spec: TaskSpec, state: TaskState, attempts: int, workerId: string,
                       lease: Option<Lease>, result: Option<Result>)

  /** A change of one task.  `lease` is the lease as it stood when the change happened. */
  datatype Event =
    | Added(spec: TaskSpec)
    | Granted(lease: Lease)
    | Renewed(lease: Lease, at: int)
    | Resolved(lease: Lease, at: int, result: Result)
    | Expired(lease: Lease, at: int)

  datatype State = State(duration: int, maxAttempts: int, queued: seq<string>, order: seq<string>,
                         tasks: map<string, Task>, log: seq<Event>)

  datatype QueueError =
    | IdRequired | TaskExists | TaskNotFound | InvalidWorker
    | StaleLease | WrongWorker | AlreadyCompleted | TaskFailed

  datatype Outcome = OutcomeCompleted | OutcomeRequeued | OutcomeFailed

  datatype ClaimReply = ClaimRefused(error: QueueError) | NoWork | Assigned(spec: TaskSpec, lease: Lease)

  datatype RenewReply = RenewRefused(error: QueueError) | LeaseRenewed(lease: Lease)

  datatype CompleteReply = CompleteRefused(error: QueueError) | Accepted(outcome: Outcome)

  const EXPIRY_RESULT := Result("", 0, "lease expired and retry policy was exhausted")

  predicate Terminal(t: Task) {
    t.state.Completed? || t.state.Failed?
  }

  predicate Due(t: Task, now: int) {
    t.state.Leased? && t.lease.Some? && t.lease.value.expiresAt <= now
  }

  function NewTask(spec: TaskSpec): Task {
    Task(spec, Queued, 0, "", None, None)
  }

  /** The task record after its holder reported `r`. */
  function Report(t: Task, r: Result, maxAttempts: int): Task {
    if r.error == "" then t.(state := Completed, result := Some(r), lease := None)
    else if maxAttempts <= t.attempts then t.(state := Failed, result := Some(r), lease := None)
    else t.(state := Queued, result := None, lease := None)
  }

  /** The task record after its lease ran out. */
  function Lapse(t: Task, maxAttempts: int): Task {
    if maxAttempts <= t.attempts then t.(state := Failed, result := Some(EXPIRY_RESULT), lease := None)
    else t.(state := Queued, result := None, lease := None)
  }

  /** A leased task has a lease, and the lease names that task. */
  predicate Linked(s: State) {
    forall id :: id in s.tasks && s.tasks[id].state.Leased? ==>
      s.tasks[id].lease.Some? && s.tasks[id].lease.value.taskId == id
  }

  predicate Holds(s: State, l: Lease) {
    && l.taskId in s.tasks
    && s.tasks[l.taskId].state.Leased?
    && s.tasks[l.taskId].lease == Some(l)
  }

  /** When a change may happen.  Every queue operation is a series of legal changes. */
  predicate Legal(s: State, e: Event) {
    match e
    case Added(spec) => spec.id != "" && spec.id !in s.tasks
    case Granted(l) =>
      && s.queued != [] && s.queued[0] == l.taskId
      && l.taskId in s.tasks && s.tasks[l.taskId].state.Queued?
      && l.workerId != ""
      && l.attempt == s.tasks[l.taskId].attempts + 1
      && l.expiresAt == l.issuedAt + s.duration
    case Renewed(l, at) => Holds(s, l) && at < l.expiresAt
    case Resolved(l, at, _) => Holds(s, l) && at < l.expiresAt
    case Expired(l, at) => Holds(s, l) && l.expiresAt <= at
  }

  /** Task `id` is leased to `workerId` under `leaseId`, until `deadline`. */
  predicate HeldUntil(s: State, id: string, leaseId: string, workerId: string, deadline: int) {
    && id in s.tasks && s.tasks[id].state.Leased? && s.tasks[id].lease.Some?
    && s.tasks[id].lease.value.id == leaseId
    && s.tasks[id].lease.value.workerId == workerId
    && s.tasks[id].lease.value.expiresAt == deadline
  }

  /** The same, at a time before that deadline. */
  ghost predicate HeldAt(s: State, id: string, leaseId: string, workerId: string, now: int) {
    exists deadline :: HeldUntil(s, id, leaseId, workerId, deadline) && now < deadline
  }

  function Target(e: Event): string {
    if e.Added? then e.spec.id else e.lease.taskId
  }

  /** What a change makes of the task record it concerns. */
  function Change(t: Task, e: Event, duration: int, maxAttempts: int): Task {
    match e
    case Added(spec) => NewTask(spec)
    case Granted(l) =>
      t.(state := Leased, attempts := t.attempts + 1, workerId := l.workerId, lease := Some(l))
    case Renewed(l, at) => t.(lease := Some(l.(expiresAt := at + duration)))
    case Resolved(_, _, r) => Report(t, r, maxAttempts)
    case Expired(_, _) => Lapse(t, maxAttempts)
  }

  function Do(s: State, e: Event): (s': State)
    requires Linked(s) && Legal(s, e)
    ensures Linked(s')
  {
    var id := Target(e);
    var t := if e.Added? then NewTask(e.spec) else Change(s.tasks[id], e, s.duration, s.maxAttempts);
    var queued := if e.Granted? then s.queued[1..] else s.queued;
    s.(tasks := s.tasks[id := t],
       queued := if t.state.Queued? then queued + [id] else queued,
       order := if e.Added? then s.order + [id] else s.order,
       log := s.log + [e])
  }

  // ---- the exported operations ----

  function Init(duration: int, maxAttempts: int): State {
    State(duration, maxAttempts, [], [], map[], [])
  }

  function Enqueue(s: State, spec: TaskSpec): (State, Option<QueueError>)
    requires Linked(s)
  {
    if spec.id == "" then (s, Some(IdRequired))
    else if spec.id in s.tasks then (s, Some(TaskExists))
    else (Do(s, Added(spec)), None)
  }

  function SettleOne(s: State, id: string, now: int): (s': State)
    requires Linked(s)
    ensures Linked(s')
  {
    if id in s.tasks && Due(s.tasks[id], now)
    then Do(s, Expired(s.tasks[id].lease.value, now))
    else s
  }

  function SettleOver(s: State, ids: seq<string>, now: int): (s': State)
    requires Linked(s)
    ensures Linked(s')
    decreases |ids|
  {
    if ids == [] then s else SettleOver(SettleOne(s, ids[0], now), ids[1..], now)
  }

  /** Expire every due lease, in enqueue order. */
  function Settle(s: State, now: int): (s': State)
    requires Linked(s)
    ensures Linked(s')
  {
    SettleOver(s, s.order, now)
  }

  /** The IDs that Settle expires. */
  function DueIds(s: State, ids: seq<string>, now: int): seq<string> {
    if ids == [] then []
    else (if ids[0] in s.tasks && Due(s.tasks[ids[0]], now) then [ids[0]] else []) + DueIds(s, ids[1..], now)
  }

  /** Claim's loop drops IDs from the front until one names a queued task. */
  function SkipStale(queued: seq<string>, tasks: map<string, Task>): (rest: seq<string>)
    ensures rest != [] ==> rest[0] in tasks && tasks[rest[0]].state.Queued?
  {
    if queued == [] || (queued[0] in tasks && tasks[queued[0]].state.Queued?) then queued
    else SkipStale(queued[1..], tasks)
  }

  function NewLease(s: State, id: string, workerId: string, now: int, leaseId: string): Lease
    requires id in s.tasks
  {
    Lease(leaseId, id, workerId, now, now + s.duration, s.tasks[id].attempts + 1)
  }

  /** A claim on a queue whose due leases have been expired. */
  function Assignment(settled: State, workerId: string, now: int, leaseId: string): (State, ClaimReply)
    requires Linked(settled) && workerId != ""
  {
    var rest := SkipStale(settled.queued, settled.tasks);
    var ready := settled.(queued := rest);
    if rest == [] then (ready, NoWork)
    else
      var lease := NewLease(ready, rest[0], workerId, now, leaseId);
      (Do(ready, Granted(lease)), Assigned(ready.tasks[rest[0]].spec, lease))
  }

  function Claim(s: State, workerId: string, now: int, leaseId: string): (State, ClaimReply)
    requires Linked(s)
  {
    if workerId == "" then (s, ClaimRefused(InvalidWorker)) else Assignment(Settle(s, now), workerId, now, leaseId)
  }

  /** The checks of activeLeaseLocked, in its order, before its expiry test. */
  function LeaseError(s: State, taskId: string, leaseId: string, workerId: string): Option<QueueError> {
    if taskId !in s.tasks then Some(TaskNotFound)
    else
      var t := s.tasks[taskId];
      if t.state.Completed? then Some(AlreadyCompleted)
      else if t.state.Failed? then Some(TaskFailed)
      else if !t.state.Leased? || t.lease.None? || t.lease.value.id != leaseId then Some(StaleLease)
      else if t.lease.value.workerId != workerId then Some(WrongWorker)
      else None
  }

  /** The state activeLeaseLocked leaves and its error, if any.  Only the target can expire. */
  function CheckLease(s: State, taskId: string, leaseId: string, workerId: string, now: int)
    : (State, Option<QueueError>)
    requires Linked(s)
  {
    match LeaseError(s, taskId, leaseId, workerId)
    case Some(error) => (s, Some(error))
    case None =>
      if Due(s.tasks[taskId], now) then (SettleOne(s, taskId, now), Some(StaleLease)) else (s, None)
  }

  function Renew(s: State, taskId: string, leaseId: string, workerId: string, now: int): (State, RenewReply)
    requires Linked(s)
  {
    var (s', error) := CheckLease(s, taskId, leaseId, workerId, now);
    if error.Some? then (s', RenewRefused(error.value))
    else
      var l := s.tasks[taskId].lease.value;
      (Do(s, Renewed(l, now)), LeaseRenewed(l.(expiresAt := now + s.duration)))
  }

  function OutcomeOf(t: Task): Outcome {
    match t.state
    case Completed => OutcomeCompleted
    case Failed => OutcomeFailed
    case _ => OutcomeRequeued
  }

  function Complete(s: State, taskId: string, leaseId: string, workerId: string, result: Result, now: int)
    : (State, CompleteReply)
    requires Linked(s)
  {
    var (s', error) := CheckLease(s, taskId, leaseId, workerId, now);
    if error.Some? then (s', CompleteRefused(error.value))
    else
      var l := s.tasks[taskId].lease.value;
      var done := Do(s, Resolved(l, now, result));
      (done, Accepted(OutcomeOf(done.tasks[taskId])))
  }
}
