/**
 The queue as the coordinator holds it: task and lease objects changed in place.
 Every method is proved to do to the object graph what LeaseModel says it does to values.

 Each method is one locked call, so it takes the clock reading of that call (and, for a claim,
 the generated lease ID) as an argument.
 */
module LeaseQueue {
  import opened Options
  import opened LeaseModel
  import opened LeaseInvariants
  import opened LeaseRuns

  class LeaseRecord {
    const id: string
    const taskId: string
    const workerId: string
    const issuedAt: int
    const attempt: int
    var expiresAt: int

    constructor (l: Lease)
      ensures Model() == l
    {
      id, taskId, workerId := l.id, l.taskId, l.workerId;
      issuedAt, expiresAt, attempt := l.issuedAt, l.expiresAt, l.attempt;
    }

    function Model(): Lease
      reads this
    {
      Lease(id, taskId, workerId, issuedAt, expiresAt, attempt)
    }
  }

  class ResultRecord {
    const output: string
    const duration: int
    const error: string

    constructor (r: Result)
      ensures Model() == r
    {
      output, duration, error := r.output, r.duration, r.error;
    }

    function Model(): Result {
      Result(output, duration, error)
    }
  }

  class TaskRecord {
    const spec: TaskSpec
    var state: TaskState
    var attempts: int
    var workerId: string
    var lease: LeaseRecord?
    var result: ResultRecord?

    constructor (spec: TaskSpec)
      ensures this.spec == spec && lease == null && Model() == NewTask(spec)
    {
      this.spec := spec;
      state, attempts, workerId := Queued, 0, "";
      lease, result := null, null;
    }

    ghost function Model(): Task
      reads this, lease
    {
      Task(spec, state, attempts, workerId,
           if lease == null then None else Some(lease.Model()),
           if result == null then None else Some(result.Model()))
    }

    /** cloneTask: a copy that shares no object with this record. */
    method Clone() returns (copy: TaskRecord)
      ensures IsCopy(copy, Model())
    {
      copy := new TaskRecord(spec);
      copy.state, copy.attempts, copy.workerId := state, attempts, workerId;
      if lease != null {
        copy.lease := new LeaseRecord(lease.Model());
      }
      if result != null {
        copy.result := new ResultRecord(result.Model());
      }
    }

    /** The lease ran out: what expireTaskLocked does to the record. */
    method Lapse(maxAttempts: int)
      modifies this
      ensures Model() == LeaseModel.Lapse(old(Model()), maxAttempts) && lease == null
    {
      lease := null;
      if maxAttempts <= attempts {
        state := Failed;
        result := new ResultRecord(EXPIRY_RESULT);
        return;
      }
      state := Queued;
      result := null;
    }

    /** The holder reported: what Complete does to the record. */
    method Report(r: Result, maxAttempts: int) returns (outcome: Outcome)
      modifies this
      ensures Model() == LeaseModel.Report(old(Model()), r, maxAttempts) && lease == null
      ensures outcome == OutcomeOf(Model())
    {
      var resultCopy := new ResultRecord(r);
      if r.error == "" {
        state := Completed;
        result := resultCopy;
        lease := null;
        return OutcomeCompleted;
      }
      lease := null;
      if maxAttempts <= attempts {
        state := Failed;
        result := resultCopy;
        return OutcomeFailed;
      }
      state := Queued;
      result := null;
      return OutcomeRequeued;
    }
  }

  /** The records of the given IDs, in their order. */
  ghost function Listing(ids: seq<string>, tasks: map<string, Task>): seq<Task>
    requires forall id :: id in ids ==> id in tasks
  {
    seq(|ids|, i requires 0 <= i < |ids| => tasks[ids[i]])
  }

  /** The records of one job among the given IDs, in their order. */
  function JobListing(ids: seq<string>, tasks: map<string, Task>, jobId: string): seq<Task> {
    if ids == [] then []
    else
      var rest := JobListing(ids[..|ids| - 1], tasks, jobId);
      var last := ids[|ids| - 1];
      if last in tasks && tasks[last].spec.jobId == jobId then rest + [tasks[last]] else rest
  }

  datatype QueueStats = QueueStats(queued: nat, leased: nat, completed: nat, failed: nat, total: nat)

  /** The tasks in one state. */
  ghost function InState(tasks: map<string, Task>, state: TaskState): set<string> {
    set id | id in tasks && tasks[id].state == state
  }

  ghost predicate StatsOf(stats: QueueStats, tasks: map<string, Task>) {
    && stats.queued == |InState(tasks, Queued)|
    && stats.leased == |InState(tasks, Leased)|
    && stats.completed == |InState(tasks, Completed)|
    && stats.failed == |InState(tasks, Failed)|
    && stats.total == |tasks|
  }

  /** A copy handed out: a new object, with new lease and result objects, that models `t`. */
  twostate predicate IsCopy(new copy: TaskRecord, t: Task)
    reads copy, copy.lease
  {
    && fresh(copy) && copy.Model() == t
    && (copy.lease != null ==> fresh(copy.lease)) && (copy.result != null ==> fresh(copy.result))
  }

  twostate predicate CopiesOf(new copies: seq<TaskRecord>, listed: seq<Task>)
    reads copies, set c | c in copies :: c.lease
  {
    |copies| == |listed| && forall i :: 0 <= i < |copies| ==> IsCopy(copies[i], listed[i])
  }

  class Queue {
    const leaseDuration: int
    const maxAttempts: int
    var queued: seq<string>
    var order: seq<string>
    var tasks: map<string, TaskRecord>
    ghost var log: seq<Event>

    ghost function Leases(): set<object>
      reads this, tasks.Values
    {
      set id | id in tasks && tasks[id].lease != null :: tasks[id].lease as object
    }

    ghost function Model(): State
      reads this, tasks.Values, Leases()
    {
      State(leaseDuration, maxAttempts, queued, order, map id | id in tasks :: tasks[id].Model(), log)
    }

    /** Each record is filed under its own ID, and each lease object names its task. */
    ghost predicate Filed()
      reads this, tasks.Values, Leases()
    {
      forall id :: id in tasks ==> tasks[id].spec.id == id && (tasks[id].lease != null ==> tasks[id].lease.taskId == id)
    }

    ghost predicate Valid()
      reads this, tasks.Values, Leases()
    {
      Filed() && Inv(Model())
    }

    /** Only `task` changed: its record changed in the model and every other stayed. */
    twostate lemma OneRecordChanged(task: TaskRecord)
      requires old(Filed()) && tasks == old(tasks)
      requires task.spec.id in tasks && tasks[task.spec.id] == task
      requires task.lease != null ==> task.lease.taskId == task.spec.id
      requires forall id | id in tasks && id != task.spec.id ::
                 unchanged(tasks[id]) && (tasks[id].lease != null ==> unchanged(tasks[id].lease))
      ensures Filed()
      ensures Model().tasks == old(Model()).tasks[task.spec.id := task.Model()]
      ensures if task.lease == null then Leases() <= old(Leases()) else Leases() <= old(Leases()) + {task.lease}
    {
    }

    /** Only `task` was added, and it has no lease. */
    twostate lemma RecordAdded(task: TaskRecord)
      requires old(Filed()) && tasks == old(tasks)[task.spec.id := task]
      requires task.lease == null
      requires forall id | id in tasks && id != task.spec.id ::
                 unchanged(tasks[id]) && (tasks[id].lease != null ==> unchanged(tasks[id].lease))
      ensures Filed()
      ensures Model().tasks == old(Model()).tasks[task.spec.id := task.Model()]
      ensures Leases() <= old(Leases())
    {
    }

    constructor (leaseDuration: int, maxAttempts: int)
      requires 0 < leaseDuration && 0 < maxAttempts
      ensures Valid() && Model() == Init(leaseDuration, maxAttempts)
      ensures tasks == map[]
    {
      this.leaseDuration, this.maxAttempts := leaseDuration, maxAttempts;
      queued, order, tasks, log := [], [], map[], [];
      new;
      InvInit(leaseDuration, maxAttempts);
    }

    method Enqueue(spec: TaskSpec) returns (error: Option<QueueError>)
      requires Valid()
      modifies this
      ensures Valid()
      ensures (Model(), error) == LeaseModel.Enqueue(old(Model()), spec)
      ensures Leases() <= old(Leases())
      ensures if error.None? then spec.id in tasks && fresh(tasks[spec.id]) && tasks == old(tasks)[spec.id := tasks[spec.id]]
              else tasks == old(tasks)
    {
      hide Inv;
      if spec.id == "" {
        return Some(IdRequired);
      }
      if spec.id in tasks {
        return Some(TaskExists);
      }
      DoFollows(Model(), Added(spec));
      var task := new TaskRecord(spec);
      Insert(task);
      error := None;
    }

    method Insert(task: TaskRecord)
      requires Filed() && Linked(Model()) && Legal(Model(), Added(task.spec))
      requires task.Model() == NewTask(task.spec) && task.lease == null
      modifies this`tasks, this`queued, this`order, this`log
      ensures Filed() && Model() == Do(old(Model()), Added(task.spec))
      ensures Leases() <= old(Leases())
      ensures tasks == old(tasks)[task.spec.id := task]
    {
      tasks := tasks[task.spec.id := task];
      queued := queued + [task.spec.id];
      order := order + [task.spec.id];
      log := log + [Added(task.spec)];
      RecordAdded(task);
    }

    /** expireTaskLocked */
    method ExpireTask(task: TaskRecord, ghost now: int)
      requires Filed() && Linked(Model())
      requires task.spec.id in tasks && tasks[task.spec.id] == task && Due(Model().tasks[task.spec.id], now)
      modifies this`queued, this`log, task
      ensures Filed() && Model() == SettleOne(old(Model()), task.spec.id, now)
      ensures Leases() <= old(Leases())
    {
      ghost var before := Model();
      log := log + [Expired(before.tasks[task.spec.id].lease.value, now)];
      task.Lapse(maxAttempts);
      if task.state == Queued {
        queued := queued + [task.spec.id];
      }
      assert task.Model() == LeaseModel.Lapse(before.tasks[task.spec.id], maxAttempts);
      OneRecordChanged(task);
    }

    /** One step of expireLocked's loop. */
    method ExpireIfDue(id: string, now: int) returns (due: bool)
      requires Filed() && Linked(Model()) && id in tasks
      modifies this`queued, this`log, tasks[id]
      ensures Filed() && Model() == SettleOne(old(Model()), id, now)
      ensures Leases() <= old(Leases())
      ensures due == Due(old(Model()).tasks[id], now)
    {
      var task := tasks[id];
      due := task.state == Leased && task.lease != null && task.lease.expiresAt <= now;
      if due {
        ExpireTask(task, now);
      }
    }

    /** expireLocked */
    method ExpireDue(now: int) returns (expired: seq<string>)
      requires Valid()
      modifies this`queued, this`log, tasks.Values
      ensures Valid() && Leases() <= old(Leases())
      ensures Model() == Settle(old(Model()), now)
      ensures expired == DueIds(old(Model()), order, now)
    {
      hide Inv;
      SettleOverFollows(Model(), order, now);
      InvLists(Model());
      expired := ExpireEach(now);
    }

    method ExpireEach(now: int) returns (expired: seq<string>)
      requires Filed() && Linked(Model()) && NoDuplicates(order) && forall id :: id in order ==> id in Model().tasks
      modifies this`queued, this`log, tasks.Values
      ensures Filed() && Linked(Model()) && Leases() <= old(Leases())
      ensures Model() == Settle(old(Model()), now)
      ensures expired == DueIds(old(Model()), order, now)
    {
      hide SettleOne, SettleOver, DueIds, Linked;
      expired := [];
      ghost var start := Model();
      assert order[0..] == order;
      for i := 0 to |order|
        invariant Filed() && Linked(Model()) && Leases() <= old(Leases())
        invariant SettleOver(Model(), order[i..], now) == Settle(start, now)
        invariant expired + DueIds(Model(), order[i..], now) == DueIds(start, order, now)
      {
        ghost var before := Model();
        assert order[i] in order;
        SettleStep(before, order, i, now);
        var due := ExpireIfDue(order[i], now);
        ghost var rest := DueIds(Model(), order[i + 1..], now);
        Reassociate(expired, if due then [order[i]] else [], rest);
        if due {
          expired := expired + [order[i]];
        }
      }
      assert order[|order|..] == [];
      NothingLeft(Model(), now);
      Reassociate(expired, [], []);
    }

    /** RequeueExpired: the expired IDs, in enqueue order. */
    method RequeueExpired(now: int) returns (expired: seq<string>)
      requires Valid()
      modifies this`queued, this`log, tasks.Values
      ensures Valid() && Leases() <= old(Leases())
      ensures Model() == Settle(old(Model()), now)
      ensures expired == DueIds(old(Model()), order, now)
    {
      expired := ExpireDue(now);
    }

    /** Put `lease` on `task`, which Claim just took from the queue. */
    method Grant(task: TaskRecord, lease: LeaseRecord, ghost ready: State)
      requires Filed() && Linked(ready) && Legal(ready, Granted(lease.Model())) && lease.taskId == task.spec.id
      requires task.spec.id in tasks && tasks[task.spec.id] == task
      requires Model() == ready.(queued := ready.queued[1..])
      modifies this`log, task
      ensures Filed() && Model() == Do(ready, Granted(lease.Model()))
      ensures Leases() <= old(Leases()) + {lease}
    {
      ghost var before := Model();
      task.attempts := task.attempts + 1;
      task.state := Leased;
      task.workerId := lease.workerId;
      task.lease := lease;
      log := log + [Granted(lease.Model())];
      assert task.Model() == Change(before.tasks[task.spec.id], Granted(lease.Model()), leaseDuration, maxAttempts);
      OneRecordChanged(task);
    }

    /** Claim's loop: take IDs off the front of the queue until one names a queued task. */
    method PopQueued() returns (task: TaskRecord?)
      requires Filed()
      modifies this`queued
      ensures Filed() && Leases() == old(Leases())
      ensures var before := old(Model()); var rest := SkipStale(before.queued, before.tasks);
              if task == null then rest == [] && Model() == before.(queued := [])
              else
                && rest != [] && rest[0] in tasks && task == tasks[rest[0]]
                && task.Model() == before.tasks[rest[0]] && Model() == before.(queued := rest[1..])
    {
      ghost var before := Model();
      while |queued| > 0
        invariant Filed() && Leases() == old(Leases()) && Model() == before.(queued := queued)
        invariant SkipStale(queued, before.tasks) == SkipStale(before.queued, before.tasks)
        decreases |queued|
      {
        var taskId := queued[0];
        queued := queued[1..];
        if taskId !in tasks || tasks[taskId].state != Queued {
          continue;
        }
        return tasks[taskId];
      }
      task := null;
    }

    /** The part of Claim after expiry. */
    method Assign(workerId: string, now: int, leaseId: string) returns (reply: ClaimReply)
      requires Filed() && Linked(Model()) && workerId != ""
      modifies this`queued, this`log, tasks.Values
      ensures Filed() && fresh(Leases() - old(Leases()))
      ensures (Model(), reply) == Assignment(old(Model()), workerId, now, leaseId)
    {
      hide Do, Legal, Assignment, SkipStale;
      ghost var settled, held := Model(), Leases();
      AssignmentGrants(settled, workerId, now, leaseId);
      var task := PopQueued();
      if task == null {
        return NoWork;
      }
      var lease := new LeaseRecord(
        Lease(leaseId, task.spec.id, workerId, now, now + leaseDuration, task.attempts + 1));
      ghost var ready := settled.(queued := SkipStale(settled.queued, settled.tasks));
      assert lease.Model() == NewLease(ready, ready.queued[0], workerId, now, leaseId);
      reply := Assigned(task.spec, lease.Model());
      Grant(task, lease, ready);
      assert Leases() <= held + {lease};
    }

    method Claim(workerId: string, now: int, leaseId: string) returns (reply: ClaimReply)
      requires Valid()
      modifies this`queued, this`log, tasks.Values
      ensures Valid() && fresh(Leases() - old(Leases()))
      ensures (Model(), reply) == LeaseModel.Claim(old(Model()), workerId, now, leaseId)
    {
      hide Inv, Do;
      if workerId == "" {
        return ClaimRefused(InvalidWorker);
      }
      ghost var start := Model();
      ClaimFollows(start, workerId, now, leaseId);
      var _ := ExpireDue(now);
      ghost var settled := Model();
      reply := Assign(workerId, now, leaseId);
      assert LeaseModel.Claim(start, workerId, now, leaseId) == Assignment(settled, workerId, now, leaseId);
    }

    /** activeLeaseLocked: the task, or the error; a due lease of the target is expired on the way. */
    method ActiveLease(taskId: string, leaseId: string, workerId: string, now: int)
      returns (task: TaskRecord?, error: Option<QueueError>)
      requires Valid()
      modifies this`queued, this`log, tasks.Values
      ensures Filed() && Linked(Model()) && Leases() <= old(Leases())
      ensures (Model(), error) == CheckLease(old(Model()), taskId, leaseId, workerId, now)
      ensures error.None? ==>
                && taskId in tasks && task == tasks[taskId]
                && task.lease != null && now < task.lease.expiresAt
                && Holds(Model(), task.lease.Model())
      ensures error.None? ==> task.state == old(task.state)
    {
      InvLists(Model());
      hide Inv;
      task := null;
      if taskId !in tasks {
        return null, Some(TaskNotFound);
      }
      var found := tasks[taskId];
      assert Model().tasks[taskId] == found.Model();
      if found.state == Completed {
        return null, Some(AlreadyCompleted);
      }
      if found.state == Failed {
        return null, Some(TaskFailed);
      }
      if found.state != Leased || found.lease == null || found.lease.id != leaseId {
        return null, Some(StaleLease);
      }
      if found.lease.workerId != workerId {
        return null, Some(WrongWorker);
      }
      if found.lease.expiresAt <= now {
        ExpireTask(found, now);
        return null, Some(StaleLease);
      }
      return found, None;
    }

    /** Move the expiry of the lease that `task` holds. */
    method Extend(task: TaskRecord, now: int)
      requires Filed() && Linked(Model())
      requires task.spec.id in tasks && tasks[task.spec.id] == task && task.lease != null
      requires Legal(Model(), Renewed(task.lease.Model(), now))
      modifies this`log, task.lease
      ensures Filed() && Model() == Do(old(Model()), Renewed(old(task.lease.Model()), now))
      ensures Leases() == old(Leases())
      ensures task.lease.Model() == old(task.lease.Model()).(expiresAt := now + leaseDuration)
    {
      ghost var before := Model();
      log := log + [Renewed(task.lease.Model(), now)];
      task.lease.expiresAt := now + leaseDuration;
      OneRecordChanged(task);
    }

    method Renew(taskId: string, leaseId: string, workerId: string, now: int) returns (reply: RenewReply)
      requires Valid()
      modifies this`queued, this`log, tasks.Values, Leases()
      ensures Valid() && Leases() <= old(Leases())
      ensures (Model(), reply) == LeaseModel.Renew(old(Model()), taskId, leaseId, workerId, now)
      ensures reply.LeaseRenewed? ==>
                && reply.lease.expiresAt == now + leaseDuration
                && taskId in tasks && Model().tasks[taskId].lease == Some(reply.lease)
    {
      hide Inv, Do;
      RenewFollows(Model(), taskId, leaseId, workerId, now);
      var task, error := ActiveLease(taskId, leaseId, workerId, now);
      if error.Some? {
        return RenewRefused(error.value);
      }
      ghost var start, held := Model(), task.lease.Model();
      assert LeaseModel.Renew(start, taskId, leaseId, workerId, now)
          == (Do(start, Renewed(held, now)), LeaseRenewed(held.(expiresAt := now + leaseDuration)));
      Extend(task, now);
      reply := LeaseRenewed(task.lease.Model());
    }

    /** Store a report on `task` and release its lease. */
    method Resolve(task: TaskRecord, result: Result, ghost now: int) returns (outcome: Outcome)
      requires Filed() && Linked(Model())
      requires task.spec.id in tasks && tasks[task.spec.id] == task && task.lease != null
      requires Legal(Model(), Resolved(task.lease.Model(), now, result))
      modifies this`queued, this`log, task
      ensures Filed() && Model() == Do(old(Model()), Resolved(old(task.lease.Model()), now, result))
      ensures Leases() <= old(Leases())
      ensures outcome == OutcomeOf(task.Model())
    {
      ghost var before := Model();
      log := log + [Resolved(task.lease.Model(), now, result)];
      outcome := task.Report(result, maxAttempts);
      if task.state == Queued {
        queued := queued + [task.spec.id];
      }
      assert task.Model() == LeaseModel.Report(before.tasks[task.spec.id], result, maxAttempts);
      OneRecordChanged(task);
    }

    method Complete(taskId: string, leaseId: string, workerId: string, result: Result, now: int)
      returns (reply: CompleteReply)
      requires Valid()
      modifies this`queued, this`log, tasks.Values
      ensures Valid() && Leases() <= old(Leases())
      ensures (Model(), reply) == LeaseModel.Complete(old(Model()), taskId, leaseId, workerId, result, now)
    {
      hide Inv, Do;
      CompleteFollows(Model(), taskId, leaseId, workerId, result, now);
      var task, error := ActiveLease(taskId, leaseId, workerId, now);
      if error.Some? {
        return CompleteRefused(error.value);
      }
      var outcome := Resolve(task, result, now);
      reply := Accepted(outcome);
    }

    /** A copy of one record, or null if there is none. */
    method Get(taskId: string, now: int) returns (copy: TaskRecord?)
      requires Valid()
      modifies this`queued, this`log, tasks.Values
      ensures Valid() && Leases() <= old(Leases()) && Model() == Settle(old(Model()), now)
      ensures copy == null <==> taskId !in tasks
      ensures copy != null ==>
                IsCopy(copy, Model().tasks[taskId])
    {
      hide Inv;
      var _ := ExpireDue(now);
      copy := null;
      if taskId in tasks {
        copy := tasks[taskId].Clone();
      }
    }

    /** Copies of every record, in enqueue order, without looking at the clock. */
    method Observe() returns (copies: seq<TaskRecord>)
      requires Valid()
      ensures forall id :: id in order ==> id in Model().tasks
      ensures CopiesOf(copies, Listing(order, Model().tasks))
    {
      InvLists(Model());
      copies := CopyAll();
    }

    method CopyAll() returns (copies: seq<TaskRecord>)
      requires forall id :: id in order ==> id in tasks
      ensures forall id :: id in order ==> id in Model().tasks
      ensures CopiesOf(copies, Listing(order, Model().tasks))
    {
      ghost var models := Model().tasks;
      copies := [];
      for i := 0 to |order|
        invariant Model().tasks == models && |copies| == i
        invariant forall k :: 0 <= k < i ==> order[k] in models && IsCopy(copies[k], models[order[k]])
      {
        assert order[i] in order;
        var copy := tasks[order[i]].Clone();
        copies := copies + [copy];
      }
    }

    /** Observe, with due leases expired first. */
    method Snapshot(now: int) returns (copies: seq<TaskRecord>)
      requires Valid()
      modifies this`queued, this`log, tasks.Values
      ensures Valid() && Leases() <= old(Leases()) && Model() == Settle(old(Model()), now)
      ensures forall id :: id in order ==> id in Model().tasks
      ensures CopiesOf(copies, Listing(order, Model().tasks))
    {
      hide Inv;
      var _ := ExpireDue(now);
      copies := Observe();
    }

    /** Copies of one job's records, in enqueue order. */
    method JobTasks(jobId: string, now: int) returns (copies: seq<TaskRecord>)
      requires Valid()
      modifies this`queued, this`log, tasks.Values
      ensures Valid() && Leases() <= old(Leases()) && Model() == Settle(old(Model()), now)
      ensures CopiesOf(copies, JobListing(order, Model().tasks, jobId))
    {
      hide Inv;
      var _ := ExpireDue(now);
      InvLists(Model());
      copies := CopyJob(jobId);
    }

    method CopyJob(jobId: string) returns (copies: seq<TaskRecord>)
      requires forall id :: id in order ==> id in tasks
      ensures CopiesOf(copies, JobListing(order, Model().tasks, jobId))
    {
      ghost var models := Model().tasks;
      copies := [];
      for i := 0 to |order|
        invariant Model().tasks == models
        invariant CopiesOf(copies, JobListing(order[..i], models, jobId))
      {
        assert order[..i + 1][..i] == order[..i];
        assert order[i] in order;
        var task := tasks[order[i]];
        if task.spec.jobId == jobId {
          var copy := task.Clone();
          copies := copies + [copy];
        }
      }
      assert order[..|order|] == order;
    }

    /** The state counts. */
    method Stats(now: int) returns (stats: QueueStats)
      requires Valid()
      modifies this`queued, this`log, tasks.Values
      ensures Valid() && Leases() <= old(Leases()) && Model() == Settle(old(Model()), now)
      ensures StatsOf(stats, Model().tasks)
    {
      hide Inv;
      var _ := ExpireDue(now);
      stats := CountStates();
    }

    method CountStates() returns (stats: QueueStats)
      ensures StatsOf(stats, Model().tasks)
    {
      ghost var models := Model().tasks;
      var rest := tasks.Keys;
      ghost var seen: map<string, Task> := map[];
      var q, l, c, f := 0, 0, 0, 0;
      while rest != {}
        invariant Model().tasks == models && rest <= tasks.Keys
        invariant forall id :: id in seen <==> id in models && id !in rest
        invariant forall id :: id in seen ==> seen[id] == models[id]
        invariant q == |InState(seen, Queued)| && l == |InState(seen, Leased)|
        invariant c == |InState(seen, Completed)| && f == |InState(seen, Failed)|
        decreases rest
      {
        var id :| id in rest;
        rest := rest - {id};
        OneMoreInState(seen, id, models[id]);
        match tasks[id].state {
          case Queued => q := q + 1;
          case Leased => l := l + 1;
          case Completed => c := c + 1;
          case Failed => f := f + 1;
        }
        seen := seen[id := models[id]];
      }
      assert seen == models;
      assert models.Keys == tasks.Keys;
      stats := QueueStats(q, l, c, f, |tasks|);
    }
  }

  /** New: null is its error. */
  method New(leaseDuration: int, maxAttempts: int) returns (queue: Queue?)
    ensures queue == null <==> leaseDuration <= 0 || maxAttempts <= 0
    ensures queue != null ==> fresh(queue) && queue.Valid() && queue.Model() == Init(leaseDuration, maxAttempts)
  {
    if leaseDuration <= 0 || maxAttempts <= 0 {
      return null;
    }
    queue := new Queue(leaseDuration, maxAttempts);
  }

  lemma OneMoreInState(seen: map<string, Task>, id: string, t: Task)
    requires id !in seen
    ensures forall st :: |InState(seen[id := t], st)| == |InState(seen, st)| + if t.state == st then 1 else 0
  {
    forall st
      ensures |InState(seen[id := t], st)| == |InState(seen, st)| + if t.state == st then 1 else 0
    {
      assert InState(seen[id := t], st) == InState(seen, st) + if t.state == st then {id} else {};
    }
  }

  lemma Reassociate(a: seq<string>, b: seq<string>, c: seq<string>)
    ensures a + (b + c) == (a + b) + c && a + [] == a
  {
  }

  /** What a claim does after expiry, by what its loop found. */
  lemma AssignmentGrants(settled: State, workerId: string, now: int, leaseId: string)
    requires Linked(settled) && workerId != ""
    ensures var ready := settled.(queued := SkipStale(settled.queued, settled.tasks));
      if ready.queued == [] then Assignment(settled, workerId, now, leaseId) == (ready, NoWork)
      else
        var lease := NewLease(ready, ready.queued[0], workerId, now, leaseId);
        && Legal(ready, Granted(lease))
        && Assignment(settled, workerId, now, leaseId)
           == (Do(ready, Granted(lease)), Assigned(ready.tasks[ready.queued[0]].spec, lease))
  {
  }

  /** One step of settling a list without duplicates. */
  lemma SettleStep(s: State, ids: seq<string>, i: nat, now: int)
    requires Linked(s) && NoDuplicates(ids) && i < |ids| && ids[i] in s.tasks
    ensures SettleOver(s, ids[i..], now) == SettleOver(SettleOne(s, ids[i], now), ids[i + 1..], now)
    ensures DueIds(s, ids[i..], now)
         == (if Due(s.tasks[ids[i]], now) then [ids[i]] else []) + DueIds(SettleOne(s, ids[i], now), ids[i + 1..], now)
  {
    assert ids[i..][0] == ids[i] && ids[i..][1..] == ids[i + 1..];
    DueIdsAfterOne(s, ids[i], ids[i + 1..], now);
  }

  lemma NothingLeft(s: State, now: int)
    requires Linked(s)
    ensures SettleOver(s, [], now) == s && DueIds(s, [], now) == []
  {
  }

  lemma InvLists(s: State)
    requires Inv(s)
    ensures Linked(s) && NoDuplicates(s.order) && forall id :: id in s.order ==> id in s.tasks
  {
  }

  lemma {:induction false} DueIdsAfterOne(s: State, id: string, ids: seq<string>, now: int)
    requires Linked(s) && id !in ids
    ensures DueIds(SettleOne(s, id, now), ids, now) == DueIds(s, ids, now)
  {
    if ids == [] {
    } else {
      DueIdsAfterOne(s, id, ids[1..], now);
    }
  }
}
