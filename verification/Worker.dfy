/**
 The worker's loops: claiming with backoff, renewing on ticks, and resubmitting a result.
 The network is the sequence of outcomes it produces; a loop that runs out of outcomes was cancelled.
 Waits are nanoseconds.
 */
module Worker {
  import Identifiers
  import opened LeaseContract
  import opened LeaseInvariants
  import opened LeaseModel
  import opened LeaseRuns
  import opened Options
  import opened Renewal
  import opened Wire

  const CLAIM_INTERVAL := 500_000_000
  const MIN_BACKOFF := 500_000_000
  const MAX_BACKOFF := 8_000_000_000

  /** One POST: no usable answer (transport, authentication or decoding error), or an answer. */
  datatype Attempt = Lost | Answered(response: Response)

  function NextBackoff(current: int): int {
    if current * 2 > MAX_BACKOFF then MAX_BACKOFF else current * 2
  }

  function Doubled(k: nat): (d: int)
    ensures MIN_BACKOFF <= d
  {
    if k == 0 then MIN_BACKOFF else 2 * Doubled(k - 1)
  }

  /** The wait after the (k+1)-st failure in a row: half a second doubled k times, at most eight seconds. */
  function Backoff(k: nat): (wait: int)
    ensures MIN_BACKOFF <= wait <= MAX_BACKOFF
  {
    if Doubled(k) > MAX_BACKOFF then MAX_BACKOFF else Doubled(k)
  }

  lemma BackoffStep(k: nat)
    ensures Backoff(k + 1) == NextBackoff(Backoff(k))
    ensures Backoff(k) <= Backoff(k + 1)
    ensures Backoff(0) == MIN_BACKOFF
  {
  }

  /** Half a second, one, two, four, eight. */
  lemma BackoffTable()
    ensures Backoff(0) == 500_000_000 && Backoff(1) == 1_000_000_000 && Backoff(2) == 2_000_000_000
    ensures Backoff(3) == 4_000_000_000 && Backoff(4) == 8_000_000_000
  {
    assert Doubled(2) == 4 * MIN_BACKOFF;
    assert Doubled(3) == 8 * MIN_BACKOFF;
    assert Doubled(4) == 16 * MIN_BACKOFF;
  }

  /** After four failures the wait has reached its limit and stays there. */
  lemma {:induction false} BackoffSettles(k: nat)
    requires 4 <= k
    ensures Backoff(k) == MAX_BACKOFF
  {
    if k == 4 {
      assert Doubled(2) == 4 * MIN_BACKOFF;
      assert Doubled(4) == 16 * MIN_BACKOFF;
    } else {
      BackoffSettles(k - 1);
      BackoffStep(k - 1);
    }
  }

  /** The worker takes this attempt as an error and tries again. */
  predicate Retries(a: Attempt) {
    a.Lost? || !Resolves(a.response)
  }

  /** submitResultUntilResolved: send the same request until the first answer; a cancelled loop has no status. */
  method SubmitUntilResolved(request: ResultRequest, attempts: seq<Attempt>)
    returns (status: Option<PullStatus>, waits: seq<int>, sent: seq<ResultRequest>)
    ensures |waits| <= |attempts|
    ensures |sent| == |waits| + if status.Some? then 1 else 0
    ensures forall i :: 0 <= i < |sent| ==> sent[i] == request
    ensures forall i :: 0 <= i < |waits| ==> Retries(attempts[i]) && waits[i] == Backoff(i)
    ensures status.None? <==> |waits| == |attempts|
    ensures status.Some? ==> !Retries(attempts[|waits|]) && status.value == attempts[|waits|].response.status
  {
    var backoff := MIN_BACKOFF;
    waits, sent := [], [];
    for i := 0 to |attempts|
      invariant |waits| == |sent| == i && backoff == Backoff(i)
      invariant forall j :: 0 <= j < i ==> sent[j] == request
      invariant forall j :: 0 <= j < i ==> Retries(attempts[j]) && waits[j] == Backoff(j)
    {
      sent := sent + [request];
      match attempts[i] {
        case Answered(response) =>
          if response.code != UNAUTHORIZED {
            return Some(response.status), waits, sent;
          }
        case Lost =>
      }
      waits := waits + [backoff];
      BackoffStep(i);
      backoff := NextBackoff(backoff);
    }
    status := None;
  }

  /** A tick after which renewLoop goes on: the renewal failed, or the lease was renewed. */
  predicate KeepsRenewing(a: Attempt) {
    Retries(a) || a.response.status == StatusLeaseRenewed
  }

  /** renewLoop: one renewal a tick, until the first answer other than "renewed". */
  method RenewLoop(ticks: seq<Attempt>) returns (sent: nat)
    ensures sent <= |ticks|
    ensures forall i :: 0 <= i < sent - 1 ==> KeepsRenewing(ticks[i])
    ensures sent < |ticks| ==> sent > 0 && !KeepsRenewing(ticks[sent - 1])
  {
    sent := 0;
    while sent < |ticks|
      invariant sent <= |ticks| && forall i :: 0 <= i < sent ==> KeepsRenewing(ticks[i])
    {
      var tick := ticks[sent];
      sent := sent + 1;
      if tick.Lost? || tick.response.code == UNAUTHORIZED {
        continue;
      }
      if tick.response.status != StatusLeaseRenewed {
        return;
      }
    }
  }

  /** What renewLoop sees of the i-th call of a run, which is one of its renewals. */
  ghost function RenewalAnswer(s: State, ops: seq<Op>, i: nat, request: RenewRequest): Attempt
    requires Linked(s) && i < |ops| && ops[i].RenewOp?
  {
    Answered(HandleRenew(Run(s, ops[..i]), request, ops[i].now).1)
  }

  /** Over a network that never loses two renewals in a row every tick of the worker keeps the loop going: a lost
      renewal does, and each one that arrives is answered "renewed", whatever other traffic there is. */
  lemma LossyTickerKeepsRenewing(s: State, ops: seq<Op>, request: RenewRequest, issued: int, delay: int, most: int,
                                 deliveries: seq<Option<int>>, i: nat)
    requires Inv(s) && HeldUntil(s, request.taskId, request.leaseId, request.workerId, issued + s.duration)
    requires ClockForward(ops) && WellFormed(request.workerId, request.taskId, request.leaseId)
    requires 0 <= delay && 3 * HALF_SECOND <= s.duration - delay
    requires 0 <= most && 3 * most < s.duration - delay
    requires DelaysWithin(deliveries, most) && NeverTwoLost(deliveries)
    requires var interval := Interval(s.duration - delay);
      && Arrivals(ops, request.taskId, request.leaseId, request.workerId)
         == TickArrivals(issued + delay, interval, deliveries)
      && (forall k :: 0 <= k < |ops| && !ops[k].EnqueueOp? ==>
            ops[k].now <= NextTick(issued + delay, interval, deliveries) + most)
    requires forall k :: 0 <= k < |ops| ==> !IsReport(ops[k], request.taskId, request.leaseId, request.workerId)
    requires i < |ops| && IsRenewal(ops[i], request.taskId, request.leaseId, request.workerId)
    ensures KeepsRenewing(Lost) && KeepsRenewing(RenewalAnswer(s, ops, i, request))
    ensures RenewalAnswer(s, ops, i, request) == Answered(Response(OK, StatusLeaseRenewed))
  {
    hide Inv, Renew;
    LossyRenewalsInTime(issued, delay, s.duration, most, deliveries);
    EveryRenewalIsGranted(s, ops, request.taskId, request.leaseId, request.workerId, issued + s.duration, i);
  }

  /** The loop goes on after an answer of the coordinator exactly if the worker held the lease when its renewal
      arrived, and so from then on for a whole duration. */
  lemma LoopFollowsLease(s: State, request: RenewRequest, now: int)
    requires Inv(s)
    ensures var (s', answer, _) := HandleRenew(s, request, now);
            var held := HeldAt(s, request.taskId, request.leaseId, request.workerId, now);
      && (KeepsRenewing(Answered(answer)) <==> WellFormed(request.workerId, request.taskId, request.leaseId) && held)
      && (KeepsRenewing(Answered(answer)) ==>
            HeldUntil(s', request.taskId, request.leaseId, request.workerId, now + s.duration))
  {
    hide Inv, HandleRenew, HeldAt, WellFormed, Follows, RefusedState;
    RenewAnswerIsTrue(s, request, now);
    if request.taskId in s.tasks {
      InvTask(s, request.taskId);
    }
  }

  // ---- claiming ----

  /** One claim: no usable answer, or an answer that may carry a task. */
  datatype ClaimAttempt = ClaimLost | ClaimAnswered(response: Response, hasTask: bool)

  /** Unlike for results, any claim answer other than 200 is an error. */
  predicate ClaimFails(a: ClaimAttempt) {
    a.ClaimLost? || a.response.code != OK
  }

  /** A claim that brings a task. */
  predicate Assigns(a: ClaimAttempt) {
    !ClaimFails(a) && a.response.status == StatusTaskAvailable && a.hasTask
  }

  /** Of the coordinator's answers the slot takes exactly those to a malformed worker ID as failures, and executes
      exactly when the coordinator leased it a task. */
  lemma SlotFollowsCoordinator(s: State, workerId: string, requeueAt: int, between: seq<Op>, claimAt: int, leaseId: string)
    requires Inv(s)
    ensures var (_, answer, task) := HandleClaim(s, workerId, requeueAt, between, claimAt, leaseId);
            var attempt := ClaimAnswered(answer, task.Some?);
      && (ClaimFails(attempt) <==> !Identifiers.Safe(workerId, 64))
      && (Assigns(attempt) <==> task.Some?)
  {
    hide Inv, HandleClaim, Follows, TellsOf;
    ClaimAnswerIsTrue(s, workerId, requeueAt, between, claimAt, leaseId);
  }

  /** How many attempts just before attempt i failed in a row. */
  function FailuresBefore(attempts: seq<ClaimAttempt>, i: nat): nat
    requires i <= |attempts|
  {
    if i == 0 || !ClaimFails(attempts[i - 1]) then 0 else FailuresBefore(attempts, i - 1) + 1
  }

  /** They are the attempts just before i, as far back as all of them failed. */
  lemma {:induction false} FailuresAreInARow(attempts: seq<ClaimAttempt>, i: nat)
    requires i <= |attempts|
    ensures FailuresBefore(attempts, i) <= i
    ensures forall j :: i - FailuresBefore(attempts, i) <= j < i ==> ClaimFails(attempts[j])
    ensures FailuresBefore(attempts, i) < i ==> !ClaimFails(attempts[i - FailuresBefore(attempts, i) - 1])
  {
    if i == 0 || !ClaimFails(attempts[i - 1]) {
    } else {
      FailuresAreInARow(attempts, i - 1);
    }
  }

  datatype Action = Wait(duration: int) | Execute

  /** runSlot: what the slot does after each claim.  A failure waits with backoff, an answer without a task
      waits the claim interval, a task is executed at once. */
  method RunSlot(attempts: seq<ClaimAttempt>) returns (actions: seq<Action>)
    ensures |actions| == |attempts|
    ensures forall i :: 0 <= i < |attempts| ==>
              actions[i] == if ClaimFails(attempts[i]) then Wait(Backoff(FailuresBefore(attempts, i)))
                            else if Assigns(attempts[i]) then Execute
                            else Wait(500_000_000)
  {
    hide Backoff, NextBackoff;
    BackoffStep(0);
    var backoff := MIN_BACKOFF;
    actions := [];
    for i := 0 to |attempts|
      invariant |actions| == i && backoff == Backoff(FailuresBefore(attempts, i))
      invariant forall j :: 0 <= j < i ==>
                  actions[j] == if ClaimFails(attempts[j]) then Wait(Backoff(FailuresBefore(attempts, j)))
                                else if Assigns(attempts[j]) then Execute
                                else Wait(CLAIM_INTERVAL)
    {
      var claim := attempts[i];
      if claim.ClaimLost? || claim.response.code != OK {
        actions := actions + [Wait(backoff)];
        BackoffStep(FailuresBefore(attempts, i));
        backoff := NextBackoff(backoff);
        continue;
      }
      backoff := MIN_BACKOFF;
      if claim.response.status == StatusNoTask || !claim.hasTask {
        actions := actions + [Wait(CLAIM_INTERVAL)];
        continue;
      }
      if claim.response.status != StatusTaskAvailable {
        actions := actions + [Wait(CLAIM_INTERVAL)];
        continue;
      }
      actions := actions + [Execute];
    }
  }
}
