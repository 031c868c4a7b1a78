/**
 Does renewing keep a lease alive?  The worker renews on a ticker whose period it computes from the
 lease; the queue judges each renewal by its own clock; other calls go on in between.
 Times are nanoseconds on the coordinator's clock.
 */
module Renewal {
  import opened Options
  import opened LeaseModel
  import opened LeaseInvariants
  import opened LeaseRuns
  import opened LeaseDeadlines
  import opened LeaseSettling

  const HALF_SECOND := 500_000_000
  const FIVE_SECONDS := 5_000_000_000

  /** Go's integer division rounds towards zero. */
  function Third(x: int): int {
    if x >= 0 then x / 3 else -((-x) / 3)
  }

  /** The period renewLoop chooses for a lease it believes to last `leaseLength` more. */
  method RenewInterval(leaseLength: int) returns (interval: int)
    ensures interval == Interval(leaseLength)
  {
    interval := Third(leaseLength);
    if interval < HALF_SECOND {
      interval := HALF_SECOND;
    }
    if interval > FIVE_SECONDS {
      interval := FIVE_SECONDS;
    }
  }

  /** A third of the lease, held between half a second and five seconds whatever the worker's clock says. */
  function Interval(leaseLength: int): (interval: int)
    ensures HALF_SECOND <= interval <= FIVE_SECONDS
    ensures 3 * HALF_SECOND <= leaseLength ==> 3 * interval <= leaseLength
    ensures 3 * HALF_SECOND <= leaseLength <= 3 * FIVE_SECONDS ==> leaseLength < 3 * (interval + 1)
  {
    var third := Third(leaseLength);
    if third < HALF_SECOND then HALF_SECOND else if third > FIVE_SECONDS then FIVE_SECONDS else third
  }

  /** Half a second up to 1.5 s, five seconds from 15 s, and the whole third in between. */
  lemma IntervalExactly(leaseLength: int)
    ensures leaseLength <= 1_500_000_000 ==> Interval(leaseLength) == 500_000_000
    ensures 15_000_000_000 <= leaseLength ==> Interval(leaseLength) == 5_000_000_000
    ensures 1_500_000_000 <= leaseLength <= 15_000_000_000 ==>
              3 * Interval(leaseLength) <= leaseLength < 3 * Interval(leaseLength) + 3
  {
  }

  // ---- a lease on the queue, among other traffic ----

  predicate IsRenewal(op: Op, id: string, leaseId: string, workerId: string) {
    op.RenewOp? && op.taskId == id && op.leaseId == leaseId && op.workerId == workerId
  }

  predicate IsReport(op: Op, id: string, leaseId: string, workerId: string) {
    op.CompleteOp? && op.taskId == id && op.leaseId == leaseId && op.workerId == workerId
  }

  function NextDeadline(op: Op, id: string, leaseId: string, workerId: string, deadline: int, duration: int): int {
    if IsRenewal(op, id, leaseId, workerId) then op.now + duration else deadline
  }

  lemma SettleKeepsUndue(s: State, id: string, leaseId: string, workerId: string, deadline: int, now: int)
    requires Inv(s) && HeldUntil(s, id, leaseId, workerId, deadline) && now < deadline
    ensures HeldUntil(Settle(s, now), id, leaseId, workerId, deadline)
  {
    SettleOverRecord(s, s.order, now, id);
  }

  lemma ClaimKeepsUndue(s: State, workerId: string, now: int, newId: string,
                        id: string, leaseId: string, holder: string, deadline: int)
    requires Inv(s) && HeldUntil(s, id, leaseId, holder, deadline) && now < deadline
    ensures HeldUntil(Claim(s, workerId, now, newId).0, id, leaseId, holder, deadline)
  {
    hide Inv;
    SettleKeepsUndue(s, id, leaseId, holder, deadline, now);
  }

  /** Before the deadline only the holder's own report ends the lease, and only its renewals move the deadline. */
  lemma StillHeld(s: State, op: Op, id: string, leaseId: string, workerId: string, deadline: int)
    requires Inv(s) && HeldUntil(s, id, leaseId, workerId, deadline)
    requires !op.EnqueueOp? ==> op.now < deadline
    requires !IsReport(op, id, leaseId, workerId)
    ensures HeldUntil(Apply(s, op), id, leaseId, workerId, NextDeadline(op, id, leaseId, workerId, deadline, s.duration))
    ensures IsRenewal(op, id, leaseId, workerId) ==> Renew(s, id, leaseId, workerId, op.now).1.LeaseRenewed?
  {
    hide Inv;
    match op
    case EnqueueOp(_) =>
    case ClaimOp(claimer, now, newId) =>
      ClaimKeepsUndue(s, claimer, now, newId, id, leaseId, workerId, deadline);
    case SettleOp(now) =>
      SettleKeepsUndue(s, id, leaseId, workerId, deadline, now);
    case RenewOp(_, _, _, _) =>
    case CompleteOp(_, _, _, _, _) =>
  }

  /** Every call comes before the deadline in force when it comes. */
  predicate Timely(ops: seq<Op>, id: string, leaseId: string, workerId: string, deadline: int, duration: int)
    decreases |ops|
  {
    ops == [] ||
    (&& (!ops[0].EnqueueOp? ==> ops[0].now < deadline)
     && !IsReport(ops[0], id, leaseId, workerId)
     && Timely(ops[1..], id, leaseId, workerId, NextDeadline(ops[0], id, leaseId, workerId, deadline, duration), duration))
  }

  /** The times at which the holder's renewals reach the queue. */
  function Arrivals(ops: seq<Op>, id: string, leaseId: string, workerId: string): seq<int> {
    if ops == [] then []
    else (if IsRenewal(ops[0], id, leaseId, workerId) then [ops[0].now] else []) + Arrivals(ops[1..], id, leaseId, workerId)
  }

  /** The deadline after renewals at these times. */
  function Deadline(deadline: int, arrivals: seq<int>, duration: int): int {
    if arrivals == [] then deadline else arrivals[|arrivals| - 1] + duration
  }

  /** Each renewal arrives before the deadline the previous one set. */
  predicate Gapped(deadline: int, arrivals: seq<int>, duration: int)
    decreases |arrivals|
  {
    arrivals == [] || (arrivals[0] < deadline && Gapped(arrivals[0] + duration, arrivals[1..], duration))
  }

  lemma {:induction false} GappedIsTimely(ops: seq<Op>, id: string, leaseId: string, workerId: string,
                                        deadline: int, duration: int)
    requires ClockForward(ops)
    requires Gapped(deadline, Arrivals(ops, id, leaseId, workerId), duration)
    requires forall i :: 0 <= i < |ops| ==> !IsReport(ops[i], id, leaseId, workerId)
    requires forall i :: 0 <= i < |ops| && !ops[i].EnqueueOp? ==>
               ops[i].now < Deadline(deadline, Arrivals(ops, id, leaseId, workerId), duration)
    ensures Timely(ops, id, leaseId, workerId, deadline, duration)
    decreases |ops|
  {
    if ops == [] {
    } else {
      var rest := Arrivals(ops[1..], id, leaseId, workerId);
      if IsRenewal(ops[0], id, leaseId, workerId) {
        assert Arrivals(ops, id, leaseId, workerId)[1..] == rest;
        GappedIsTimely(ops[1..], id, leaseId, workerId, ops[0].now + duration, duration);
      } else {
        assert Arrivals(ops, id, leaseId, workerId) == rest;
        if rest != [] {
          FirstArrivalIsLater(ops, id, leaseId, workerId);
        }
        GappedIsTimely(ops[1..], id, leaseId, workerId, deadline, duration);
      }
    }
  }

  lemma {:induction false} FirstArrivalIsAnOp(ops: seq<Op>, id: string, leaseId: string, workerId: string)
    requires Arrivals(ops, id, leaseId, workerId) != []
    ensures exists i :: 0 <= i < |ops| && !ops[i].EnqueueOp? && ops[i].now == Arrivals(ops, id, leaseId, workerId)[0]
  {
    if IsRenewal(ops[0], id, leaseId, workerId) {
    } else {
      FirstArrivalIsAnOp(ops[1..], id, leaseId, workerId);
      var i :| 0 <= i < |ops[1..]| && !ops[1..][i].EnqueueOp?
        && ops[1..][i].now == Arrivals(ops[1..], id, leaseId, workerId)[0];
      assert ops[i + 1] == ops[1..][i];
    }
  }

  lemma FirstArrivalIsLater(ops: seq<Op>, id: string, leaseId: string, workerId: string)
    requires ClockForward(ops) && Arrivals(ops, id, leaseId, workerId) != []
    ensures !ops[0].EnqueueOp? ==> ops[0].now <= Arrivals(ops, id, leaseId, workerId)[0]
  {
    FirstArrivalIsAnOp(ops, id, leaseId, workerId);
  }

  lemma {:induction false} TimelyKeepsHolding(s: State, ops: seq<Op>, id: string, leaseId: string, workerId: string,
                                             deadline: int)
    requires Inv(s) && HeldUntil(s, id, leaseId, workerId, deadline)
    requires Timely(ops, id, leaseId, workerId, deadline, s.duration)
    ensures HeldUntil(Run(s, ops), id, leaseId, workerId, Deadline(deadline, Arrivals(ops, id, leaseId, workerId), s.duration))
    decreases |ops|
  {
    hide Inv, Apply, HeldUntil;
    if ops == [] {
    } else {
      StillHeld(s, ops[0], id, leaseId, workerId, deadline);
      ApplyFollows(s, ops[0]);
      TimelyKeepsHolding(Apply(s, ops[0]), ops[1..], id, leaseId, workerId,
                         NextDeadline(ops[0], id, leaseId, workerId, deadline, s.duration));
    }
  }

  /** If each renewal arrives before the previous deadline, then through any traffic up to the last
      deadline the lease never expires. */
  lemma RenewalsKeepLease(s: State, ops: seq<Op>, id: string, leaseId: string, workerId: string, deadline: int)
    requires Inv(s) && HeldUntil(s, id, leaseId, workerId, deadline) && ClockForward(ops)
    requires Gapped(deadline, Arrivals(ops, id, leaseId, workerId), s.duration)
    requires forall i :: 0 <= i < |ops| ==> !IsReport(ops[i], id, leaseId, workerId)
    requires forall i :: 0 <= i < |ops| && !ops[i].EnqueueOp? ==>
               ops[i].now < Deadline(deadline, Arrivals(ops, id, leaseId, workerId), s.duration)
    ensures HeldUntil(Run(s, ops), id, leaseId, workerId, Deadline(deadline, Arrivals(ops, id, leaseId, workerId), s.duration))
  {
    hide Inv;
    GappedIsTimely(ops, id, leaseId, workerId, deadline, s.duration);
    TimelyKeepsHolding(s, ops, id, leaseId, workerId, deadline);
  }

  // ---- the ticker ----

  /** Ticks come every `interval` after `start`.  The renewal of a tick reaches the queue after the
      given delay, or is lost (None).  These are the arrival times. */
  function TickArrivals(start: int, interval: int, deliveries: seq<Option<int>>): seq<int>
    decreases |deliveries|
  {
    if deliveries == [] then []
    else
      (if deliveries[0].Some? then [start + interval + deliveries[0].value] else [])
      + TickArrivals(start + interval, interval, deliveries[1..])
  }

  predicate DelaysWithin(deliveries: seq<Option<int>>, most: int) {
    forall i :: 0 <= i < |deliveries| && deliveries[i].Some? ==> 0 <= deliveries[i].value <= most
  }

  predicate NeverTwoLost(deliveries: seq<Option<int>>) {
    forall i :: 0 <= i < |deliveries| - 1 ==> deliveries[i].Some? || deliveries[i + 1].Some?
  }

  predicate NoneLost(deliveries: seq<Option<int>>) {
    forall i :: 0 <= i < |deliveries| ==> deliveries[i].Some?
  }

  /** The time of the tick after all of these. */
  function NextTick(start: int, interval: int, deliveries: seq<Option<int>>): int
    decreases |deliveries|
  {
    if deliveries == [] then start + interval else NextTick(start + interval, interval, deliveries[1..])
  }

  lemma TickStep(start: int, interval: int, deliveries: seq<Option<int>>)
    requires deliveries != []
    ensures var tail := TickArrivals(start + interval, interval, deliveries[1..]);
      TickArrivals(start, interval, deliveries)
      == if deliveries[0].Some? then [start + interval + deliveries[0].value] + tail else tail
    ensures NextTick(start, interval, deliveries) == NextTick(start + interval, interval, deliveries[1..])
  {
  }

  lemma NoTicks(start: int, interval: int, deadline: int, duration: int)
    ensures TickArrivals(start, interval, []) == [] && NextTick(start, interval, []) == start + interval
    ensures Gapped(deadline, [], duration) && Deadline(deadline, [], duration) == deadline
  {
  }

  lemma GappedStep(deadline: int, arrival: int, arrivals: seq<int>, duration: int)
    ensures Gapped(deadline, [arrival] + arrivals, duration)
       <==> arrival < deadline && Gapped(arrival + duration, arrivals, duration)
    ensures Deadline(deadline, [arrival] + arrivals, duration) == Deadline(arrival + duration, arrivals, duration)
  {
    assert ([arrival] + arrivals)[1..] == arrivals;
  }

  lemma RestDelivered(deliveries: seq<Option<int>>, most: int)
    requires deliveries != [] && DelaysWithin(deliveries, most)
    ensures DelaysWithin(deliveries[1..], most)
    ensures deliveries[0].Some? ==> 0 <= deliveries[0].value <= most
    ensures NeverTwoLost(deliveries) ==>
              && NeverTwoLost(deliveries[1..])
              && (deliveries[0].None? && deliveries[1..] != [] ==> deliveries[1..][0].Some?)
    ensures NoneLost(deliveries) ==> deliveries[0].Some? && NoneLost(deliveries[1..])
  {
    assert forall i :: 0 <= i < |deliveries| - 1 ==> deliveries[1..][i] == deliveries[i + 1];
  }

  /** If two periods and a delay fit in a lease and in the time left to the deadline, single losses never let
      the lease run out, however long it goes on: it outlasts the arrival of the renewal that the next tick
      sends. */
  lemma {:induction false} SingleLossesAreHarmless(start: int, interval: int, deliveries: seq<Option<int>>,
                                                  most: int, deadline: int, duration: int)
    requires 0 < interval && 0 <= most && DelaysWithin(deliveries, most) && NeverTwoLost(deliveries)
    requires 2 * interval + most < duration
    requires start + interval + most < deadline
    requires (deliveries != [] && deliveries[0].None?) ==> start + 2 * interval + most < deadline
    ensures var arrivals := TickArrivals(start, interval, deliveries);
      && Gapped(deadline, arrivals, duration)
      && NextTick(start, interval, deliveries) + most < Deadline(deadline, arrivals, duration)
    decreases |deliveries|
  {
    hide TickArrivals, NextTick, Gapped, Deadline, DelaysWithin, NeverTwoLost, NoneLost;
    if deliveries == [] {
      NoTicks(start, interval, deadline, duration);
    } else {
      var rest := deliveries[1..];
      var tail := TickArrivals(start + interval, interval, rest);
      RestDelivered(deliveries, most);
      TickStep(start, interval, deliveries);
      if deliveries[0].Some? {
        var arrival := start + interval + deliveries[0].value;
        GappedStep(deadline, arrival, tail, duration);
        SingleLossesAreHarmless(start + interval, interval, rest, most, arrival + duration, duration);
      } else {
        SingleLossesAreHarmless(start + interval, interval, rest, most, deadline, duration);
      }
    }
  }

  /** Renewing despite losses.  A lease of length `duration` is granted at `issued`; the worker starts its
      renew loop `delay` later and reads the remaining length without skew.  If at least 1.5 s remain,
      renewals take less than a third of that, and no two in a row are lost, each renewal that arrives
      arrives in time, and the lease outlasts the arrival of the next one. */
  lemma LossyRenewalsInTime(issued: int, delay: int, duration: int, most: int, deliveries: seq<Option<int>>)
    requires 0 <= delay && 3 * HALF_SECOND <= duration - delay
    requires 0 <= most && 3 * most < duration - delay
    requires DelaysWithin(deliveries, most) && NeverTwoLost(deliveries)
    ensures var interval := Interval(duration - delay);
            var arrivals := TickArrivals(issued + delay, interval, deliveries);
      && Gapped(issued + duration, arrivals, duration)
      && NextTick(issued + delay, interval, deliveries) + most < Deadline(issued + duration, arrivals, duration)
  {
    SingleLossesAreHarmless(issued + delay, Interval(duration - delay), deliveries, most, issued + duration, duration);
  }

  lemma {:induction false} ReliableTicks(start: int, interval: int, deliveries: seq<Option<int>>,
                                        most: int, deadline: int, duration: int)
    requires 0 < interval && 0 <= most && DelaysWithin(deliveries, most) && NoneLost(deliveries)
    requires interval + most < duration && start + interval + most < deadline
    ensures var arrivals := TickArrivals(start, interval, deliveries);
      && Gapped(deadline, arrivals, duration)
      && NextTick(start, interval, deliveries) + most < Deadline(deadline, arrivals, duration)
    decreases |deliveries|
  {
    hide TickArrivals, NextTick, Gapped, Deadline, DelaysWithin, NeverTwoLost, NoneLost;
    if deliveries == [] {
      NoTicks(start, interval, deadline, duration);
    } else {
      RestDelivered(deliveries, most);
      var rest := deliveries[1..];
      var arrival := start + interval + deliveries[0].value;
      TickStep(start, interval, deliveries);
      GappedStep(deadline, arrival, TickArrivals(start + interval, interval, rest), duration);
      ReliableTicks(start + interval, interval, rest, most, arrival + duration, duration);
    }
  }

  /** Whatever length the worker's clock makes it believe in, with every renewal delivered any lease longer
      than five seconds plus start delay plus message delay is kept. */
  lemma SkewedRenewalsInTime(issued: int, delay: int, believed: int, duration: int, most: int, deliveries: seq<Option<int>>)
    requires 0 <= delay && 0 <= most && FIVE_SECONDS + delay + most < duration
    requires DelaysWithin(deliveries, most) && NoneLost(deliveries)
    ensures var interval := Interval(believed);
            var arrivals := TickArrivals(issued + delay, interval, deliveries);
      && Gapped(issued + duration, arrivals, duration)
      && NextTick(issued + delay, interval, deliveries) + most < Deadline(issued + duration, arrivals, duration)
  {
    ReliableTicks(issued + delay, Interval(believed), deliveries, most, issued + duration, duration);
  }

  /** Both together, on the queue: through any other traffic up to the last deadline, a claimed lease whose
      renewals arrive as the ticker sends them is still held, and its deadline lies beyond the next tick. */
  lemma LossyTickerKeepsLease(s: State, ops: seq<Op>, id: string, leaseId: string, workerId: string,
                              issued: int, delay: int, most: int, deliveries: seq<Option<int>>)
    requires Inv(s) && HeldUntil(s, id, leaseId, workerId, issued + s.duration) && ClockForward(ops)
    requires 0 <= delay && 3 * HALF_SECOND <= s.duration - delay
    requires 0 <= most && 3 * most < s.duration - delay
    requires DelaysWithin(deliveries, most) && NeverTwoLost(deliveries)
    requires Arrivals(ops, id, leaseId, workerId) == TickArrivals(issued + delay, Interval(s.duration - delay), deliveries)
    requires forall i :: 0 <= i < |ops| ==> !IsReport(ops[i], id, leaseId, workerId)
    requires forall i :: 0 <= i < |ops| && !ops[i].EnqueueOp? ==>
               ops[i].now <= NextTick(issued + delay, Interval(s.duration - delay), deliveries) + most
    ensures exists deadline ::
              && NextTick(issued + delay, Interval(s.duration - delay), deliveries) + most < deadline
              && HeldUntil(Run(s, ops), id, leaseId, workerId, deadline)
  {
    hide Inv;
    LossyRenewalsInTime(issued, delay, s.duration, most, deliveries);
    RenewalsKeepLease(s, ops, id, leaseId, workerId, issued + s.duration);
  }

  /** The same for a worker with any clock at all, when every renewal is delivered and the lease is longer
      than five seconds plus both delays. */
  lemma SkewedTickerKeepsLease(s: State, ops: seq<Op>, id: string, leaseId: string, workerId: string,
                               issued: int, delay: int, believed: int, most: int, deliveries: seq<Option<int>>)
    requires Inv(s) && HeldUntil(s, id, leaseId, workerId, issued + s.duration) && ClockForward(ops)
    requires 0 <= delay && 0 <= most && FIVE_SECONDS + delay + most < s.duration
    requires DelaysWithin(deliveries, most) && NoneLost(deliveries)
    requires Arrivals(ops, id, leaseId, workerId) == TickArrivals(issued + delay, Interval(believed), deliveries)
    requires forall i :: 0 <= i < |ops| ==> !IsReport(ops[i], id, leaseId, workerId)
    requires forall i :: 0 <= i < |ops| && !ops[i].EnqueueOp? ==>
               ops[i].now <= NextTick(issued + delay, Interval(believed), deliveries) + most
    ensures exists deadline ::
              && NextTick(issued + delay, Interval(believed), deliveries) + most < deadline
              && HeldUntil(Run(s, ops), id, leaseId, workerId, deadline)
  {
    hide Inv;
    SkewedRenewalsInTime(issued, delay, believed, s.duration, most, deliveries);
    RenewalsKeepLease(s, ops, id, leaseId, workerId, issued + s.duration);
  }

  /** No claim draws this lease ID. */
  predicate NotDrawn(ops: seq<Op>, leaseId: string) {
    forall i :: 0 <= i < |ops| && ops[i].ClaimOp? ==> ops[i].leaseId != leaseId
  }

  /** If the task holds the lease named, it is this worker's and its deadline is at most `latest`. */
  predicate AtMostUntil(s: State, id: string, leaseId: string, workerId: string, latest: int) {
    && NotExtended(s, id, leaseId, latest)
    && (id in s.tasks && s.tasks[id].lease.Some? && s.tasks[id].lease.value.id == leaseId ==>
          s.tasks[id].lease.value.workerId == workerId)
  }

  lemma SettleGivesNothing(s: State, id: string, now: int)
    requires Inv(s)
    ensures id in Settle(s, now).tasks <==> id in s.tasks
    ensures id in s.tasks && Settle(s, now).tasks[id].lease.Some? ==> Settle(s, now).tasks[id] == s.tasks[id]
  {
    SettleOverRecord(s, s.order, now, id);
  }

  lemma LostRenewal(s: State, op: Op, id: string, leaseId: string, workerId: string, latest: int)
    requires Inv(s) && AtMostUntil(s, id, leaseId, workerId, latest)
    requires op.ClaimOp? ==> op.leaseId != leaseId
    requires !IsRenewal(op, id, leaseId, workerId)
    ensures AtMostUntil(Apply(s, op), id, leaseId, workerId, latest)
  {
    hide Inv;
    match op
    case EnqueueOp(_) =>
    case ClaimOp(_, now, _) => SettleGivesNothing(s, id, now);
    case SettleOp(now) => SettleGivesNothing(s, id, now);
    case RenewOp(_, _, _, _) =>
    case CompleteOp(_, _, _, _, _) =>
  }

  /** Without its holder's renewals a lease never gets a later deadline; renewals by others are refused. */
  lemma {:induction false} LostRenewals(s: State, ops: seq<Op>, id: string, leaseId: string, workerId: string, deadline: int)
    requires Inv(s) && AtMostUntil(s, id, leaseId, workerId, deadline)
    requires NotDrawn(ops, leaseId)
    requires Arrivals(ops, id, leaseId, workerId) == []
    ensures NotExtended(Run(s, ops), id, leaseId, deadline)
    decreases |ops|
  {
    hide Inv;
    if ops == [] {
    } else {
      LostRenewal(s, ops[0], id, leaseId, workerId, deadline);
      ApplyFollows(s, ops[0]);
      LostRenewals(Apply(s, ops[0]), ops[1..], id, leaseId, workerId, deadline);
    }
  }

  /** A lease that is not renewed: through any other traffic a renewal or report of its holder is accepted
      exactly before the deadline. */
  lemma WithoutRenewals(s: State, ops: seq<Op>, id: string, leaseId: string, workerId: string, deadline: int,
                        result: Result, now: int)
    requires Inv(s) && HeldUntil(s, id, leaseId, workerId, deadline) && ClockForward(ops)
    requires NotDrawn(ops, leaseId) && Arrivals(ops, id, leaseId, workerId) == []
    requires forall i :: 0 <= i < |ops| ==> !IsReport(ops[i], id, leaseId, workerId)
    requires forall i :: 0 <= i < |ops| && !ops[i].EnqueueOp? ==> ops[i].now <= now
    ensures Renew(Run(s, ops), id, leaseId, workerId, now).1.LeaseRenewed? <==> now < deadline
    ensures Complete(Run(s, ops), id, leaseId, workerId, result, now).1.Accepted? <==> now < deadline
  {
    hide Inv, Renew, Complete;
    if now < deadline {
      RenewalsKeepLease(s, ops, id, leaseId, workerId, deadline);
      AcceptedWhileHeld(Run(s, ops), id, leaseId, workerId, result, now);
    } else {
      LostRenewals(s, ops, id, leaseId, workerId, deadline);
      LateIsRefused(Run(s, ops), id, leaseId, workerId, result, deadline, now);
    }
  }

  /** The first renewal of a lease arrived at once, and the next two were lost.  Through any other traffic the
      renewal of the fourth tick, and a report made then, is accepted exactly if it comes less than
      `s.duration - 3 * interval` after the tick: there are at most two nanoseconds for leases from 1.5 to 15 s,
      whose period is a third, none for shorter ones, and more the longer the lease for those above 15 s. */
  lemma WhenTwoLossesAreTooMany(s: State, ops: seq<Op>, id: string, leaseId: string, workerId: string,
                                issued: int, late: int, result: Result)
    requires Inv(s) && HeldUntil(s, id, leaseId, workerId, issued + s.duration) && ClockForward(ops)
    requires HALF_SECOND < s.duration && 0 <= late
    requires NotDrawn(ops, leaseId) && Arrivals(ops, id, leaseId, workerId) == []
    requires forall i :: 0 <= i < |ops| ==> !IsReport(ops[i], id, leaseId, workerId)
    requires forall i :: 0 <= i < |ops| && !ops[i].EnqueueOp? ==> ops[i].now <= issued + 4 * Interval(s.duration) + late
    ensures var interval := Interval(s.duration);
            var (renewed, reply) := Renew(s, id, leaseId, workerId, issued + interval);
            var now := issued + 4 * interval + late;
      && reply.LeaseRenewed?
      && Linked(renewed)
      && (Renew(Run(renewed, ops), id, leaseId, workerId, now).1.LeaseRenewed? <==> late < s.duration - 3 * interval)
      && (Complete(Run(renewed, ops), id, leaseId, workerId, result, now).1.Accepted? <==> late < s.duration - 3 * interval)
  {
    hide Inv, Complete, Renew, Follows;
    var interval := Interval(s.duration);
    var first := RenewOp(id, leaseId, workerId, issued + interval);
    StillHeld(s, first, id, leaseId, workerId, issued + s.duration);
    ApplyFollows(s, first);
    WithoutRenewals(Apply(s, first), ops, id, leaseId, workerId, issued + interval + s.duration, result,
                    issued + 4 * interval + late);
  }

  // ---- a renewal that comes too late loses the lease ----

  /** The task does not hold the lease named. */
  predicate Released(s: State, id: string, leaseId: string) {
    !(id in s.tasks && s.tasks[id].lease.Some? && s.tasks[id].lease.value.id == leaseId)
  }

  lemma ReleasedStays(s: State, op: Op, id: string, leaseId: string)
    requires Inv(s) && Released(s, id, leaseId) && (op.ClaimOp? ==> op.leaseId != leaseId)
    ensures Released(Apply(s, op), id, leaseId)
  {
    hide Inv;
    match op
    case EnqueueOp(_) =>
    case ClaimOp(_, now, _) => SettleGivesNothing(s, id, now);
    case SettleOp(now) => SettleGivesNothing(s, id, now);
    case RenewOp(_, _, _, _) =>
    case CompleteOp(_, _, _, _, _) =>
  }

  lemma {:induction false} ReleasedForever(s: State, ops: seq<Op>, id: string, leaseId: string)
    requires Inv(s) && Released(s, id, leaseId) && NotDrawn(ops, leaseId)
    ensures Released(Run(s, ops), id, leaseId)
    decreases |ops|
  {
    hide Inv, Released, Apply;
    if ops == [] {
    } else {
      ReleasedStays(s, ops[0], id, leaseId);
      ApplyFollows(s, ops[0]);
      ReleasedForever(Apply(s, ops[0]), ops[1..], id, leaseId);
    }
  }

  /** A renewal by the holder moves the deadline if it is in time, and ends the lease if it is not. */
  lemma HoldersRenewal(s: State, id: string, leaseId: string, workerId: string, latest: int, now: int)
    requires Inv(s) && AtMostUntil(s, id, leaseId, workerId, latest)
    ensures var s' := Renew(s, id, leaseId, workerId, now).0;
      if now < latest then AtMostUntil(s', id, leaseId, workerId, now + s.duration) else Released(s', id, leaseId)
  {
    if id in s.tasks {
      assert TaskOk(s.tasks[id], id, s.maxAttempts);
    }
  }

  lemma {:induction false} LateRenewalLosesLease(s: State, ops: seq<Op>, id: string, leaseId: string, workerId: string,
                                                deadline: int)
    requires Inv(s) && AtMostUntil(s, id, leaseId, workerId, deadline) && NotDrawn(ops, leaseId)
    requires !Gapped(deadline, Arrivals(ops, id, leaseId, workerId), s.duration)
    ensures Released(Run(s, ops), id, leaseId)
    decreases |ops|
  {
    hide Inv, AtMostUntil, Released;
    if ops == [] {
    } else {
      var next, rest := Apply(s, ops[0]), Arrivals(ops[1..], id, leaseId, workerId);
      ApplyFollows(s, ops[0]);
      if !IsRenewal(ops[0], id, leaseId, workerId) {
        assert Arrivals(ops, id, leaseId, workerId) == rest;
        LostRenewal(s, ops[0], id, leaseId, workerId, deadline);
        LateRenewalLosesLease(next, ops[1..], id, leaseId, workerId, deadline);
      } else {
        HoldersRenewal(s, id, leaseId, workerId, deadline, ops[0].now);
        GappedStep(deadline, ops[0].now, rest, s.duration);
        if ops[0].now < deadline {
          LateRenewalLosesLease(next, ops[1..], id, leaseId, workerId, ops[0].now + s.duration);
        } else {
          ReleasedForever(next, ops[1..], id, leaseId);
        }
      }
    }
  }

  /** Exactly when renewing keeps a lease: through any traffic up to the last deadline it is held to the end if,
      and only if, each renewal arrived before the deadline the previous one set. */
  lemma RenewingKeepsLeaseExactly(s: State, ops: seq<Op>, id: string, leaseId: string, workerId: string, deadline: int)
    requires Inv(s) && HeldUntil(s, id, leaseId, workerId, deadline) && ClockForward(ops) && NotDrawn(ops, leaseId)
    requires forall i :: 0 <= i < |ops| ==> !IsReport(ops[i], id, leaseId, workerId)
    requires forall i :: 0 <= i < |ops| && !ops[i].EnqueueOp? ==>
               ops[i].now < Deadline(deadline, Arrivals(ops, id, leaseId, workerId), s.duration)
    ensures (exists d :: HeldUntil(Run(s, ops), id, leaseId, workerId, d))
       <==> Gapped(deadline, Arrivals(ops, id, leaseId, workerId), s.duration)
  {
    hide Inv;
    if Gapped(deadline, Arrivals(ops, id, leaseId, workerId), s.duration) {
      RenewalsKeepLease(s, ops, id, leaseId, workerId, deadline);
    } else {
      LateRenewalLosesLease(s, ops, id, leaseId, workerId, deadline);
    }
  }

  // ---- what the worker is answered ----

  lemma {:induction false} TimelyRenewalIsGranted(s: State, ops: seq<Op>, id: string, leaseId: string, workerId: string,
                                                 deadline: int, i: nat)
    requires Inv(s) && HeldUntil(s, id, leaseId, workerId, deadline)
    requires Timely(ops, id, leaseId, workerId, deadline, s.duration)
    requires i < |ops| && IsRenewal(ops[i], id, leaseId, workerId)
    ensures Renew(Run(s, ops[..i]), id, leaseId, workerId, ops[i].now).1.LeaseRenewed?
    decreases |ops|
  {
    hide Inv, Apply, HeldUntil, Renew;
    StillHeld(s, ops[0], id, leaseId, workerId, deadline);
    if i == 0 {
      assert Run(s, ops[..0]) == s;
    } else {
      ApplyFollows(s, ops[0]);
      assert ops[..i][0] == ops[0] && ops[..i][1..] == ops[1..][..i - 1];
      TimelyRenewalIsGranted(Apply(s, ops[0]), ops[1..], id, leaseId, workerId,
                             NextDeadline(ops[0], id, leaseId, workerId, deadline, s.duration), i - 1);
    }
  }

  /** Renewals that arrive in time are all granted. */
  lemma EveryRenewalIsGranted(s: State, ops: seq<Op>, id: string, leaseId: string, workerId: string, deadline: int, i: nat)
    requires Inv(s) && HeldUntil(s, id, leaseId, workerId, deadline) && ClockForward(ops)
    requires Gapped(deadline, Arrivals(ops, id, leaseId, workerId), s.duration)
    requires forall k :: 0 <= k < |ops| ==> !IsReport(ops[k], id, leaseId, workerId)
    requires forall k :: 0 <= k < |ops| && !ops[k].EnqueueOp? ==>
               ops[k].now < Deadline(deadline, Arrivals(ops, id, leaseId, workerId), s.duration)
    requires i < |ops| && IsRenewal(ops[i], id, leaseId, workerId)
    ensures Renew(Run(s, ops[..i]), id, leaseId, workerId, ops[i].now).1.LeaseRenewed?
  {
    hide Inv;
    GappedIsTimely(ops, id, leaseId, workerId, deadline, s.duration);
    TimelyRenewalIsGranted(s, ops, id, leaseId, workerId, deadline, i);
  }

  // ---- leases too short to renew ----

  /** A lease of at most half a second can never be renewed: the first tick comes too late, whatever
      period the worker computed, and nothing else extends the lease. */
  lemma ShortLeaseCannotBeRenewed(s: State, ops: seq<Op>, id: string, leaseId: string, workerId: string,
                                  issued: int, believed: int, now: int)
    requires Inv(s) && s.duration <= HALF_SECOND && NotExtended(s, id, leaseId, issued + s.duration)
    requires LeavesDeadline(ops, id, leaseId, issued + Interval(believed))
    requires issued + Interval(believed) <= now
    ensures Renew(Run(s, ops), id, leaseId, workerId, now).1.RenewRefused?
  {
    hide Inv;
    DeadlineStays(s, ops, id, leaseId, issued + Interval(believed));
    LateIsRefused(Run(s, ops), id, leaseId, workerId, EXPIRY_RESULT, issued + Interval(believed), now);
  }
}
