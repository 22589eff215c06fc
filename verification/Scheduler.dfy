/** Catch-up arithmetic of a schedule timer: which occurrences are due and when the
    timer is due next. Times and durations are nanoseconds. */
module Scheduler {

  import opened Times

  const MAX_CATCH_UP_EVENTS := 100
  const MINUTE: Duration := 60_000_000_000

  /** catch_up: "all", "skip", and "latest" or anything else. */
  datatype Policy = All | Skip | Latest

  /** Grid point number `k` of a timer due at `due`. */
  function Point(due: Instant, interval: Duration, k: int): Instant {
    due + k * interval
  }

  function Points(due: Instant, interval: Duration, n: nat): (points: seq<Instant>)
    ensures |points| == n && forall k :: 0 <= k < n ==> points[k] == Point(due, interval, k)
  {
    seq(n, k => Point(due, interval, k))
  }

  /** Whole intervals that have passed since the timer was due. */
  function Steps(due: Instant, now: Instant, interval: Duration): nat
    requires interval > 0 && due <= now
  {
    (now - due) / interval
  }

  function Tolerance(interval: Duration): Duration {
    if interval / 10 > MINUTE then MINUTE else interval / 10
  }

  datatype Batch = Batch(occurrences: seq<Instant>, next: Instant)

  /** scheduleOccurrences as a function of its arguments. */
  function BatchFor(policy: Policy, due: Instant, now: Instant, interval: Duration): Batch
    requires interval > 0
  {
    if now < due then Batch([], due)
    else
      var steps := Steps(due, now, interval);
      match policy
      case All =>
        var count := if steps + 1 > MAX_CATCH_UP_EVENTS then MAX_CATCH_UP_EVENTS else steps + 1;
        Batch(Points(due, interval, count), Point(due, interval, count))
      case Skip =>
        if now - due <= Tolerance(interval) then Batch([due], due + interval)
        else Batch([], Point(due, interval, steps + 1))
      case Latest =>
        Batch([Point(due, interval, steps)], Point(due, interval, steps) + interval)
  }

  /** The appending loop of catch_up "all". */
  method AppendOccurrences(due: Instant, interval: Duration, count: nat) returns (values: seq<Instant>)
    ensures values == Points(due, interval, count)
  {
    values := [];
    for index := 0 to count
      invariant values == Points(due, interval, index)
    {
      values := values + [due + index * interval];
    }
  }

  /** scheduleOccurrences, branch by branch. */
  method ScheduleOccurrences(policy: Policy, due: Instant, now: Instant, interval: Duration) returns (batch: Batch)
    requires interval > 0
    ensures batch == BatchFor(policy, due, now, interval)
  {
    if now < due {
      return Batch([], due);
    }
    var steps := Steps(due, now, interval);
    match policy
    case All =>
      var count := steps + 1;
      if count > MAX_CATCH_UP_EVENTS {
        count := MAX_CATCH_UP_EVENTS;
      }
      var values := AppendOccurrences(due, interval, count);
      return Batch(values, Point(due, interval, count));
    case Skip =>
      var next := Point(due, interval, steps + 1);
      var tolerance := interval / 10;
      if tolerance > MINUTE {
        tolerance := MINUTE;
      }
      if now - due <= tolerance {
        return Batch([due], due + interval);
      }
      return Batch([], next);
    case Latest =>
      var latest := Point(due, interval, steps);
      return Batch([latest], latest + interval);
  }

  lemma PointsOrdered(due: Instant, interval: Duration, j: int, k: int)
    requires interval > 0
    ensures Point(due, interval, j) < Point(due, interval, k) <==> j < k
    ensures Point(due, interval, j) == Point(due, interval, k) <==> j == k
    ensures Point(due, interval, k + 1) == Point(due, interval, k) + interval
  {
  }

  /** `now` lies between the last passed grid point and the one after it. */
  lemma StepsBracketNow(due: Instant, now: Instant, interval: Duration)
    requires interval > 0 && due <= now
    ensures Point(due, interval, Steps(due, now, interval)) <= now < Point(due, interval, Steps(due, now, interval) + 1)
  {
  }

  /** The skip tolerance is less than one interval. */
  lemma NoStepWithinTolerance(due: Instant, now: Instant, interval: Duration)
    requires interval > 0 && due <= now && now - due <= Tolerance(interval)
    ensures Steps(due, now, interval) == 0
  {
    assert now - due < interval;
  }

  /** A grid point is after now exactly when its number exceeds the steps passed. */
  lemma PointAfterNow(due: Instant, now: Instant, interval: Duration, n: int)
    requires interval > 0 && due <= now
    ensures now < Point(due, interval, n) <==> n > Steps(due, now, interval)
  {
    var steps := Steps(due, now, interval);
    StepsBracketNow(due, now, interval);
    PointsOrdered(due, interval, steps, n);
    PointsOrdered(due, interval, n, steps);
    PointsOrdered(due, interval, n, steps + 1);
  }

  ghost predicate OnGrid(due: Instant, interval: Duration, t: Instant) {
    exists k :: k >= 0 && t == Point(due, interval, k)
  }

  /** The cap of 100 events cut the batch short. */
  predicate Capped(policy: Policy, due: Instant, now: Instant, interval: Duration)
    requires interval > 0
  {
    policy == All && due <= now && Steps(due, now, interval) + 1 > MAX_CATCH_UP_EVENTS
  }

  /** The grid number of the batch's next due time. */
  function NextNumber(policy: Policy, due: Instant, now: Instant, interval: Duration): nat
    requires interval > 0
  {
    if now < due then 0
    else if Capped(policy, due, now, interval) then MAX_CATCH_UP_EVENTS
    else Steps(due, now, interval) + 1
  }

  ghost predicate Due(due: Instant, now: Instant, interval: Duration, next: Instant, t: Instant) {
    OnGrid(due, interval, t) && due <= t <= now && t < next
  }

  lemma PassedPointIsDue(due: Instant, now: Instant, interval: Duration, k: nat, n: int)
    requires interval > 0 && due <= now && k <= Steps(due, now, interval) && k < n
    ensures Due(due, now, interval, Point(due, interval, n), Point(due, interval, k))
  {
  }

  /** The next due time is the grid point of that number. */
  lemma NextIsOnGrid(policy: Policy, due: Instant, now: Instant, interval: Duration)
    requires interval > 0
    ensures BatchFor(policy, due, now, interval).next == Point(due, interval, NextNumber(policy, due, now, interval))
  {
    assert Point(due, interval, 0) == due;
    if due <= now {
      var steps := Steps(due, now, interval);
      PointsOrdered(due, interval, 0, steps);
      PointsOrdered(due, interval, 0, 0);
      if policy == Skip && now - due <= Tolerance(interval) {
        NoStepWithinTolerance(due, now, interval);
      }
    }
  }

  lemma OccurrencesAreDue(policy: Policy, due: Instant, now: Instant, interval: Duration, i: nat)
    requires interval > 0 && i < |BatchFor(policy, due, now, interval).occurrences|
    ensures Due(due, now, interval, Point(due, interval, NextNumber(policy, due, now, interval)),
                BatchFor(policy, due, now, interval).occurrences[i])
  {
    var n, steps := NextNumber(policy, due, now, interval), Steps(due, now, interval);
    match policy
    case All => PassedPointIsDue(due, now, interval, i, n);
    case Skip =>
      assert Point(due, interval, 0) == due;
      PassedPointIsDue(due, now, interval, 0, n);
    case Latest => PassedPointIsDue(due, now, interval, steps, n);
  }

  /** For every policy: occurrences are grid points in [due, now] before the next due
      time; next is a grid point, after due once due has passed, and after now unless
      the cap cut the batch. */
  lemma BatchIsOnGrid(policy: Policy, due: Instant, now: Instant, interval: Duration)
    requires interval > 0
    ensures var b := BatchFor(policy, due, now, interval);
      && b.next == Point(due, interval, NextNumber(policy, due, now, interval))
      && (forall i :: 0 <= i < |b.occurrences| ==>
            OnGrid(due, interval, b.occurrences[i]) && due <= b.occurrences[i] <= now && b.occurrences[i] < b.next)
      && (due <= now ==> due < b.next)
      && (now < b.next <==> !Capped(policy, due, now, interval))
  {
    var b, n := BatchFor(policy, due, now, interval), NextNumber(policy, due, now, interval);
    NextIsOnGrid(policy, due, now, interval);
    forall i | 0 <= i < |b.occurrences| ensures Due(due, now, interval, b.next, b.occurrences[i]) {
      OccurrencesAreDue(policy, due, now, interval, i);
    }
    if due <= now {
      PointAfterNow(due, now, interval, n);
      PassedPointIsDue(due, now, interval, 0, n);
      assert Point(due, interval, 0) == due;
    }
  }

  /** Under "all" a batch leaves no gap: it has exactly the grid points from due up to
      the next due time. */
  lemma AllLeavesNoGap(due: Instant, now: Instant, interval: Duration)
    requires interval > 0
    ensures var b := BatchFor(All, due, now, interval);
      b.occurrences == Points(due, interval, NextNumber(All, due, now, interval))
  {
  }

  /** Under "latest" a due timer emits exactly one occurrence, the last grid point that is
      not after now, and is next due one interval later. */
  lemma LatestIsLastPoint(due: Instant, now: Instant, interval: Duration)
    requires interval > 0 && due <= now
    ensures var b := BatchFor(Latest, due, now, interval);
      && |b.occurrences| == 1 && OnGrid(due, interval, b.occurrences[0])
      && b.occurrences[0] <= now < b.occurrences[0] + interval
      && b.next == b.occurrences[0] + interval
  {
    StepsBracketNow(due, now, interval);
    PointsOrdered(due, interval, 0, Steps(due, now, interval));
  }

  /** Under "skip" a due timer emits its own occurrence if it is late by at most a tenth
      of the interval and at most a minute, and nothing otherwise; either way it is next
      due at the first grid point after now. */
  lemma SkipWithinTolerance(due: Instant, now: Instant, interval: Duration)
    requires interval > 0 && due <= now
    ensures var b := BatchFor(Skip, due, now, interval);
      && b.occurrences == (if now - due <= interval / 10 && now - due <= MINUTE then [due] else [])
      && OnGrid(due, interval, b.next) && b.next - interval <= now < b.next
  {
    StepsBracketNow(due, now, interval);
    PointsOrdered(due, interval, 0, Steps(due, now, interval));
    NextIsOnGrid(Skip, due, now, interval);
    if now - due <= Tolerance(interval) {
      NoStepWithinTolerance(due, now, interval);
    }
  }

  /** Under "all" a due timer emits the grid points from its due time in order: all that
      are not after now, or the first hundred of them. */
  lemma AllIsEveryPoint(due: Instant, now: Instant, interval: Duration)
    requires interval > 0 && due <= now
    ensures var b := BatchFor(All, due, now, interval);
      && 1 <= |b.occurrences| <= 100
      && (forall k :: 0 <= k < |b.occurrences| ==> b.occurrences[k] == Point(due, interval, k))
      && b.next == Point(due, interval, |b.occurrences|)
      && (forall k {:trigger Point(due, interval, k)} :: 0 <= k && Point(due, interval, k) <= now ==>
            k < |b.occurrences| || |b.occurrences| == 100)
      && Point(due, interval, |b.occurrences| - 1) <= now
  {
    var b := BatchFor(All, due, now, interval);
    forall k {:trigger Point(due, interval, k)} | 0 <= k && Point(due, interval, k) <= now
      ensures k < |b.occurrences| || |b.occurrences| == 100
    {
      PointAfterNow(due, now, interval, k);
    }
    PointAfterNow(due, now, interval, |b.occurrences| - 1);
  }

  /** What repeated batches at one clock time emit until nothing is due. */
  datatype Drained = Drained(occurrences: seq<Instant>, calls: nat, next: Instant)

  function Drain(due: Instant, now: Instant, interval: Duration): Drained
    requires interval > 0
    decreases now - due + interval
  {
    if now < due then Drained([], 0, due)
    else
      BatchIsOnGrid(All, due, now, interval);
      var b := BatchFor(All, due, now, interval);
      NextStaysClose(due, now, interval);
      var rest := Drain(b.next, now, interval);
      Drained(b.occurrences + rest.occurrences, 1 + rest.calls, rest.next)
  }

  lemma NextStaysClose(due: Instant, now: Instant, interval: Duration)
    requires interval > 0 && due <= now
    ensures BatchFor(All, due, now, interval).next <= now + interval
  {
  }

  /** Counting grid points from a later one of them. */
  lemma PointFromLater(due: Instant, interval: Duration, n: int, k: int)
    ensures Point(Point(due, interval, n), interval, k) == Point(due, interval, n + k)
  {
  }

  lemma PointsFromLater(due: Instant, interval: Duration, n: nat, more: nat)
    ensures
      Points(due, interval, n) + Points(Point(due, interval, n), interval, more) == Points(due, interval, n + more)
  {
  }

  lemma StepsFromLater(due: Instant, now: Instant, interval: Duration, n: nat)
    requires interval > 0 && due <= now && n <= Steps(due, now, interval)
    ensures Point(due, interval, n) <= now
    ensures Steps(Point(due, interval, n), now, interval) == Steps(due, now, interval) - n
  {
    var later, steps := Point(due, interval, n), Steps(due, now, interval);
    StepsBracketNow(due, now, interval);
    PointsOrdered(due, interval, steps, n);
    var fewer := Steps(later, now, interval);
    StepsBracketNow(later, now, interval);
    PointFromLater(due, interval, n, fewer);
    PointFromLater(due, interval, n, fewer + 1);
    PointsOrdered(due, interval, n + fewer, steps + 1);
    PointsOrdered(due, interval, steps, n + fewer + 1);
  }

  /** Repeated capped batches reach now in ceil((steps+1)/100) calls and emit every
      grid point in [due, now] once, in order, without gap or repeat. */
  lemma {:induction false} DrainReachesNow(due: Instant, now: Instant, interval: Duration)
    requires interval > 0 && due <= now
    ensures var n := Steps(due, now, interval) + 1;
      && Drain(due, now, interval).occurrences == Points(due, interval, n)
      && Drain(due, now, interval).calls == (n + MAX_CATCH_UP_EVENTS - 1) / MAX_CATCH_UP_EVENTS
      && Drain(due, now, interval).next == Point(due, interval, n)
    decreases now - due + interval
  {
    var n, count := Steps(due, now, interval) + 1, NextNumber(All, due, now, interval);
    var b := BatchFor(All, due, now, interval);
    BatchIsOnGrid(All, due, now, interval);
    NextStaysClose(due, now, interval);
    if Capped(All, due, now, interval) {
      StepsFromLater(due, now, interval, count);
      DrainReachesNow(b.next, now, interval);
      assert Steps(b.next, now, interval) + 1 == n - count;
      PointsFromLater(due, interval, count, n - count);
      PointFromLater(due, interval, count, n - count);
    } else {
      assert Drain(b.next, now, interval) == Drained([], 0, b.next);
      assert b.occurrences + [] == b.occurrences;
    }
  }
}
