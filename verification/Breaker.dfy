/** The circuit breaker: breaker.py, and `Governor.trip`'s arithmetic. */
module Breaker {
  import opened Wrappers
  import opened Model
  import opened Numbers
  import Config

  const TRIP_HOLD := Config.SESSION
  const RECOVERY_PERIOD := Config.SESSION
  const FULL_CALIBRATION := 100
  const MIN_CALIBRATION := 1

  datatype State = State(calibratedPct: int, trippedUntil: Option<Time>, lastTripAt: Option<Time>)

  /** What an empty table reads back as. */
  const NEVER_TRIPPED := State(FULL_CALIBRATION, None, None)

  predicate Tripped(b: State, now: Time) {
    b.trippedUntil.Some? && now < b.trippedUntil.value
  }

  /** The stored calibration with accrued recovery applied. */
  function Calibration(b: State, now: Time): int {
    if b.lastTripAt.None? then b.calibratedPct
    else Min(FULL_CALIBRATION, b.calibratedPct + Max(0, (now - b.lastTripAt.value) / RECOVERY_PERIOD))
  }

  /** `decay`: nine tenths, truncated, and never below 1. */
  function Decay(calibration: int): int {
    Max(MIN_CALIBRATION, calibration * 9 / 10)
  }

  function Calibrated(limit: nat, calibration: nat): (r: nat)
    ensures r >= 1
  {
    Max(1, limit * calibration / FULL_CALIBRATION)
  }

  /** What a trip at `now` leaves stored. */
  function Trip(b: State, now: Time): State {
    State(Decay(Calibration(b, now)), Some(now + TRIP_HOLD), Some(now))
  }

  /** The calibration stays a usable percentage. */
  predicate Sound(b: State) {
    MIN_CALIBRATION <= b.calibratedPct <= FULL_CALIBRATION
  }

  lemma CalibrationSound(b: State, now: Time)
    requires Sound(b)
    ensures MIN_CALIBRATION <= Calibration(b, now) <= FULL_CALIBRATION
    ensures b.lastTripAt.None? ==> Calibration(b, now) == b.calibratedPct
  {
  }

  lemma TripSound(b: State, now: Time)
    requires Sound(b)
    ensures Sound(Trip(b, now))
    ensures Trip(b, now).calibratedPct < Calibration(b, now) || Trip(b, now).calibratedPct == MIN_CALIBRATION
  {
    CalibrationSound(b, now);
  }

  /** A calibrated limit is never above the configured one, but for the floor of one token. */
  lemma CalibratedAtMost(limit: nat, calibration: nat)
    requires calibration <= FULL_CALIBRATION
    ensures Calibrated(limit, calibration) <= Max(1, limit)
  {
    assert limit * calibration <= limit * FULL_CALIBRATION;
  }

  // ----- Trips at a regular distance -----------------------------------------------------------

  /** One trip, `k` recovery periods after the last one. */
  function NextTrip(c: int, k: nat): int {
    Decay(Min(FULL_CALIBRATION, c + k))
  }

  /** The calibration after `n` further trips, `k` recovery periods apart. */
  function AfterTrips(c: int, k: nat, n: nat): int {
    if n == 0 then c else NextTrip(AfterTrips(c, k, n - 1), k)
  }

  /** The same, by the state the trips store: each at least `k` whole periods after the last. */
  function TripTimes(b: State, gaps: seq<nat>): State
    requires b.lastTripAt.Some?
    decreases |gaps|
  {
    if gaps == [] then b
    else TripTimes(Trip(b, b.lastTripAt.value + gaps[0]), gaps[1..])
  }

  lemma {:induction false} TripTimesIsAfterTrips(b: State, gaps: seq<nat>, k: nat)
    requires b.lastTripAt.Some? && forall i | 0 <= i < |gaps| :: gaps[i] / RECOVERY_PERIOD == k
    ensures TripTimes(b, gaps).calibratedPct == AfterTrips(b.calibratedPct, k, |gaps|)
    decreases |gaps|
  {
    if gaps != [] {
      var next := Trip(b, b.lastTripAt.value + gaps[0]);
      TripTimesIsAfterTrips(next, gaps[1..], k);
      AfterOneMore(b.calibratedPct, k, |gaps| - 1);
    }
  }

  lemma {:induction false} AfterOneMore(c: int, k: nat, n: nat)
    ensures AfterTrips(NextTrip(c, k), k, n) == AfterTrips(c, k, n + 1)
  {
    if n > 0 {
      AfterOneMore(c, k, n - 1);
    }
  }

  /** Where the sequence turns: at or below it a trip costs no more than was recovered. */
  function Turning(k: nat): int {
    Max(Min(9 * k, 90), 1)
  }

  lemma NextTripFacts(c: int, d: int, k: nat)
    requires 1 <= c <= d <= 100
    ensures 1 <= NextTrip(c, k) <= NextTrip(d, k) <= 100
    ensures c > Turning(k) ==> NextTrip(c, k) < c
    ensures c <= Turning(k) ==> c <= NextTrip(c, k) <= Turning(k)
  {
  }

  /**
   The sequence stays a percentage and never turns: it falls all the way, or rises all the way,
   strictly falling while it is above the turning point.
   */
  lemma {:induction false} TripsMonotone(c: int, k: nat, n: nat)
    requires 1 <= c <= 100
    ensures 1 <= AfterTrips(c, k, n) <= 100
    ensures AfterTrips(c, k, n) > Turning(k) ==> AfterTrips(c, k, n + 1) < AfterTrips(c, k, n)
    ensures NextTrip(c, k) <= c ==> AfterTrips(c, k, n + 1) <= AfterTrips(c, k, n)
    ensures NextTrip(c, k) >= c ==> AfterTrips(c, k, n + 1) >= AfterTrips(c, k, n)
  {
    if n > 0 {
      TripsMonotone(c, k, n - 1);
      var x, y := AfterTrips(c, k, n - 1), AfterTrips(c, k, n);
      if x <= y {
        NextTripFacts(x, y, k);
      } else {
        NextTripFacts(y, x, k);
      }
    }
    NextTripFacts(AfterTrips(c, k, n), AfterTrips(c, k, n), k);
  }

  lemma {:induction false} FixedForGood(c: int, k: nat, n: nat, m: nat)
    requires n <= m && NextTrip(AfterTrips(c, k, n), k) == AfterTrips(c, k, n)
    ensures AfterTrips(c, k, m) == AfterTrips(c, k, n)
    decreases m
  {
    if n < m {
      FixedForGood(c, k, n, m - 1);
    }
  }

  /** Somewhere within a hundred further trips the sequence stands still. */
  lemma {:induction false} StandsStill(c: int, k: nat, n: nat) returns (m: nat)
    requires 1 <= c <= 100
    ensures m >= n && NextTrip(AfterTrips(c, k, m), k) == AfterTrips(c, k, m)
    decreases if NextTrip(c, k) <= c then AfterTrips(c, k, n) else 100 - AfterTrips(c, k, n)
  {
    TripsMonotone(c, k, n);
    TripsMonotone(c, k, n + 1);
    if AfterTrips(c, k, n + 1) == AfterTrips(c, k, n) {
      m := n;
    } else {
      m := StandsStill(c, k, n + 1);
    }
  }

  /**
   Trips spaced `k` recovery periods apart converge: from some trip on the calibration is one
   fixed value, and that value is no larger than the turning point.
   */
  lemma TripsConverge(c: int, k: nat) returns (m: nat, limit: int)
    requires 1 <= c <= 100
    ensures 1 <= limit <= Turning(k) && NextTrip(limit, k) == limit
    ensures forall n: nat | n >= m :: AfterTrips(c, k, n) == limit
  {
    m := StandsStill(c, k, 0);
    limit := AfterTrips(c, k, m);
    TripsMonotone(c, k, m);
    forall n: nat | n >= m ensures AfterTrips(c, k, n) == limit {
      FixedForGood(c, k, m, n);
    }
  }

  // ----- The rules in numbers ------------------------------------------------------------------

  /** A trip leaves the whole part of nine tenths, or 1, and refuses everything for five hours. */
  lemma TripLeaves(b: State, now: Time, at: Time)
    requires Sound(b)
    ensures var before, left := Calibration(b, now), Trip(b, now).calibratedPct;
      Whole(left, 9 * before, 10) || (left == 1 && 9 * before < 10)
    ensures Tripped(Trip(b, now), at) <==> at < now + 5 * 3600 * Config.SECOND
    ensures Trip(b, now).lastTripAt == Some(now)
  {
    CalibrationSound(b, now);
  }

  /** One point is recovered for every five hours since the last trip, up to the whole. */
  lemma PointsRecovered(b: State, now: Time, points: int)
    requires b.lastTripAt.Some? && Whole(points, now - b.lastTripAt.value, 5 * 3600 * Config.SECOND)
    ensures Calibration(b, now) == Min(100, if points > 0 then b.calibratedPct + points else b.calibratedPct)
  {
    WholeIsQuotient(now - b.lastTripAt.value, RECOVERY_PERIOD);
    OneWhole(points, (now - b.lastTripAt.value) / RECOVERY_PERIOD, now - b.lastTripAt.value, RECOVERY_PERIOD);
  }

  /** A calibrated limit is that percentage of the limit, rounded down, or 1. */
  lemma CalibratedIsPercentage(limit: nat, calibration: nat)
    ensures var r := Calibrated(limit, calibration);
      Whole(r, limit * calibration, 100) || (r == 1 && limit * calibration < 100)
  {
    WholeIsQuotient(limit * calibration, 100);
  }
}
