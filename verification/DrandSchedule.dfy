// Round boundaries and the one drand beacon each round requires (x/registry/drand_schedule.go).
module DrandSchedule {
  import opened Base
  import opened Arith
  import opened PublisherParams

  /** Seconds from 1 January of year 1, the origin of Go's Time.Truncate, to the Unix epoch. */
  const YEAR_ONE := 62_135_596_800

  /** t lies on the grid of round boundaries. */
  predicate OnGrid(t: int, interval: int)
    requires interval > 0
  {
    (t + YEAR_ONE) % interval == 0
  }

  /** nextVerificationRoundStartUnix. */
  function NextRoundStart(now: int, interval: int): int
    requires interval > 0
  {
    now - (now + YEAR_ONE) % interval + interval
  }

  /** The next round start is the first grid point strictly after now. */
  lemma NextRoundStartIsNext(now: int, interval: int)
    requires interval > 0
    ensures OnGrid(NextRoundStart(now, interval), interval)
    ensures now < NextRoundStart(now, interval) <= now + interval
    ensures forall t :: OnGrid(t, interval) && now < t ==> NextRoundStart(now, interval) <= t
  {
    var base := now + YEAR_ONE;
    DivMod(base, interval);
    Distribute(base / interval, 1, interval);
    MultipleMod(base / interval + 1, interval);
    forall t | OnGrid(t, interval) && now < t
      ensures NextRoundStart(now, interval) <= t
    {
      DivMod(t + YEAR_ONE, interval);
      var q := (t + YEAR_ONE) / interval;
      if q <= base / interval { MulMono(q, base / interval, interval); }
      MulMono(base / interval + 1, Max(q, base / interval + 1), interval);
    }
  }

  lemma MultipleMod(k: int, d: int)
    requires d > 0
    ensures k * d % d == 0
  {
    DivMod(k * d, d);
    Distribute(k, 1, d);
    QuotientUnique(k * d, d, k);
  }

  /** Distinct grid points are at least one interval apart. */
  lemma GridGap(s: int, t: int, interval: int)
    requires interval > 0 && OnGrid(s, interval) && OnGrid(t, interval) && s < t
    ensures s + interval <= t
  {
    var a, b := (s + YEAR_ONE) / interval, (t + YEAR_ONE) / interval;
    DivMod(s + YEAR_ONE, interval);
    DivMod(t + YEAR_ONE, interval);
    if b <= a { MulMono(b, a, interval); }
    MulMono(a + 1, Max(b, a + 1), interval);
    Distribute(a, 1, interval);
  }

  // The required beacon.

  /** Emission time of drand round n; round 1 is emitted at genesis. */
  function BeaconTime(p: Params, n: int): int {
    p.DrandGenesis() + (n - 1) * p.DrandPeriod()
  }

  /** requiredDrandRound; None when the round predates drand's genesis. */
  function RequiredRound(p: Params, roundStart: int): Option<nat> {
    var latest := roundStart - p.DrandOffset();
    if roundStart <= 0 || latest < p.DrandGenesis() then None
    else
      FloorNonNegative(latest - p.DrandGenesis(), p.DrandPeriod());
      Some((latest - p.DrandGenesis()) / p.DrandPeriod() + 1)
  }

  lemma FloorNonNegative(x: int, d: int)
    requires x >= 0 && d > 0
    ensures x / d >= 0
  {
    FloorMono(0, x, d);
  }

  /** A round requires a beacon exactly when drand had started by the offset before it. */
  lemma RequiredIff(p: Params, roundStart: int)
    ensures RequiredRound(p, roundStart).Some? <==> p.DrandGenesis() + p.DrandOffset() <= roundStart
  {
  }

  /** The required beacon is the latest one emitted at or before roundStart - offset. */
  lemma RequiredIsLatest(p: Params, roundStart: int, n: int)
    requires RequiredRound(p, roundStart).Some?
    ensures RequiredRound(p, roundStart).value >= 1
    ensures BeaconTime(p, n) <= roundStart - p.DrandOffset() <==> n <= RequiredRound(p, roundStart).value
  {
    var x, d := roundStart - p.DrandOffset() - p.DrandGenesis(), p.DrandPeriod();
    FloorNonNegative(x, d);
    FloorBounds(x, d);
    var q := x / d;
    if n - 1 <= q { MulMono(n - 1, q, d); } else { MulMono(q + 1, n - 1, d); }
  }

  /** With interval >= period, later verification rounds use strictly later beacons. */
  lemma RequiredStrictlyIncreasing(p: Params, s: int, t: int)
    requires p.roundInterval >= p.DrandPeriod()
    requires OnGrid(s, p.roundInterval) && OnGrid(t, p.roundInterval) && s < t
    requires RequiredRound(p, s).Some?
    ensures RequiredRound(p, t).Some?
    ensures RequiredRound(p, s).value < RequiredRound(p, t).value
  {
    GridGap(s, t, p.roundInterval);
    var n := RequiredRound(p, s).value;
    RequiredIsLatest(p, s, n);
    RequiredIsLatest(p, t, n + 1);
    Distribute(n - 1, 1, p.DrandPeriod());
  }

  /** Among the rounds of the grid, later ones always use strictly later beacons. */
  ghost predicate StrictProgress(p: Params)
    requires p.roundInterval > 0
  {
    forall s, t :: OnGrid(s, p.roundInterval) && OnGrid(t, p.roundInterval) && s < t && RequiredRound(p, s).Some? ==>
      RequiredRound(p, t).Some? && RequiredRound(p, s).value < RequiredRound(p, t).value
  }

  /** The beacon of the j-th round after s. */
  function BeaconAt(p: Params, s: int, j: nat): nat
    requires p.roundInterval > 0 && RequiredRound(p, s).Some?
  {
    MulMono(0, j, p.roundInterval);
    RequiredRound(p, s + j * p.roundInterval).value
  }

  /** Consecutive rounds share a beacon or the later one is higher. */
  lemma NextBeacon(p: Params, s: int, j: nat)
    requires p.roundInterval > 0 && RequiredRound(p, s).Some?
    ensures BeaconAt(p, s, j) <= BeaconAt(p, s, j + 1)
  {
    MulMono(0, j, p.roundInterval);
    Distribute(j, 1, p.roundInterval);
    BeaconMonotone(p, s, s + j * p.roundInterval);
    BeaconMonotone(p, s + j * p.roundInterval, s + (j + 1) * p.roundInterval);
  }

  /** Rounds before the j-th either share a beacon with their successor or have climbed one beacon each. */
  lemma {:induction false} Climb(p: Params, s: int, j: nat) returns (i: nat)
    requires p.roundInterval > 0 && RequiredRound(p, s).Some?
    ensures (i < j && BeaconAt(p, s, i) == BeaconAt(p, s, i + 1)) || BeaconAt(p, s, j) >= BeaconAt(p, s, 0) + j
  {
    i := 0;
    if j > 0 {
      i := Climb(p, s, j - 1);
      NextBeacon(p, s, j - 1);
      if BeaconAt(p, s, j - 1) == BeaconAt(p, s, j) { i := j - 1; }
    }
  }

  lemma BeaconMonotone(p: Params, s: int, t: int)
    requires s <= t && RequiredRound(p, s).Some?
    ensures RequiredRound(p, t).Some? && RequiredRound(p, s).value <= RequiredRound(p, t).value
  {
    FloorMono(s - p.DrandOffset() - p.DrandGenesis(), t - p.DrandOffset() - p.DrandGenesis(), p.DrandPeriod());
  }

  /** P + 1 rounds of an interval I < P span fewer than P + 1 beacons. */
  lemma TooFewBeacons(x: int, interval: int, period: int)
    requires 0 < interval < period
    ensures (x + (period + 1) * interval) / period < x / period + (period + 1)
  {
    FloorBounds(x, period);
    FloorBounds(x + (period + 1) * interval, period);
    var q := (x + (period + 1) * interval) / period;
    MulMono(interval, period - 1, period + 1);
    Distribute(x / period + 1, period, period);
    DistributeMinus(period, 1, period + 1);
    Distribute(period, 1, period);
    if q >= x / period + (period + 1) { MulMono(x / period + (period + 1), q, period); }
  }

  /** With an interval below the period, two consecutive rounds share a beacon soon after any round. */
  lemma SharedBeacon(p: Params, s: int) returns (i: nat)
    requires 0 < p.roundInterval < p.DrandPeriod() && RequiredRound(p, s).Some?
    ensures i <= p.DrandPeriod() && BeaconAt(p, s, i) == BeaconAt(p, s, i + 1)
  {
    var n := p.DrandPeriod() + 1;
    i := Climb(p, s, n);
    MulMono(0, n, p.roundInterval);
    TooFewBeacons(s - p.DrandOffset() - p.DrandGenesis(), p.roundInterval, p.DrandPeriod());
  }

  /** Adding intervals to a grid point gives grid points. */
  lemma GridStep(s: int, j: nat, interval: int)
    requires interval > 0 && OnGrid(s, interval)
    ensures OnGrid(s + j * interval, interval)
  {
    DivMod(s + YEAR_ONE, interval);
    var q := (s + YEAR_ONE) / interval;
    Distribute(q, j, interval);
    MultipleMod(q + j, interval);
  }

  /** With a shorter interval some two grid rounds share a beacon. */
  lemma ShortIntervalShares(p: Params) returns (s: int, t: int)
    requires 0 < p.roundInterval < p.DrandPeriod()
    ensures OnGrid(s, p.roundInterval) && OnGrid(t, p.roundInterval) && s < t
    ensures RequiredRound(p, s).Some? && RequiredRound(p, s) == RequiredRound(p, t)
  {
    var interval := p.roundInterval;
    var first := NextRoundStart(p.DrandGenesis() + p.DrandOffset(), interval);
    NextRoundStartIsNext(p.DrandGenesis() + p.DrandOffset(), interval);
    var i := SharedBeacon(p, first);
    GridStep(first, i, interval);
    GridStep(first, i + 1, interval);
    Distribute(i, 1, interval);
    MulMono(0, i, interval);
    BeaconMonotone(p, first, first + i * interval);
    s, t := first + i * interval, first + (i + 1) * interval;
    BeaconMonotone(p, s, t);
  }

  lemma LongIntervalProgresses(p: Params)
    requires p.roundInterval >= p.DrandPeriod()
    ensures StrictProgress(p)
  {
    forall s, t | OnGrid(s, p.roundInterval) && OnGrid(t, p.roundInterval) && s < t && RequiredRound(p, s).Some?
      ensures RequiredRound(p, t).Some? && RequiredRound(p, s).value < RequiredRound(p, t).value
    {
      RequiredStrictlyIncreasing(p, s, t);
    }
  }

  /** Every round has its own beacon if and only if the interval is at least the drand period. */
  lemma StrictProgressIff(p: Params)
    requires p.roundInterval > 0
    ensures StrictProgress(p) <==> p.roundInterval >= p.DrandPeriod()
  {
    if p.roundInterval >= p.DrandPeriod() {
      LongIntervalProgresses(p);
    } else {
      var s, t := ShortIntervalShares(p);
    }
  }
}
