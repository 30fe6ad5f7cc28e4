// Per-round emission pools, publisher claims, and why the minted pool lasts (x/registry/types.go, RoundEmissionPools).
module Emission {
  import opened Base
  import opened Arith
  import opened PublisherParams

  datatype Pools = Pools(publisher: nat, verifier: nat) {
    function Sum(): nat {
      publisher + verifier
    }
  }

  /** Go multiplies hours, 3600 and 10000 in int64. */
  function Denominator(p: Params): int {
    Wrap64(p.EmissionHours() * 36_000_000)
  }

  function Slice(supply: nat, bps: nat, interval: nat, denominator: nat): nat
    requires denominator > 0
  {
    supply * bps * interval / denominator
  }

  /** RoundEmissionPools; None stands for the invalid-denominator error. */
  function RoundEmissionPools(p: Params): Option<Pools>
    requires p.roundInterval > 0
  {
    if Denominator(p) <= 0 then None
    else
      Some(Pools(
        Slice(p.Supply(), p.PublisherBps(), p.roundInterval, Denominator(p)),
        Slice(p.Supply(), p.VerifierBps(), p.roundInterval, Denominator(p))))
  }

  /** A pool that rounds to zero is replaced by the fixed reward (verification_rounds.go:697-702). */
  function WithFallback(pool: nat, reward: int): nat {
    if pool == 0 && reward > 0 then reward else pool
  }

  function SettlementPools(p: Params): Option<Pools>
    requires p.roundInterval > 0
  {
    match RoundEmissionPools(p)
    case None => None
    case Some(r) => Some(Pools(WithFallback(r.publisher, p.publisherReward), WithFallback(r.verifier, p.verifierReward)))
  }

  /** What EnsureEmissionPool mints before the first settlement. */
  function Target(p: Params): nat {
    p.Supply() * (p.PublisherBps() + p.VerifierBps()) / 10000
  }

  predicate NoOverflow(p: Params) {
    p.EmissionHours() * 36_000_000 <= MAX_INT64
  }

  predicate FallbackIdle(p: Params)
    requires p.roundInterval > 0
  {
    RoundEmissionPools(p).Some? && SettlementPools(p) == RoundEmissionPools(p)
  }

  // Floor arithmetic.

  lemma SliceBound(supply: int, bps: int, interval: int, d: int)
    requires d > 0
    ensures supply * bps * interval / d * d <= supply * bps * interval
  {
    FloorBounds(supply * bps * interval, d);
  }

  /** Both slices together stay below the slice of the summed shares. */
  lemma SlicesTogether(supply: int, pb: int, vb: int, interval: int, d: int, a: int, b: int)
    requires a * d <= supply * pb * interval && b * d <= supply * vb * interval
    ensures (a + b) * d <= supply * (pb + vb) * interval
  {
    Distribute(a, b, d);
    Distribute(pb, vb, supply);
    Distribute(supply * pb, supply * vb, interval);
  }

  /** k rounds of length interval within duration spend at most the share of the supply. */
  lemma RoundsFit(k: nat, spend: nat, share: nat, interval: nat, duration: nat)
    requires duration > 0 && k * interval <= duration
    requires spend * (duration * 10000) <= share * interval
    ensures k * spend <= share / 10000
  {
    MulMono(spend * (duration * 10000), share * interval, k);
    MulMono(k * interval, duration, share);
    MulAssoc(k, share, interval);
    MulAssoc(k, spend, duration * 10000);
    MulAssoc(k * spend, duration, 10000);
    CancelFactor(k * spend * 10000, share, duration);
    FloorMono(k * spend * 10000, share, 10000);
  }

  lemma CancelFactor(a: int, b: int, c: int)
    requires c > 0 && a * c <= b * c
    ensures a <= b
  {
    DistributeMinus(b, a, c);
    NegativeProduct(b - a, c);
  }

  /**
   * Emission solvency: as long as k rounds fit into the emission period, their pools never exceed the
   * amount minted by EnsureEmissionPool.
   */
  lemma EmissionSolvent(p: Params, k: nat)
    requires p.roundInterval > 0 && NoOverflow(p) && FallbackIdle(p)
    requires k * p.roundInterval <= p.EmissionHours() * 3600
    ensures k * SettlementPools(p).value.Sum() <= Target(p)
  {
    var pools := RoundEmissionPools(p).value;
    assert Denominator(p) == p.EmissionHours() * 3600 * 10000;
    SolventArithmetic(p.Supply(), p.PublisherBps(), p.VerifierBps(), p.roundInterval, p.EmissionHours() * 3600,
                      Denominator(p), pools.publisher, pools.verifier, pools.Sum(), k);
  }

  lemma SolventArithmetic(supply: nat, pb: nat, vb: nat, interval: nat, duration: nat, d: nat, a: nat, b: nat, spend: nat, k: nat)
    requires duration > 0 && d == duration * 10000 && k * interval <= duration
    requires a == Slice(supply, pb, interval, d) && b == Slice(supply, vb, interval, d) && spend == a + b
    ensures k * spend <= supply * (pb + vb) / 10000
  {
    SliceBound(supply, pb, interval, d);
    SliceBound(supply, vb, interval, d);
    SlicesTogether(supply, pb, vb, interval, d, a, b);
    RoundsFit(k, spend, supply * (pb + vb), interval, duration);
  }

  // The pools themselves.

  /** pool is the part supply * bps * interval / d of the supply, rounded down, or the fixed reward when that is nothing. */
  predicate IsRoundPool(pool: nat, supply: nat, bps: nat, interval: nat, d: int, reward: int) {
    if supply * bps * interval < d then pool == Max(0, reward)
    else pool * d <= supply * bps * interval < (pool + 1) * d
  }

  lemma SliceIsPool(supply: nat, bps: nat, interval: nat, d: int, reward: int)
    requires d > 0
    ensures IsRoundPool(WithFallback(Slice(supply, bps, interval, d), reward), supply, bps, interval, d, reward)
  {
    var x := supply * bps * interval;
    FloorBounds(x, d);
    if x < d { QuotientUnique(x, d, 0); } else { FloorMono(d, x, d); QuotientUnique(d, d, 1); }
  }

  /**
   * A round's pools are the publishers' and the verifiers' basis points of the supply, for the interval's part of the
   * emission period, each rounded down and replaced by its fixed reward when nothing is left; they are undefined exactly
   * when the int64 denominator is not positive.
   */
  lemma PoolsExact(p: Params)
    requires p.Valid()
    ensures var d := Wrap64(p.EmissionHours() * 3600 * 10000);
      && (SettlementPools(p).Some? <==> d > 0)
      && (d > 0 ==>
            && IsRoundPool(SettlementPools(p).value.publisher, p.Supply(), p.PublisherBps(), p.roundInterval, d, p.publisherReward)
            && IsRoundPool(SettlementPools(p).value.verifier, p.Supply(), p.VerifierBps(), p.roundInterval, d, p.verifierReward))
  {
    var d := Denominator(p);
    assert d == Wrap64(p.EmissionHours() * 3600 * 10000);
    if d > 0 {
      SliceIsPool(p.Supply(), p.PublisherBps(), p.roundInterval, d, p.publisherReward);
      SliceIsPool(p.Supply(), p.VerifierBps(), p.roundInterval, d, p.verifierReward);
    }
  }

  /** The minted amount is the publishers' and the verifiers' basis points of the supply, rounded down. */
  lemma TargetExact(p: Params)
    ensures var bps := p.PublisherBps() + p.VerifierBps();
      Target(p) * 10000 <= p.Supply() * bps < (Target(p) + 1) * 10000
  {
    FloorBounds(p.Supply() * (p.PublisherBps() + p.VerifierBps()), 10000);
  }

  // Exactly when the minted pool lasts.

  /** What every settled round takes out of the account. */
  function PerRound(p: Params): nat
    requires p.roundInterval > 0
  {
    match SettlementPools(p)
    case None => 0
    case Some(pools) => pools.Sum()
  }

  /** The number of rounds that fit into the emission period. */
  function Room(p: Params): int {
    if p.roundInterval <= 0 then 0 else p.EmissionHours() * 3600 / p.roundInterval
  }

  lemma RoomFits(p: Params, n: int)
    requires p.roundInterval > 0
    ensures n <= Room(p) <==> n * p.roundInterval <= p.EmissionHours() * 3600
  {
    FloorBounds(p.EmissionHours() * 3600, p.roundInterval);
    if n <= Room(p) { MulMono(n, Room(p), p.roundInterval); } else { MulMono(Room(p) + 1, n, p.roundInterval); }
  }

  /** The pools are defined, and however many rounds fit into the emission period, they spend at most the minted amount. */
  ghost predicate Solvent(p: Params)
    requires p.roundInterval > 0
  {
    && RoundEmissionPools(p).Some?
    && forall k: nat :: k * p.roundInterval <= p.EmissionHours() * 3600 ==> k * PerRound(p) <= Target(p)
  }

  /** The denominator is positive, and the parameters afford the last of these rounds. */
  predicate Affordable(p: Params)
    requires p.roundInterval > 0
  {
    Denominator(p) > 0 && Room(p) * PerRound(p) <= Target(p)
  }

  lemma AffordableUpTo(p: Params, k: int)
    requires p.roundInterval > 0 && Affordable(p) && k <= Room(p)
    ensures k * PerRound(p) <= Target(p)
  {
    MulMono(k, Room(p), PerRound(p));
  }

  /** The schedule is solvent if and only if the parameters afford every round that fits, overflow and fallback included. */
  lemma SolventIff(p: Params)
    requires p.roundInterval > 0
    ensures Solvent(p) <==> Affordable(p)
  {
    FloorMono(0, p.EmissionHours() * 3600, p.roundInterval);
    RoomFits(p, Room(p));
    if Affordable(p) {
      forall k: nat | k * p.roundInterval <= p.EmissionHours() * 3600
        ensures k * PerRound(p) <= Target(p)
      {
        RoomFits(p, k);
        AffordableUpTo(p, k);
      }
    } else {
      var k: nat := Room(p);
      assert k * p.roundInterval <= p.EmissionHours() * 3600;
    }
  }

  /** Without overflow and fallback the parameters always afford the schedule. */
  lemma RegularAffordable(p: Params)
    requires p.roundInterval > 0 && NoOverflow(p) && FallbackIdle(p)
    ensures Affordable(p)
  {
    FloorMono(0, p.EmissionHours() * 3600, p.roundInterval);
    RoomFits(p, Room(p));
    EmissionSolvent(p, Room(p));
  }

  /** Overflow alone does not break solvency. */
  lemma OverflowCanBeSolvent()
    ensures
      var p := DEFAULT_PARAMS.(emissionHours := 640_000_000_000, emissionSupply := 1000, publisherReward := 0, verifierReward := 0);
      p.Valid() && p.InRange() && !NoOverflow(p) && Solvent(p)
  {
    var p := DEFAULT_PARAMS.(emissionHours := 640_000_000_000, emissionSupply := 1000, publisherReward := 0, verifierReward := 0);
    WrapMultiple(1, 640_000_000_000 * 36_000_000 - TWO_64);
    assert PerRound(p) == 0;
  }

  /** An emission period long enough to overflow the int64 denominator breaks solvency in the very first round. */
  lemma OverflowBreaksSolvency()
    ensures
      var p := DEFAULT_PARAMS.(emissionHours := OVERFLOWING_HOURS);
      && p.Valid() && !NoOverflow(p) && p.roundInterval <= p.EmissionHours() * 3600
      && FallbackIdle(p) && SettlementPools(p).value.Sum() > Target(p)
  {
    var p := DEFAULT_PARAMS.(emissionHours := OVERFLOWING_HOURS);
    assert OVERFLOWING_HOURS * 36_000_000 == 94709 * TWO_64 + 256;
    WrapMultiple(94709, 256);
    assert Denominator(p) == 256;
    assert Slice(1_000_000_000_000_000, 1000, 3600, 256) == 14_062_500_000_000_000_000;
    assert Slice(1_000_000_000_000_000, 5000, 3600, 256) == 70_312_500_000_000_000_000;
  }

  lemma WrapMultiple(k: int, x: int)
    requires 0 <= x <= MAX_INT64
    ensures Wrap64(k * TWO_64 + x) == x
  {
  }

  /** So does the fixed reward once a pool rounds to zero. */
  lemma FallbackBreaksSolvency()
    ensures
      var p := DEFAULT_PARAMS.(emissionSupply := 1000);
      && p.Valid() && NoOverflow(p) && p.roundInterval <= p.EmissionHours() * 3600
      && !FallbackIdle(p) && SettlementPools(p).value.Sum() > Target(p)
  {
  }

  /** Times 36,000,000 this is 256 modulo 2^64. */
  const OVERFLOWING_HOURS := 48529796791026609

  // The 256 bits of sdk.Int.

  const MAX_PRODUCT: int := MAX_AMOUNT * 10000 * MAX_DURATION

  lemma ProductFits(supply: nat, bps: nat, interval: nat)
    requires supply <= MAX_AMOUNT && bps <= 10000 && interval <= MAX_DURATION
    ensures 0 <= supply * bps * interval <= MAX_PRODUCT
  {
    MulMono(0, supply, bps);
    MulMono(supply, MAX_AMOUNT, bps);
    MulMono(bps, 10000, MAX_AMOUNT);
    MulMono(0, supply * bps, interval);
    MulMono(supply * bps, MAX_AMOUNT * 10000, interval);
    MulMono(interval, MAX_DURATION, MAX_AMOUNT * 10000);
  }

  lemma QuotientShrinks(x: nat, d: nat)
    requires d > 0
    ensures 0 <= x / d <= x
  {
    FloorBounds(x, d);
    FloorMono(0, x, d);
    MulMono(1, d, x / d);
  }

  lemma SliceFits(supply: nat, bps: nat, interval: nat, d: nat)
    requires supply <= MAX_AMOUNT && bps <= 10000 && interval <= MAX_DURATION && d > 0
    ensures 0 <= supply * bps * interval < TWO_256
    ensures 0 <= Slice(supply, bps, interval, d) * 10000 < TWO_256
  {
    ProductFits(supply, bps, interval);
    QuotientShrinks(supply * bps * interval, d);
    assert MAX_PRODUCT * 10000 < TWO_256;
  }

  /**
   * For parameters in range no product on the way to the pools exceeds 256 bits, and neither does a pool times
   * 10000, the largest product of a claim or of the verifiers' base pool.
   */
  lemma AmountsFit(p: Params)
    requires p.Valid() && p.InRange()
    ensures 0 <= p.Supply() * p.PublisherBps() * p.roundInterval < TWO_256
    ensures 0 <= p.Supply() * p.VerifierBps() * p.roundInterval < TWO_256
    ensures SettlementPools(p).Some? ==>
      SettlementPools(p).value.publisher * 10000 < TWO_256 && SettlementPools(p).value.verifier * 10000 < TWO_256
  {
    SliceFits(p.Supply(), p.PublisherBps(), p.roundInterval, Max(1, Denominator(p)));
    SliceFits(p.Supply(), p.VerifierBps(), p.roundInterval, Max(1, Denominator(p)));
  }

  // Publisher claims.

  function ClaimBps(matched: int, required: int, minimum: int): int
    requires required > 0
  {
    var floor := if minimum < 0 then 0 else if minimum > 10000 then 10000 else minimum;
    var m := if matched < 0 then 0 else matched;
    var proportional := if m * 10000 / required > 10000 then 10000 else m * 10000 / required;
    if proportional > floor then proportional else floor
  }

  /** publisherClaimableAmount. */
  function Claimable(baseShare: int, matched: int, required: int, minimum: int): int {
    if baseShare <= 0 then 0
    else if required <= 0 then baseShare
    else baseShare * ClaimBps(matched, required, minimum) / 10000
  }

  lemma ClaimBpsBounds(matched: int, required: int, minimum: int)
    requires required > 0
    ensures 0 <= ClaimBps(matched, required, minimum) <= 10000
    ensures 0 <= minimum <= 10000 ==> minimum <= ClaimBps(matched, required, minimum)
    ensures matched >= required ==> ClaimBps(matched, required, minimum) == 10000
  {
    if matched >= required {
      MulMono(required, matched, 10000);
      FloorMono(required * 10000, matched * 10000, required);
      QuotientUnique(required * 10000, required, 10000);
    }
  }

  /**
   * A claim never exceeds the base share, never falls below the guaranteed minimum, reaches the full share
   * with enough matched links, and never shrinks when more links match.
   */
  lemma ClaimableBounds(baseShare: nat, matched: int, more: int, required: int, minimum: int)
    requires 0 <= minimum <= 10000 && matched <= more
    ensures 0 <= Claimable(baseShare, matched, required, minimum) <= baseShare
    ensures baseShare * minimum / 10000 <= Claimable(baseShare, matched, required, minimum)
    ensures matched >= required ==> Claimable(baseShare, matched, required, minimum) == baseShare
    ensures Claimable(baseShare, matched, required, minimum) <= Claimable(baseShare, more, required, minimum)
  {
    if baseShare > 0 {
      ScaleBound(baseShare, minimum, 10000);
      if required > 0 {
        ClaimBpsBounds(matched, required, minimum);
        ClaimBpsBounds(more, required, minimum);
        ClaimBpsMonotone(matched, more, required, minimum);
        ScaleBound(baseShare, minimum, ClaimBps(matched, required, minimum));
        ScaleBound(baseShare, ClaimBps(matched, required, minimum), ClaimBps(more, required, minimum));
        ScaleBound(baseShare, ClaimBps(matched, required, minimum), 10000);
      }
    }
  }

  /**
   * A claim is the base share times the basis points earned, rounded down: those matched out of the required links,
   * rounded down, at least the minimum and at most all of them.
   */
  lemma ClaimExact(baseShare: nat, matched: int, required: int, minimum: int) returns (earned: nat, bps: nat)
    requires required > 0 && 0 <= minimum <= 10000
    ensures earned * required <= Max(0, matched) * 10000 < (earned + 1) * required
    ensures bps == Max(minimum, Min(earned, 10000))
    ensures var claim := Claimable(baseShare, matched, required, minimum); claim * 10000 <= baseShare * bps < (claim + 1) * 10000
  {
    var m := Max(0, matched);
    FloorBounds(m * 10000, required);
    FloorMono(0, m * 10000, required);
    earned := m * 10000 / required;
    bps := Max(minimum, Min(earned, 10000));
    assert ClaimBps(matched, required, minimum) == bps;
    FloorBounds(baseShare * bps, 10000);
  }

  lemma ClaimBpsMonotone(matched: int, more: int, required: int, minimum: int)
    requires required > 0 && matched <= more
    ensures ClaimBps(matched, required, minimum) <= ClaimBps(more, required, minimum)
  {
    var a, b := Max(matched, 0), Max(more, 0);
    FloorMono(a * 10000, b * 10000, required);
  }

  lemma ScaleBound(x: nat, a: nat, b: nat)
    requires a <= b <= 10000
    ensures 0 <= x * a / 10000 <= x * b / 10000 <= x
  {
    MulMono(a, b, x);
    MulMono(b, 10000, x);
    MulMono(0, a, x);
    FloorMono(x * a, x * b, 10000);
    FloorMono(x * b, x * 10000, 10000);
  }
}
