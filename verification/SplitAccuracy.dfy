// When every payout is within n units of its exact share (x/registry/verification_rounds.go,
// splitVerifierAssignmentRewards). The exact share of a verifier of weight w is base / n + rest * w / t.
module SplitAccuracy {
  import opened Base
  import opened Sums
  import opened Arith
  import opened RewardSplit

  /** What the floors of the weights leave behind, in t-ths of a unit. */
  function Dust(pool: nat, weights: seq<nat>, t: nat): int
    requires t > 0
  {
    if weights == [] then 0
    else
      var k := |weights| - 1;
      Dust(pool, weights[..k], t) + pool * weights[k] % t
  }

  lemma DustStep(pool: int, w: int, t: int, f: int, m: int, fs: int, ws: int, d: int)
    requires pool * ws == t * fs + d && pool * w == t * f + m
    ensures pool * (ws + w) == t * (fs + f) + (d + m)
  {
    Distribute(ws, w, pool);
    Distribute(fs, f, t);
  }

  /** Floors and dust together are the exact proportional amount. */
  lemma {:induction false} DustExact(pool: nat, weights: seq<nat>, t: nat) returns (fs: int, ws: int, d: int)
    requires t > 0
    ensures fs == SumSeq(Floors(pool, weights, t)) && ws == SumNat(weights) && d == Dust(pool, weights, t)
    ensures pool * ws == t * fs + d
  {
    if weights == [] {
      fs, ws, d := 0, 0, 0;
    } else {
      var k := |weights| - 1;
      var f, m := Floor(pool, weights[k], t), pool * weights[k] % t;
      fs, ws, d := DustExact(pool, weights[..k], t);
      FloorsAppend(pool, weights, t);
      DivMod(pool * weights[k], t);
      DustStep(pool, weights[k], t, f, m, fs, ws, d);
      fs, ws, d := fs + f, ws + weights[k], d + m;
    }
  }

  lemma RestArithmetic(pool: int, w: int, ws: int, t: int, fs: int, d: int)
    requires t == ws + w && pool * ws == t * fs + d
    ensures t * (pool - fs) - pool * w == d
  {
    Distribute(ws, w, pool);
    DistributeMinus(pool, fs, t);
  }

  /** The last weighted verifier collects the dust of all others. */
  lemma LastCollectsDust(pool: nat, weights: seq<nat>, k: nat)
    requires k == |weights| - 1 && weights[k] > 0
    ensures SumNat(weights) > 0
    ensures SumNat(weights) * WeightedShares(pool, weights)[k] - pool * weights[k] == Dust(pool, weights[..k], SumNat(weights))
  {
    var t := SumNat(weights);
    var fs, ws, d := DustExact(pool, weights[..k], t);
    assert Floors(pool, weights, t)[..k] == Floors(pool, weights[..k], t);
    RestArithmetic(pool, weights[k], ws, t, fs, d);
  }

  // The error of one payout, times n * t.

  function Scale(successful: seq<string>, weight: map<string, int>): (t: nat)
    ensures t > 0
  {
    if TotalWeight(successful, weight) == 0 then 1 else TotalWeight(successful, weight)
  }

  function Error(payout: int, n: int, t: int, base: int, x: int): int {
    n * t * payout - (base * t + n * x)
  }

  lemma ErrorSplits(p: int, b: int, c: int, n: int, t: int, base: int, x: int, eb: int, ew: int)
    requires p == b + c && eb == n * b - base && ew == t * c - x
    ensures Error(p, n, t, base, x) == t * eb + n * ew
  {
    Distribute(b, c, n * t);
    DistributeMinus(n * b, base, t);
    DistributeMinus(t * c, x, n);
    MulAssoc(t, n, b);
    MulAssoc(n, t, c);
  }

  /** The payout differs from (base / n + x / t) by at most n. */
  predicate Close(payout: int, n: int, t: int, base: int, x: int) {
    -(n * (n * t)) <= Error(payout, n, t, base, x) <= n * (n * t)
  }

  /** Payout i is within n units of its exact share. */
  predicate WithinN(base: nat, rest: nat, successful: seq<string>, weight: map<string, int>, i: nat)
    requires i < |successful|
  {
    Close(Get(SplitPools(base, rest, successful, weight).payouts, successful[i]), |successful|, Scale(successful, weight),
          base, rest * WeightAt(weight, successful[i]))
  }

  /**
   * The last verifier has no weight, or the base remainder and the dust that it collects amount to at most
   * n units.
   */
  predicate DustFits(base: nat, rest: nat, successful: seq<string>, weight: map<string, int>)
    requires successful != []
  {
    var n, t := |successful|, Scale(successful, weight);
    WeightAt(weight, successful[n - 1]) == 0
    || t * ((n - 1) * (base % n)) + n * Dust(rest, WeightsOf(Weighted(successful[..n - 1], weight), weight), t) <= n * (n * t)
  }

  // Bounds in integers.

  /** A base share without remainder and a weighted share near its value. */
  lemma OrdinaryBound(n: int, t: int, eb: int, ew: int)
    requires n >= 2 && t > 0 && -n < eb <= 0 && -t < ew <= (n - 1) * t
    ensures -(n * (n * t)) <= t * eb + n * ew <= n * (n * t)
  {
    MulMono(-n, eb, t);
    MulMono(eb, 0, t);
    MulMono(-t, ew, n);
    MulMono(ew, (n - 1) * t, n);
    MulMono(2, n, n * t);
    DistributeMinus(n, 1, t);
    DistributeMinus(n * t, t, n);
    MulMono(0, t, n);
  }

  lemma BaseOnlyBound(n: int, t: int, r: int, eb: int)
    requires n >= 1 && t > 0 && 0 <= r < n && (eb == -r || eb == (n - 1) * r)
    ensures -(n * (n * t)) <= t * eb <= n * (n * t)
  {
    MulMono(0, t, n);
    MulMono(1, n, n * t);
    if eb == -r {
      MulMono(-n, eb, t);
      MulMono(eb, 0, t);
    } else {
      MulMono(r, n, n - 1);
      MulMono(n - 1, n, n);
      MulMono(0, n - 1, r);
      MulMono(0, eb, t);
      MulMono(eb, n * n, t);
      MulAssoc(n, n, t);
    }
  }

  lemma LastBothLower(n: int, t: int, eb: int, ew: int)
    requires n >= 1 && t > 0 && eb >= 0 && -t < ew
    ensures -(n * (n * t)) <= t * eb + n * ew
  {
    MulMono(0, eb, t);
    MulMono(-t, ew, n);
    MulMono(0, t, n);
    MulMono(1, n, n * t);
  }

  /** n times the base share differs from the pool by the remainder. */
  lemma BaseError(base: nat, n: nat, i: nat) returns (r: int, eb: int)
    requires i < n
    ensures r == base % n && 0 <= r < n
    ensures eb == n * BaseShares(base, n)[i] - base && eb == if i == n - 1 then (n - 1) * r else -r
  {
    var q: nat;
    var rem: nat;
    q, rem := BaseShareValue(base, n, i);
    r := rem;
    RemainderIs(base, n, q, r);
    Distribute(q, r, n);
    DistributeMinus(n, 1, r);
    eb := n * BaseShares(base, n)[i] - base;
  }

  lemma RemainderIs(x: int, n: int, q: int, r: int)
    requires n > 0 && x == n * q + r && 0 <= r < n
    ensures x % n == r
  {
    Distribute(q, 1, n);
    QuotientUnique(x, n, q);
    DivMod(x, n);
  }

  // Verifier by verifier.

  lemma BaseOnlyError(p: int, n: int, t: int, base: int, r: int, eb: int)
    requires n >= 1 && t > 0 && 0 <= r < n && (eb == -r || eb == (n - 1) * r) && eb == n * p - base
    ensures Close(p, n, t, base, 0)
  {
    ErrorSplits(p, p, 0, n, t, base, 0, eb, 0);
    BaseOnlyBound(n, t, r, eb);
  }

  /** Without weight a payout is always within n. */
  lemma UnweightedWithinN(base: nat, rest: nat, successful: seq<string>, weight: map<string, int>, i: nat)
    requires NoDup(successful) && i < |successful| && WeightAt(weight, successful[i]) == 0
    ensures WithinN(base, rest, successful, weight, i)
  {
    var n, t := |successful|, Scale(successful, weight);
    UnweightedPayout(base, rest, successful, weight, i);
    var r, eb := BaseError(base, n, i);
    BaseOnlyError(BaseShares(base, n)[i], n, t, base, r, eb);
    assert rest * WeightAt(weight, successful[i]) == 0;
  }

  lemma ScalePositive(successful: seq<string>, weight: map<string, int>)
    requires Weighted(successful, weight) != []
    ensures TotalWeight(successful, weight) > 0 && Scale(successful, weight) == TotalWeight(successful, weight)
  {
    PositiveWeights(successful, weight);
    SumNatPositive(WeightsOf(Weighted(successful, weight), weight));
  }

  lemma EarlierClose(p: int, b: int, c: int, n: int, t: int, base: int, x: int, r: int, slack: int)
    requires p == b + c && n >= 2 && 0 <= r < n && n * b - base == -r && Near(x, t, c, slack) && 0 <= slack < n
    ensures Close(p, n, t, base, x)
  {
    ErrorSplits(p, b, c, n, t, base, x, -r, t * c - x);
    MulMono(slack, n - 1, t);
    OrdinaryBound(n, t, -r, t * c - x);
  }

  /** A verifier before the last one is always within n. */
  lemma EarlierWithinN(base: nat, rest: nat, successful: seq<string>, weight: map<string, int>, i: nat)
    requires NoDup(successful) && i < |successful| - 1 && WeightAt(weight, successful[i]) > 0
    ensures WithinN(base, rest, successful, weight, i)
  {
    var j := WeightedIndex(successful, weight, i);
    ScalePositive(successful, weight);
    WeightedPayout(base, rest, successful, weight, i, j);
    var r, eb := BaseError(base, |successful|, i);
    var c, slack := WeightedNear(rest, successful, weight, i, j);
    EarlierClose(Get(SplitPools(base, rest, successful, weight).payouts, successful[i]), BaseShares(base, |successful|)[i], c,
                 |successful|, Scale(successful, weight), base, rest * WeightAt(weight, successful[i]), r, slack);
  }

  lemma WeightedNear(rest: nat, successful: seq<string>, weight: map<string, int>, i: nat, j: nat) returns (c: int, slack: int)
    requires NoDup(successful) && WeightedAt(successful, weight, i, j)
    ensures c == WeightedPart(rest, Weighted(successful, weight), weight)[j] && 0 <= slack < |successful|
    ensures Near(rest * WeightAt(weight, successful[i]), TotalWeight(successful, weight), c, slack)
  {
    PositiveWeights(successful, weight);
    var weights := WeightsOf(Weighted(successful, weight), weight);
    WeightedSharesFacts(rest, weights, j);
    c, slack := WeightedPart(rest, Weighted(successful, weight), weight)[j], if j == |weights| - 1 then j else 0;
  }

  lemma LastClose(p: int, b: int, c: int, n: int, t: int, base: int, x: int, r: int, d: int, slack: int)
    requires p == b + c && n >= 1 && 0 <= r < n && n * b - base == (n - 1) * r && Near(x, t, c, slack) && t * c - x == d
    ensures Close(p, n, t, base, x) <==> t * ((n - 1) * r) + n * d <= n * (n * t)
  {
    ErrorSplits(p, b, c, n, t, base, x, (n - 1) * r, d);
    MulMono(0, n - 1, r);
    LastBothLower(n, t, (n - 1) * r, d);
  }

  lemma WeightedSplit(successful: seq<string>, weight: map<string, int>)
    requires successful != [] && WeightAt(weight, successful[|successful| - 1]) > 0
    ensures var n := |successful|;
      var names, before := Weighted(successful, weight), Weighted(successful[..n - 1], weight);
      && names == before + [successful[n - 1]]
      && WeightsOf(names, weight)[..|before|] == WeightsOf(before, weight)
  {
  }

  /** A last verifier with weight is within n exactly when what it collects fits. */
  lemma LastWithinNIff(base: nat, rest: nat, successful: seq<string>, weight: map<string, int>, i: nat)
    requires NoDup(successful) && i == |successful| - 1 && WeightAt(weight, successful[i]) > 0
    ensures WithinN(base, rest, successful, weight, i) <==> DustFits(base, rest, successful, weight)
  {
    WeightedSplit(successful, weight);
    var names := Weighted(successful, weight);
    var j := |names| - 1;
    ScalePositive(successful, weight);
    WeightedPayout(base, rest, successful, weight, i, j);
    var r, eb := BaseError(base, |successful|, i);
    var c, slack := WeightedNear(rest, successful, weight, i, j);
    LastCollectsDust(rest, WeightsOf(names, weight), j);
    LastClose(Get(SplitPools(base, rest, successful, weight).payouts, successful[i]), BaseShares(base, |successful|)[i], c,
              |successful|, Scale(successful, weight), base, rest * WeightAt(weight, successful[i]), r,
              Dust(rest, WeightsOf(Weighted(successful[..i], weight), weight), Scale(successful, weight)), slack);
  }

  lemma OneWithinN(base: nat, rest: nat, successful: seq<string>, weight: map<string, int>, i: nat)
    requires NoDup(successful) && i < |successful|
    ensures i < |successful| - 1 || DustFits(base, rest, successful, weight) ==> WithinN(base, rest, successful, weight, i)
  {
    if WeightAt(weight, successful[i]) == 0 {
      UnweightedWithinN(base, rest, successful, weight, i);
    } else if i < |successful| - 1 {
      EarlierWithinN(base, rest, successful, weight, i);
    } else {
      LastWithinNIff(base, rest, successful, weight, i);
    }
  }

  lemma LastTells(base: nat, rest: nat, successful: seq<string>, weight: map<string, int>)
    requires NoDup(successful) && successful != [] && WithinN(base, rest, successful, weight, |successful| - 1)
    ensures DustFits(base, rest, successful, weight)
  {
    var last := |successful| - 1;
    if WeightAt(weight, successful[last]) > 0 { LastWithinNIff(base, rest, successful, weight, last); }
  }

  /** Every payout is within n units of its exact share if and only if the collected dust fits. */
  lemma WithinNIff(base: nat, rest: nat, successful: seq<string>, weight: map<string, int>)
    requires NoDup(successful) && successful != []
    ensures (forall i: nat :: i < |successful| ==> WithinN(base, rest, successful, weight, i))
            <==> DustFits(base, rest, successful, weight)
  {
    if DustFits(base, rest, successful, weight) {
      forall i: nat | i < |successful|
        ensures WithinN(base, rest, successful, weight, i)
      {
        OneWithinN(base, rest, successful, weight, i);
      }
    } else if WithinN(base, rest, successful, weight, |successful| - 1) {
      LastTells(base, rest, successful, weight);
    }
  }
}
