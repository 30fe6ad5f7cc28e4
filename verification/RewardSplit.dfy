// Splitting one assignment's verifier reward (x/registry/verification_rounds.go, splitVerifierAssignmentRewards).
module RewardSplit {
  import opened Base
  import opened Sums
  import opened Arith

  const BPS := 10000

  // A pool handed out in floored parts, the last recipient taking what is left.

  /** shares[i] == floors[i] except that the last share is the rest of the pool. */
  function LastTakesRest(pool: int, floors: seq<int>): (shares: seq<int>)
    ensures |shares| == |floors|
  {
    if floors == [] then []
    else floors[..|floors| - 1] + [pool - SumSeq(floors[..|floors| - 1])]
  }

  lemma LastTakesRestSums(pool: int, floors: seq<int>)
    requires floors != []
    ensures SumSeq(LastTakesRest(pool, floors)) == pool
  {
    SumSeqAppend(floors[..|floors| - 1], pool - SumSeq(floors[..|floors| - 1]));
  }

  function Repeat(x: int, n: nat): (r: seq<int>)
    ensures |r| == n && forall i :: 0 <= i < n ==> r[i] == x
  {
    if n == 0 then [] else Repeat(x, n - 1) + [x]
  }

  lemma {:induction false} RepeatSum(x: int, n: nat)
    ensures SumSeq(Repeat(x, n)) == n * x
  {
    if n > 0 {
      RepeatSum(x, n - 1);
      SumSeqAppend(Repeat(x, n - 1), x);
    }
  }

  // Equal base shares.

  function BaseShares(pool: nat, n: nat): (r: seq<int>)
    ensures |r| == n
  {
    if n == 0 then [] else LastTakesRest(pool, Repeat(pool / n, n))
  }

  lemma BaseArithmetic(pool: int, n: int, q: int, r: int)
    requires n > 0 && pool == n * q + r && 0 <= r < n && 0 <= q
    ensures pool - (n - 1) * q == q + r
    ensures pool - n < n * q <= pool <= n * (q + r) <= pool + (n - 1) * (n - 1)
    ensures q > 0 <==> n <= pool
    ensures q + r > 0 <==> pool > 0
  {
    Distribute(q, r, n);
    DistributeMinus(n, 1, q);
    DistributeMinus(n, 1, r);
    MulMono(1, n, r);
    MulMono(r, n - 1, n - 1);
    if q > 0 { MulMono(1, q, n); }
  }

  /** The base shares use up the pool; each is within one below and n - 1 above pool / n. */
  lemma BaseSharesFacts(pool: nat, n: nat, i: nat)
    requires i < n
    ensures SumSeq(BaseShares(pool, n)) == pool
    ensures BaseShares(pool, n)[i] >= 0
    ensures pool - n < n * BaseShares(pool, n)[i] <= pool + (n - 1) * (n - 1)
    ensures BaseShares(pool, n)[i] > 0 <==> n <= pool || (i == n - 1 && pool > 0)
  {
    LastTakesRestSums(pool, Repeat(pool / n, n));
    var q, r := BaseShareValue(pool, n, i);
    BaseArithmetic(pool, n, q, r);
    MulMono(0, n - 1, n - 1);
  }

  /** Everybody gets the quotient, the last one the remainder on top. */
  lemma BaseShareValue(pool: nat, n: nat, i: nat) returns (q: nat, r: nat)
    requires i < n
    ensures pool == n * q + r && r < n
    ensures BaseShares(pool, n)[i] == if i == n - 1 then q + r else q
  {
    DivMod(pool, n);
    FloorMono(0, pool, n);
    q, r := pool / n, pool % n;
    var floors := Repeat(q, n);
    assert floors[..n - 1] == Repeat(q, n - 1);
    RepeatSum(q, n - 1);
    DistributeMinus(n, 1, q);
  }

  // Weight-proportional shares.

  function Floor(pool: nat, weight: nat, total: nat): nat
    requires total > 0
  {
    pool * weight / total
  }

  function Floors(pool: nat, weights: seq<nat>, total: nat): (r: seq<int>)
    requires total > 0
    ensures |r| == |weights|
    ensures forall i :: 0 <= i < |r| ==> r[i] == Floor(pool, weights[i], total)
  {
    if weights == [] then []
    else
      var n := |weights| - 1;
      Floors(pool, weights[..n], total) + [Floor(pool, weights[n], total)]
  }

  function SumNat(ws: seq<nat>): nat {
    if ws == [] then 0 else SumNat(ws[..|ws| - 1]) + ws[|ws| - 1]
  }

  lemma FloorStep(pool: int, w: int, f: int, total: int, fs: int, ws: int, n: int)
    requires fs * total <= pool * ws <= (fs + n) * total
    requires f * total <= pool * w <= (f + 1) * total
    ensures (fs + f) * total <= pool * (ws + w) <= (fs + f + (n + 1)) * total
  {
    Distribute(fs, f, total);
    Distribute(fs + n, f + 1, total);
    Distribute(ws, w, pool);
  }

  lemma FloorBelow(pool: nat, w: nat, total: nat)
    requires total > 0
    ensures Floor(pool, w, total) * total <= pool * w <= (Floor(pool, w, total) + 1) * total
  {
    FloorBounds(pool * w, total);
  }

  lemma FloorsAppend(pool: nat, weights: seq<nat>, total: nat)
    requires total > 0 && weights != []
    ensures var k := |weights| - 1;
      SumSeq(Floors(pool, weights, total)) == SumSeq(Floors(pool, weights[..k], total)) + Floor(pool, weights[k], total)
  {
    var k := |weights| - 1;
    SumSeqAppend(Floors(pool, weights[..k], total), Floor(pool, weights[k], total));
  }

  /** The floors of n weights adding up to ws lose at most one unit per recipient. */
  lemma {:induction false} FloorsSum(pool: nat, weights: seq<nat>, total: nat) returns (fs: int, ws: int, n: int)
    requires total > 0
    ensures fs == SumSeq(Floors(pool, weights, total)) && ws == SumNat(weights) && n == |weights|
    ensures fs >= 0
    ensures fs * total <= pool * ws <= (fs + n) * total
  {
    if weights == [] {
      fs, ws, n := 0, 0, 0;
    } else {
      var k := |weights| - 1;
      var f := Floor(pool, weights[k], total);
      fs, ws, n := FloorsSum(pool, weights[..k], total);
      FloorsAppend(pool, weights, total);
      FloorBelow(pool, weights[k], total);
      FloorStep(pool, weights[k], f, total, fs, ws, n);
      fs, ws, n := fs + f, ws + weights[k], n + 1;
    }
  }

  function WeightedShares(pool: nat, weights: seq<nat>): (r: seq<int>)
    ensures |r| == |weights|
  {
    if SumNat(weights) == 0 then Repeat(0, |weights|)
    else LastTakesRest(pool, Floors(pool, weights, SumNat(weights)))
  }

  /** c stands for a share of an exact value x / t: rounded down, or rounded up by at most slack. */
  predicate Near(x: int, t: int, c: int, slack: int) {
    t > 0 && c >= 0 && x - t < t * c <= x + slack * t
  }

  lemma FloorNear(x: int, t: int)
    requires t > 0 && x >= 0
    ensures Near(x, t, x / t, 0)
    ensures x / t > 0 <==> t <= x
  {
    FloorBounds(x, t);
    Distribute(x / t, 1, t);
    var q := x / t;
    if q < 0 { MulMono(q, -1, t); }
    if q > 0 { MulMono(1, q, t); }
  }

  lemma RestNear(pool: int, w: int, ws: int, given: int, n: int, t: int)
    requires t > 0 && t == ws + w && w > 0 && pool >= 0 && n >= 0
    requires 0 <= given && given * t <= pool * ws <= (given + n) * t
    ensures Near(pool * w, t, pool - given, n)
    ensures pool - given > 0 <==> pool > 0
  {
    Distribute(ws, w, pool);
    DistributeMinus(pool, given, t);
    Distribute(given, n, t);
    MulMono(0, w, pool);
    if pool > 0 { MulMono(1, w, pool); }
    NegativeProduct(pool - given, t);
  }

  lemma {:induction false} SumNatPositive(ws: seq<nat>)
    requires ws != [] && forall j :: 0 <= j < |ws| ==> ws[j] > 0
    ensures SumNat(ws) > 0
  {
  }

  lemma WeightedSharesSum(pool: nat, weights: seq<nat>)
    requires SumNat(weights) > 0
    ensures SumSeq(WeightedShares(pool, weights)) == pool
  {
    LastTakesRestSums(pool, Floors(pool, weights, SumNat(weights)));
  }

  lemma LastWeightedShare(pool: nat, weights: seq<nat>, n: nat)
    requires n == |weights| - 1 && weights[n] > 0
    ensures Near(pool * weights[n], SumNat(weights), WeightedShares(pool, weights)[n], n)
    ensures WeightedShares(pool, weights)[n] > 0 <==> pool > 0
  {
    var t := SumNat(weights);
    var given, ws, k := FloorsSum(pool, weights[..n], t);
    assert Floors(pool, weights, t)[..n] == Floors(pool, weights[..n], t);
    assert WeightedShares(pool, weights)[n] == pool - given;
    RestNear(pool, weights[n], ws, given, k, t);
  }

  lemma OtherWeightedShare(pool: nat, weights: seq<nat>, i: nat)
    requires i < |weights| - 1 && SumNat(weights) > 0
    ensures Near(pool * weights[i], SumNat(weights), WeightedShares(pool, weights)[i], 0)
    ensures WeightedShares(pool, weights)[i] > 0 <==> SumNat(weights) <= pool * weights[i]
  {
    var t := SumNat(weights);
    assert WeightedShares(pool, weights)[i] == Floor(pool, weights[i], t);
    MulMono(0, weights[i], pool);
    FloorNear(pool * weights[i], t);
  }

  /**
   * Proportional shares use up the pool; every share is near its exact value, the last one absorbing
   * less than one unit per other recipient.
   */
  lemma WeightedSharesFacts(pool: nat, weights: seq<nat>, i: nat)
    requires i < |weights| && forall j :: 0 <= j < |weights| ==> weights[j] > 0
    ensures SumNat(weights) > 0
    ensures SumSeq(WeightedShares(pool, weights)) == pool
    ensures Near(pool * weights[i], SumNat(weights), WeightedShares(pool, weights)[i], if i == |weights| - 1 then i else 0)
    ensures WeightedShares(pool, weights)[i] > 0
            <==> if i == |weights| - 1 then pool > 0 else SumNat(weights) <= pool * weights[i]
  {
    SumNatPositive(weights);
    WeightedSharesSum(pool, weights);
    if i < |weights| - 1 {
      OtherWeightedShare(pool, weights, i);
    } else {
      LastWeightedShare(pool, weights, i);
    }
  }

  // Accumulating the shares per address.

  function Get(m: map<string, int>, a: string): int {
    if a in m then m[a] else 0
  }

  function Credit(m: map<string, int>, a: string, share: int): map<string, int> {
    if share <= 0 then m else m[a := Get(m, a) + share]
  }

  function CreditAll(m: map<string, int>, names: seq<string>, shares: seq<int>): map<string, int>
    requires |names| == |shares|
  {
    if names == [] then m
    else
      var n := |names| - 1;
      Credit(CreditAll(m, names[..n], shares[..n]), names[n], shares[n])
  }

  ghost predicate AllPositive(m: map<string, int>) {
    forall a :: a in m ==> m[a] > 0
  }

  ghost predicate NonNegative(shares: seq<int>) {
    forall i :: 0 <= i < |shares| ==> shares[i] >= 0
  }

  lemma {:induction false} CreditAllSum(m: map<string, int>, names: seq<string>, shares: seq<int>)
    requires |names| == |shares| && AllPositive(m) && NonNegative(shares)
    ensures AllPositive(CreditAll(m, names, shares))
    ensures SumMap(CreditAll(m, names, shares)) == SumMap(m) + SumSeq(shares)
  {
    if names != [] {
      var n := |names| - 1;
      CreditAllSum(m, names[..n], shares[..n]);
      var before := CreditAll(m, names[..n], shares[..n]);
      SumMapUpdate(before, names[n], Get(before, names[n]) + shares[n]);
    }
  }

  lemma {:induction false} CreditAllAbsent(m: map<string, int>, names: seq<string>, shares: seq<int>, a: string)
    requires |names| == |shares| && a !in names
    ensures Get(CreditAll(m, names, shares), a) == Get(m, a)
  {
    if names != [] { CreditAllAbsent(m, names[..|names| - 1], shares[..|names| - 1], a); }
  }

  lemma {:induction false} CreditAllAt(m: map<string, int>, names: seq<string>, shares: seq<int>, i: nat)
    requires |names| == |shares| && NoDup(names) && i < |names| && shares[i] >= 0
    ensures Get(CreditAll(m, names, shares), names[i]) == Get(m, names[i]) + shares[i]
  {
    var n := |names| - 1;
    if i == n {
      CreditAllAbsent(m, names[..n], shares[..n], names[n]);
    } else {
      CreditAllAt(m, names[..n], shares[..n], i);
    }
  }

  // The whole split.

  datatype Split = Split(payouts: map<string, int>, remaining: int)

  function ClampBps(bps: int): (r: nat)
    ensures r <= BPS
  {
    if bps < 0 then 0 else if bps > BPS then BPS else bps
  }

  function BasePool(total: nat, bps: int): (r: nat)
    ensures r <= total
  {
    BasePoolBound(total, ClampBps(bps));
    total * ClampBps(bps) / BPS
  }

  function WeightedPool(total: nat, bps: int): nat {
    total - BasePool(total, bps)
  }

  lemma BasePoolBound(total: nat, bps: nat)
    requires bps <= BPS
    ensures 0 <= total * bps / BPS <= total
  {
    MulMono(bps, BPS, total);
    FloorMono(total * bps, total * BPS, BPS);
    MulMono(0, total, bps);
  }

  /** The positive weight of a, or 0 when it has none. */
  function WeightAt(weight: map<string, int>, a: string): nat {
    if a in weight && weight[a] > 0 then weight[a] else 0
  }

  /** The successful verifiers that carry a positive weight, in order. */
  function Weighted(successful: seq<string>, weight: map<string, int>): (r: seq<string>)
    ensures forall a :: a in r <==> a in successful && WeightAt(weight, a) > 0
    ensures |r| <= |successful|
  {
    if successful == [] then []
    else
      var n := |successful| - 1;
      Weighted(successful[..n], weight) + (if WeightAt(weight, successful[n]) > 0 then [successful[n]] else [])
  }

  lemma {:induction false} WeightedNoDup(successful: seq<string>, weight: map<string, int>)
    requires NoDup(successful)
    ensures NoDup(Weighted(successful, weight))
  {
    if successful != [] {
      var n := |successful| - 1;
      WeightedNoDup(successful[..n], weight);
      assert successful[n] !in Weighted(successful[..n], weight);
    }
  }

  function WeightsOf(names: seq<string>, weight: map<string, int>): (r: seq<nat>)
    ensures |r| == |names| && forall i :: 0 <= i < |names| ==> r[i] == WeightAt(weight, names[i])
  {
    if names == [] then []
    else
      var n := |names| - 1;
      WeightsOf(names[..n], weight) + [WeightAt(weight, names[n])]
  }

  function WeightedPart(pool: nat, names: seq<string>, weight: map<string, int>): (r: seq<int>)
    ensures |r| == |names|
  {
    WeightedShares(pool, WeightsOf(names, weight))
  }

  function BasePaid(pool: nat, successful: seq<string>): map<string, int> {
    CreditAll(map[], successful, BaseShares(pool, |successful|))
  }

  /** base is shared equally, rest by weight; without any weight rest stays undistributed. */
  function SplitPools(base: nat, rest: nat, successful: seq<string>, weight: map<string, int>): Split {
    var names := Weighted(successful, weight);
    if names == [] then Split(BasePaid(base, successful), rest)
    else Split(CreditAll(BasePaid(base, successful), names, WeightedPart(rest, names, weight)), 0)
  }

  lemma BasePaidSum(pool: nat, successful: seq<string>)
    requires successful != []
    ensures AllPositive(BasePaid(pool, successful)) && SumMap(BasePaid(pool, successful)) == pool
    ensures NonNegative(BaseShares(pool, |successful|))
  {
    var shares := BaseShares(pool, |successful|);
    forall i | 0 <= i < |shares|
      ensures shares[i] >= 0
    {
      BaseSharesFacts(pool, |successful|, i);
    }
    BaseSharesFacts(pool, |successful|, 0);
    CreditAllSum(map[], successful, shares);
  }

  /** Every weight in the weighted list is positive. */
  lemma PositiveWeights(successful: seq<string>, weight: map<string, int>)
    ensures var weights := WeightsOf(Weighted(successful, weight), weight);
      forall j :: 0 <= j < |weights| ==> weights[j] > 0
  {
    var names := Weighted(successful, weight);
    assert forall j :: 0 <= j < |names| ==> names[j] in names;
  }

  lemma WeightedPartFacts(pool: nat, successful: seq<string>, weight: map<string, int>)
    requires Weighted(successful, weight) != []
    ensures NonNegative(WeightedPart(pool, Weighted(successful, weight), weight))
    ensures SumSeq(WeightedPart(pool, Weighted(successful, weight), weight)) == pool
  {
    var names := Weighted(successful, weight);
    var weights := WeightsOf(names, weight);
    PositiveWeights(successful, weight);
    var part := WeightedPart(pool, names, weight);
    forall i | 0 <= i < |part|
      ensures part[i] >= 0
    {
      WeightedSharesFacts(pool, weights, i);
    }
    WeightedSharesFacts(pool, weights, 0);
  }

  ghost predicate Conserves(total: int, r: Split) {
    AllPositive(r.payouts) && SumMap(r.payouts) + r.remaining == total
  }

  /** Nothing is lost and nothing is created: payouts plus remainder are the two pools. */
  lemma SplitPoolsConserves(base: nat, rest: nat, successful: seq<string>, weight: map<string, int>)
    requires successful != []
    ensures Conserves(base + rest, SplitPools(base, rest, successful, weight))
  {
    BasePaidSum(base, successful);
    var names := Weighted(successful, weight);
    if names != [] {
      WeightedPartFacts(rest, successful, weight);
      CreditAllSum(BasePaid(base, successful), names, WeightedPart(rest, names, weight));
    }
  }

  lemma {:induction false} CreditAllKeys(m: map<string, int>, names: seq<string>, shares: seq<int>)
    requires |names| == |shares|
    ensures CreditAll(m, names, shares).Keys <= m.Keys + Elems(names)
  {
    if names != [] { CreditAllKeys(m, names[..|names| - 1], shares[..|names| - 1]); }
  }

  /** Only successful verifiers are paid. */
  lemma OnlySuccessfulPaid(base: nat, rest: nat, successful: seq<string>, weight: map<string, int>)
    ensures SplitPools(base, rest, successful, weight).payouts.Keys <= Elems(successful)
  {
    CreditAllKeys(map[], successful, BaseShares(base, |successful|));
    var names := Weighted(successful, weight);
    CreditAllKeys(BasePaid(base, successful), names, WeightedPart(rest, names, weight));
  }

  // Who gets how much.

  /** Position of a successful verifier in the weighted list. */
  ghost predicate WeightedAt(successful: seq<string>, weight: map<string, int>, i: nat, j: nat) {
    && i < |successful|
    && j < |Weighted(successful, weight)|
    && Weighted(successful, weight)[j] == successful[i]
  }

  lemma WeightedIndex(successful: seq<string>, weight: map<string, int>, i: nat) returns (j: nat)
    requires i < |successful| && WeightAt(weight, successful[i]) > 0
    ensures WeightedAt(successful, weight, i, j)
  {
    var names := Weighted(successful, weight);
    assert successful[i] in names;
    j :| 0 <= j < |names| && names[j] == successful[i];
  }

  /** Without weight a verifier receives exactly its base share. */
  lemma UnweightedPayout(base: nat, rest: nat, successful: seq<string>, weight: map<string, int>, i: nat)
    requires NoDup(successful) && i < |successful| && WeightAt(weight, successful[i]) == 0
    ensures Get(SplitPools(base, rest, successful, weight).payouts, successful[i]) == BaseShares(base, |successful|)[i]
  {
    BasePaidSum(base, successful);
    CreditAllAt(map[], successful, BaseShares(base, |successful|), i);
    var names := Weighted(successful, weight);
    if names != [] { CreditAllAbsent(BasePaid(base, successful), names, WeightedPart(rest, names, weight), successful[i]); }
  }

  /** With weight it receives its base share plus its weighted share. */
  lemma WeightedPayout(base: nat, rest: nat, successful: seq<string>, weight: map<string, int>, i: nat, j: nat)
    requires NoDup(successful) && WeightedAt(successful, weight, i, j)
    ensures Get(SplitPools(base, rest, successful, weight).payouts, successful[i])
         == BaseShares(base, |successful|)[i] + WeightedPart(rest, Weighted(successful, weight), weight)[j]
  {
    BasePaidSum(base, successful);
    CreditAllAt(map[], successful, BaseShares(base, |successful|), i);
    WeightedNoDup(successful, weight);
    WeightedPartFacts(rest, successful, weight);
    var names := Weighted(successful, weight);
    CreditAllAt(BasePaid(base, successful), names, WeightedPart(rest, names, weight), j);
  }

  // Accuracy, in integers: n * t * payout against n * t times the exact share base / n + rest * w / t.

  lemma CombineUpper(n: int, t: int, b: int, c: int, base: int, x: int, m: int)
    requires n > 0 && t > 0 && 0 <= m < n
    requires n * b <= base + (n - 1) * (n - 1)
    requires t * c <= x + m * t
    ensures n * t * (b + c) <= base * t + n * x + 2 * ((n - 1) * (n * t))
  {
    Distribute(b, c, n * t);
    MulAssoc(n, t, c);
    MulAssoc(t, n, b);
    MulMono(n * b, base + (n - 1) * (n - 1), t);
    Distribute(base, (n - 1) * (n - 1), t);
    MulMono(n - 1, n, n - 1);
    MulMono((n - 1) * (n - 1), (n - 1) * n, t);
    MulAssoc(n - 1, n, t);
    MulMono(m, n - 1, t);
    MulMono(t * c, x + (n - 1) * t, n);
    Distribute(x, (n - 1) * t, n);
    MulAssoc(n, n - 1, t);
  }

  lemma CombineLower(n: int, t: int, b: int, c: int, base: int, x: int)
    requires n > 0 && t > 0
    requires base - n < n * b && x - t < t * c
    ensures base * t + n * x - 2 * (n * t) < n * t * (b + c)
  {
    Distribute(b, c, n * t);
    MulAssoc(n, t, c);
    MulAssoc(t, n, b);
    MulMonoStrict(base - n, n * b, t);
    DistributeMinus(base, n, t);
    MulMonoStrict(x - t, t * c, n);
    DistributeMinus(x, t, n);
  }

  /** Sum of the positive weights of the successful verifiers. */
  function TotalWeight(successful: seq<string>, weight: map<string, int>): nat {
    SumNat(WeightsOf(Weighted(successful, weight), weight))
  }

  /** payout is less than two units below and at most 2(n - 1) units above base / n + rest * w / t. */
  predicate Accurate(payout: int, n: nat, t: nat, base: nat, rest: nat, w: nat) {
    base * t + n * (rest * w) - 2 * (n * t) < n * t * payout <= base * t + n * (rest * w) + 2 * ((n - 1) * (n * t))
  }

  /** Every weighted verifier's payout is accurate. */
  lemma PayoutAccuracy(base: nat, rest: nat, successful: seq<string>, weight: map<string, int>, i: nat)
    requires NoDup(successful) && i < |successful| && WeightAt(weight, successful[i]) > 0
    ensures Accurate(Get(SplitPools(base, rest, successful, weight).payouts, successful[i]),
                     |successful|, TotalWeight(successful, weight), base, rest, WeightAt(weight, successful[i]))
  {
    var j := WeightedIndex(successful, weight, i);
    WeightedPayout(base, rest, successful, weight, i, j);
    var n, t, w := |successful|, TotalWeight(successful, weight), WeightAt(weight, successful[i]);
    var b, c := BaseShares(base, n)[i], WeightedPart(rest, Weighted(successful, weight), weight)[j];
    BaseSharesFacts(base, n, i);
    PositiveWeights(successful, weight);
    WeightedSharesFacts(rest, WeightsOf(Weighted(successful, weight), weight), j);
    SharesAccurate(Get(SplitPools(base, rest, successful, weight).payouts, successful[i]), n, t, b, c, base, rest, w,
                   if j == |Weighted(successful, weight)| - 1 then j else 0);
  }

  lemma SharesAccurate(p: int, n: nat, t: nat, b: int, c: int, base: nat, rest: nat, w: nat, m: nat)
    requires n > 0 && m < n && p == b + c
    requires base - n < n * b <= base + (n - 1) * (n - 1)
    requires Near(rest * w, t, c, m)
    ensures Accurate(p, n, t, base, rest, w)
  {
    CombineLower(n, t, b, c, base, rest * w);
    CombineUpper(n, t, b, c, base, rest * w, m);
  }

  const EXAMPLE_NAMES := ["a", "b", "c"]
  const EXAMPLE_WEIGHTS: map<string, int> := map["a" := 1, "b" := 1, "c" := 98]

  lemma ExampleWeights()
    ensures Weighted(EXAMPLE_NAMES, EXAMPLE_WEIGHTS) == EXAMPLE_NAMES
    ensures WeightsOf(EXAMPLE_NAMES, EXAMPLE_WEIGHTS) == [1, 1, 98]
    ensures TotalWeight(EXAMPLE_NAMES, EXAMPLE_WEIGHTS) == 100
  {
    var names := EXAMPLE_NAMES;
    assert names[..2][..1] == names[..1] && names[..1][..0] == [];
    assert Weighted(names[..1], EXAMPLE_WEIGHTS) == ["a"];
    assert Weighted(names[..2], EXAMPLE_WEIGHTS) == ["a", "b"];
    var weights := WeightsOf(names, EXAMPLE_WEIGHTS);
    assert weights == [1, 1, 98];
    assert SumNat(weights[..1]) == 1 && weights[..2][..1] == weights[..1];
    assert SumNat(weights[..2]) == 2;
  }

  lemma SumOfTwo(xs: seq<int>)
    requires |xs| == 2
    ensures SumSeq(xs) == xs[0] + xs[1]
  {
    SumSeqAppend([], xs[0]);
    SumSeqAppend([xs[0]], xs[1]);
    assert xs == [xs[0]] + [xs[1]];
  }

  lemma ExampleBaseShare()
    ensures BaseShares(65, 3)[2] == 23
  {
    BaseShareAt(65, 3, 0);
    BaseShareAt(65, 3, 1);
    BaseShareAt(65, 3, 2);
    SumOfTwo(BaseShares(65, 3)[..2]);
  }

  lemma ExampleWeightedShare(weights: seq<nat>)
    requires weights == [1, 1, 98] && SumNat(weights) == 100
    ensures WeightedShares(99, weights)[2] == 99
  {
    WeightedShareAt(99, weights, 0);
    WeightedShareAt(99, weights, 1);
    WeightedShareAt(99, weights, 2);
    SumOfTwo(WeightedShares(99, weights)[..2]);
  }

  /** n units do not bound the error: 164 units at 40% base, weights 1, 1 and 98, overpay the last by more than 3. */
  lemma ErrorExceedsN()
    ensures BasePool(164, 4000) == 65 && WeightedPool(164, 4000) == 99
    ensures TotalWeight(EXAMPLE_NAMES, EXAMPLE_WEIGHTS) == 100
    ensures 3 * 100 * Get(SplitPools(65, 99, EXAMPLE_NAMES, EXAMPLE_WEIGHTS).payouts, "c")
            > 65 * 100 + 3 * (99 * 98) + 3 * (3 * 100)
  {
    ExampleWeights();
    ExamplePayout();
  }

  lemma ExamplePayout()
    ensures Get(SplitPools(65, 99, EXAMPLE_NAMES, EXAMPLE_WEIGHTS).payouts, "c") == 122
  {
    ExampleWeights();
    ExampleBaseShare();
    ExampleWeightedShare(WeightsOf(EXAMPLE_NAMES, EXAMPLE_WEIGHTS));
    WeightedPayout(65, 99, EXAMPLE_NAMES, EXAMPLE_WEIGHTS, 2, 2);
  }

  // The payouts themselves.

  /** The base pool is the base share's basis points of the total, rounded down. */
  lemma BasePoolExact(total: nat, bps: int)
    requires 0 <= bps <= 10000
    ensures BasePool(total, bps) * 10000 <= total * bps < (BasePool(total, bps) + 1) * 10000
    ensures BasePool(total, bps) + WeightedPool(total, bps) == total
  {
    FloorBounds(total * bps, 10000);
  }

  /**
   * A payout is the equal part b of the base pool and, with weight, the proportional part c of the weighted pool, both
   * rounded down; the last verifier of either list takes what the others leave of that pool.
   */
  lemma PayoutExact(base: nat, rest: nat, successful: seq<string>, weight: map<string, int>, i: nat) returns (b: int, c: int)
    requires NoDup(successful) && i < |successful|
    ensures Get(SplitPools(base, rest, successful, weight).payouts, successful[i]) == b + c
    ensures var n, q := |successful|, base / |successful|; b == if i < n - 1 then q else base - (n - 1) * q
    ensures WeightAt(weight, successful[i]) == 0 ==> c == 0
    ensures WeightAt(weight, successful[i]) > 0 ==>
      var names, t := Weighted(successful, weight), TotalWeight(successful, weight);
      && t > 0
      && (names[|names| - 1] != successful[i] ==> c == rest * WeightAt(weight, successful[i]) / t)
      && (names[|names| - 1] == successful[i] ==>
            c == rest - SumSeq(Floors(rest, WeightsOf(names, weight), t)[..|names| - 1]))
  {
    var n, q := |successful|, base / |successful|;
    b := BaseShares(base, n)[i];
    RepeatSum(q, n - 1);
    assert Repeat(q, n)[..n - 1] == Repeat(q, n - 1);
    if WeightAt(weight, successful[i]) == 0 {
      c := 0;
      UnweightedPayout(base, rest, successful, weight, i);
    } else {
      var j := WeightedIndex(successful, weight, i);
      c := WeightedPart(rest, Weighted(successful, weight), weight)[j];
      WeightedPayout(base, rest, successful, weight, i, j);
      WeightedShareIs(rest, successful, weight, i, j);
    }
  }

  lemma WeightedShareIs(rest: nat, successful: seq<string>, weight: map<string, int>, i: nat, j: nat)
    requires NoDup(successful) && WeightedAt(successful, weight, i, j)
    ensures var names, t := Weighted(successful, weight), TotalWeight(successful, weight);
      var c := WeightedPart(rest, names, weight)[j];
      && t > 0
      && (names[|names| - 1] != successful[i] ==> c == rest * WeightAt(weight, successful[i]) / t)
      && (names[|names| - 1] == successful[i] ==> c == rest - SumSeq(Floors(rest, WeightsOf(names, weight), t)[..|names| - 1]))
  {
    var names := Weighted(successful, weight);
    WeightedNoDup(successful, weight);
    PositiveWeights(successful, weight);
    SumNatPositive(WeightsOf(names, weight));
    assert names[|names| - 1] == successful[i] <==> j == |names| - 1;
  }

  // When a payout exists at all.

  /** Verifier i is certain to receive something. */
  ghost predicate Funded(base: nat, rest: nat, successful: seq<string>, weight: map<string, int>, i: nat)
    requires i < |successful|
  {
    var names := Weighted(successful, weight);
    || |successful| <= base
    || (i == |successful| - 1 && base > 0)
    || (WeightAt(weight, successful[i]) > 0
        && (if names[|names| - 1] == successful[i] then rest > 0
            else TotalWeight(successful, weight) <= rest * WeightAt(weight, successful[i])))
  }

  lemma EntryIffPositive(m: map<string, int>, a: string)
    requires AllPositive(m)
    ensures a in m <==> Get(m, a) > 0
  {
  }

  /**
   * The payment loop reads a missing entry as a nil amount and panics. An entry exists if and only if
   * the verifier is funded; a base pool of at least one unit per verifier funds everybody.
   */
  lemma PayoutDefined(base: nat, rest: nat, successful: seq<string>, weight: map<string, int>, i: nat)
    requires NoDup(successful) && i < |successful|
    ensures successful[i] in SplitPools(base, rest, successful, weight).payouts
            <==> Funded(base, rest, successful, weight, i)
  {
    SplitPoolsConserves(base, rest, successful, weight);
    EntryIffPositive(SplitPools(base, rest, successful, weight).payouts, successful[i]);
    if WeightAt(weight, successful[i]) > 0 {
      WeightedFunded(base, rest, successful, weight, i);
    } else {
      UnweightedPayout(base, rest, successful, weight, i);
      BaseSharesFacts(base, |successful|, i);
    }
  }

  /** A lone verifier that unbonded, with no base share configured, has no entry. */
  lemma MissingEntry()
    ensures "a" !in SplitPools(0, 1, ["a"], map[]).payouts
  {
    PayoutDefined(0, 1, ["a"], map[], 0);
  }

  lemma WeightedFunded(base: nat, rest: nat, successful: seq<string>, weight: map<string, int>, i: nat)
    requires NoDup(successful) && i < |successful| && WeightAt(weight, successful[i]) > 0
    ensures Get(SplitPools(base, rest, successful, weight).payouts, successful[i]) > 0
            <==> Funded(base, rest, successful, weight, i)
  {
    var names := Weighted(successful, weight);
    var j := WeightedIndex(successful, weight, i);
    WeightedPayout(base, rest, successful, weight, i, j);
    BaseSharesFacts(base, |successful|, i);
    WeightedNoDup(successful, weight);
    PositiveWeights(successful, weight);
    WeightedSharesFacts(rest, WeightsOf(names, weight), j);
    assert names[|names| - 1] == successful[i] <==> j == |names| - 1;
  }

  // The loops.

  /** splitVerifierAssignmentRewards, whose negative-remainder clamp is unreachable. */
  method SplitVerifierAssignmentRewards(total: int, successful: seq<string>, weight: map<string, int>, bps: int)
    returns (payouts: map<string, int>, remaining: int)
    ensures Conserves(total, Split(payouts, remaining))
    ensures total >= 0 ==> 0 <= remaining <= total
    ensures total > 0 && successful != [] ==>
      && payouts == SplitPools(BasePool(total, bps), WeightedPool(total, bps), successful, weight).payouts
      && remaining == SplitPools(BasePool(total, bps), WeightedPool(total, bps), successful, weight).remaining
    ensures total <= 0 || successful == [] ==> payouts == map[]
  {
    if total <= 0 || |successful| == 0 { return map[], total; }
    var base, rest := BasePool(total, bps), WeightedPool(total, bps);
    SplitPoolsConserves(base, rest, successful, weight);
    payouts, remaining := PayPools(total, base, rest, successful, weight);
    if remaining < 0 { assert false; }
  }

  method PayPools(total: nat, base: nat, rest: nat, successful: seq<string>, weight: map<string, int>)
    returns (payouts: map<string, int>, remaining: int)
    requires successful != [] && total == base + rest
    ensures payouts == SplitPools(base, rest, successful, weight).payouts
    ensures remaining == SplitPools(base, rest, successful, weight).remaining
  {
    payouts, remaining := PayBase(total, base, successful);
    var names := CollectWeighted(successful, weight);
    if |names| > 0 {
      payouts, remaining := PayRest(payouts, remaining, rest, successful, names, weight);
    }
  }

  method PayRest(paid: map<string, int>, before: int, rest: nat, ghost successful: seq<string>, names: seq<string>,
                 weight: map<string, int>)
    returns (payouts: map<string, int>, remaining: int)
    requires names == Weighted(successful, weight) && names != []
    ensures payouts == CreditAll(paid, names, WeightedPart(rest, names, weight))
    ensures remaining == before - rest
  {
    WeightedPartFacts(rest, successful, weight);
    if rest > 0 {
      PositiveWeights(successful, weight);
      SumNatPositive(WeightsOf(names, weight));
      payouts, remaining := PayWeighted(paid, before, rest, names, WeightsOf(names, weight), WeightedPart(rest, names, weight));
    } else {
      ZeroShares(paid, names, WeightedPart(rest, names, weight));
      payouts, remaining := paid, before;
    }
  }

  method PayBase(total: int, base: nat, successful: seq<string>) returns (payouts: map<string, int>, remaining: int)
    requires |successful| > 0
    ensures payouts == BasePaid(base, successful)
    ensures remaining == total - base
  {
    BasePaidSum(base, successful);
    BaseSharesFacts(base, |successful|, 0);
    if base > 0 {
      payouts, remaining := PayShares(total, base, successful, BaseShares(base, |successful|));
    } else {
      ZeroShares(map[], successful, BaseShares(base, |successful|));
      payouts, remaining := map[], total;
    }
  }

  /** The base loop: everybody takes the floored share, the last one what is left. */
  method PayShares(total: int, base: nat, successful: seq<string>, ghost shares: seq<int>)
    returns (payouts: map<string, int>, remaining: int)
    requires |successful| > 0 && shares == BaseShares(base, |successful|) && NonNegative(shares)
    ensures payouts == CreditAll(map[], successful, shares)
    ensures remaining == total - SumSeq(shares)
  {
    payouts, remaining := map[], total;
    var n := |successful|;
    var per := base / n;
    var distributed := 0;
    for i := 0 to n
      invariant payouts == CreditAll(map[], successful[..i], shares[..i])
      invariant distributed == SumSeq(shares[..i]) && remaining == total - distributed
    {
      var share := if i == n - 1 then base - distributed else per;
      BaseShareAt(base, n, i);
      CreditStep(map[], successful, shares, i);
      payouts := AddShare(payouts, successful[i], share);
      if share > 0 {
        distributed := distributed + share;
        remaining := remaining - share;
      }
    }
    assert successful[..n] == successful && shares[..n] == shares;
  }

  lemma CreditStep(m: map<string, int>, names: seq<string>, shares: seq<int>, i: nat)
    requires |names| == |shares| && i < |names|
    ensures CreditAll(m, names[..i + 1], shares[..i + 1]) == Credit(CreditAll(m, names[..i], shares[..i]), names[i], shares[i])
    ensures SumSeq(shares[..i + 1]) == SumSeq(shares[..i]) + shares[i]
  {
    assert names[..i + 1][..i] == names[..i] && shares[..i + 1][..i] == shares[..i];
  }

  lemma BaseShareAt(pool: nat, n: nat, i: nat)
    requires i < n
    ensures BaseShares(pool, n)[i] == if i == n - 1 then pool - SumSeq(BaseShares(pool, n)[..i]) else pool / n
    ensures BaseShares(pool, n)[i] >= 0
  {
    BaseSharesFacts(pool, n, i);
    assert BaseShares(pool, n)[..n - 1] == Repeat(pool / n, n)[..n - 1];
  }

  /** Shares that add up to nothing leave the payouts alone. */
  lemma {:induction false} ZeroShares(m: map<string, int>, names: seq<string>, shares: seq<int>)
    requires |names| == |shares| && NonNegative(shares) && SumSeq(shares) == 0
    ensures CreditAll(m, names, shares) == m
  {
    if names != [] {
      var n := |names| - 1;
      SumSeqNonNegative(shares[..n]);
      ZeroShares(m, names[..n], shares[..n]);
    }
  }

  method CollectWeighted(successful: seq<string>, weight: map<string, int>) returns (names: seq<string>)
    ensures names == Weighted(successful, weight)
  {
    names := [];
    for i := 0 to |successful|
      invariant names == Weighted(successful[..i], weight)
    {
      assert successful[..i + 1][..i] == successful[..i];
      if WeightAt(weight, successful[i]) > 0 { names := names + [successful[i]]; }
    }
    assert successful[..|successful|] == successful;
  }

  method PayWeighted(paid: map<string, int>, before: int, rest: nat, names: seq<string>, weights: seq<nat>, ghost shares: seq<int>)
    returns (payouts: map<string, int>, remaining: int)
    requires |names| == |weights| && SumNat(weights) > 0
    requires shares == WeightedShares(rest, weights) && NonNegative(shares)
    ensures payouts == CreditAll(paid, names, shares)
    ensures remaining == before - SumSeq(shares)
  {
    payouts, remaining := paid, before;
    var n, totalWeight := |names|, SumNat(weights);
    var distributed := 0;
    for i := 0 to n
      invariant payouts == CreditAll(paid, names[..i], shares[..i])
      invariant distributed == SumSeq(shares[..i]) && remaining == before - distributed
    {
      var share := NextShare(rest, weights, i, totalWeight, distributed);
      CreditStep(paid, names, shares, i);
      payouts := AddShare(payouts, names[i], share);
      if share > 0 {
        distributed := distributed + share;
        remaining := remaining - share;
      }
    }
    assert names[..n] == names && shares[..n] == shares;
  }

  method AddShare(payouts: map<string, int>, name: string, share: int) returns (r: map<string, int>)
    ensures r == Credit(payouts, name, share)
  {
    r := payouts;
    if share > 0 {
      var before := if name in payouts then payouts[name] else 0;
      r := payouts[name := before + share];
    }
  }

  method NextShare(rest: nat, weights: seq<nat>, i: nat, totalWeight: nat, distributed: int) returns (share: int)
    requires i < |weights| && totalWeight == SumNat(weights) && totalWeight > 0
    requires distributed == SumSeq(WeightedShares(rest, weights)[..i])
    ensures share == WeightedShares(rest, weights)[i]
  {
    WeightedShareAt(rest, weights, i);
    share := if i == |weights| - 1 then rest - distributed else Floor(rest, weights[i], totalWeight);
  }

  lemma WeightedShareAt(pool: nat, weights: seq<nat>, i: nat)
    requires i < |weights| && SumNat(weights) > 0
    ensures WeightedShares(pool, weights)[i]
         == if i == |weights| - 1 then pool - SumSeq(WeightedShares(pool, weights)[..i])
            else Floor(pool, weights[i], SumNat(weights))
  {
    var n := |weights| - 1;
    assert WeightedShares(pool, weights)[..n] == Floors(pool, weights, SumNat(weights))[..n];
  }
}
