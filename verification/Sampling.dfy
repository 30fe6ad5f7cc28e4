// Stake-weighted sampling without replacement (x/registry/verification_rounds.go, selectDeterministicWeighted).
module Sampling {
  import opened Base
  import opened Orders

  datatype Candidate = Candidate(addr: string, weight: nat)

  /** Every weight is at least one: a non-positive stake counts as one. */
  ghost predicate Positive(pool: seq<Candidate>) {
    forall i :: 0 <= i < |pool| ==> pool[i].weight >= 1
  }

  ghost predicate Distinct(pool: seq<Candidate>) {
    forall i, j :: 0 <= i < j < |pool| ==> pool[i].addr != pool[j].addr
  }

  ghost function Names(pool: seq<Candidate>): set<string> {
    set i | 0 <= i < |pool| :: pool[i].addr
  }

  /** Sum of the weights before position i: the left end of candidate i's interval. */
  function Prefix(pool: seq<Candidate>, i: nat): nat
    requires i <= |pool|
  {
    if i == 0 then 0 else Prefix(pool, i - 1) + pool[i - 1].weight
  }

  function Total(pool: seq<Candidate>): nat {
    Prefix(pool, |pool|)
  }

  /** pick falls into candidate i's half-open interval. */
  predicate Hits(pool: seq<Candidate>, pick: nat, i: nat) {
    i < |pool| && Prefix(pool, i) <= pick < Prefix(pool, i + 1)
  }

  lemma {:induction false} PrefixMonotone(pool: seq<Candidate>, i: nat, j: nat)
    requires i <= j <= |pool|
    ensures Prefix(pool, i) <= Prefix(pool, j)
  {
    if i < j { PrefixMonotone(pool, i, j - 1); }
  }

  lemma {:induction false} TotalPositive(pool: seq<Candidate>)
    requires Positive(pool) && pool != []
    ensures Total(pool) >= |pool| > 0
  {
    PrefixAtLeast(pool, |pool|);
  }

  lemma {:induction false} PrefixAtLeast(pool: seq<Candidate>, i: nat)
    requires Positive(pool) && i <= |pool|
    ensures Prefix(pool, i) >= i
  {
    if i > 0 { PrefixAtLeast(pool, i - 1); }
  }

  lemma HitUnique(pool: seq<Candidate>, pick: nat, i: nat, j: nat)
    requires Hits(pool, pick, i) && Hits(pool, pick, j)
    ensures i == j
  {
    if i < j { PrefixMonotone(pool, i + 1, j); }
    if j < i { PrefixMonotone(pool, j + 1, i); }
  }

  /** The index selected by pick: searched from the left, within the first n candidates. */
  function Locate(pool: seq<Candidate>, pick: nat, n: nat): (i: nat)
    requires n <= |pool| && pick < Prefix(pool, n)
    ensures i < n && Hits(pool, pick, i)
  {
    if Prefix(pool, n - 1) <= pick then n - 1 else Locate(pool, pick, n - 1)
  }

  /** The pick values below Total that select candidate i. */
  ghost function Selecting(pool: seq<Candidate>, i: nat): set<nat> {
    set p: nat | p < Total(pool) && Locate(pool, p, |pool|) == i
  }

  /** Exactly weight-many of the Total pick values select candidate i. */
  lemma SelectionFrequency(pool: seq<Candidate>, i: nat)
    requires i < |pool|
    ensures |Selecting(pool, i)| == pool[i].weight
  {
    PrefixMonotone(pool, i + 1, |pool|);
    var interval := Range(Prefix(pool, i), pool[i].weight);
    forall p: nat
      ensures p in Selecting(pool, i) <==> p in interval
    {
      if p in interval { HitUnique(pool, p, Locate(pool, p, |pool|), i); }
    }
    assert Selecting(pool, i) == interval;
  }

  ghost function Range(lo: nat, n: nat): (r: set<nat>)
    ensures |r| == n
    ensures forall p: nat :: p in r <==> lo <= p < lo + n
  {
    if n == 0 then {} else Range(lo, n - 1) + {lo + n - 1}
  }

  function Remove(pool: seq<Candidate>, i: nat): (rest: seq<Candidate>)
    requires i < |pool|
    ensures |rest| == |pool| - 1
    ensures Positive(pool) ==> Positive(rest)
  {
    pool[..i] + pool[i + 1..]
  }

  /** deterministicPick: the hash of the seed with the draw number, reduced modulo the total weight. */
  function Pick(digest: nat -> nat, draw: nat, total: nat): (p: nat)
    requires total > 0
    ensures p < total
  {
    digest(draw) % total
  }

  /** The selection in progress: who is already drawn and who is still in the pool. */
  datatype Draft = Draft(selected: seq<string>, pool: seq<Candidate>)

  function DrawStep(d: Draft, draw: nat, digest: nat -> nat): (r: Draft)
    requires Positive(d.pool) && d.pool != []
    ensures Positive(r.pool)
  {
    TotalPositive(d.pool);
    var i := Locate(d.pool, Pick(digest, draw, Total(d.pool)), |d.pool|);
    Draft(d.selected + [d.pool[i].addr], Remove(d.pool, i))
  }

  /** State after k draws; digest(d) is the hash of the seed with draw number d. */
  function After(pool: seq<Candidate>, k: nat, digest: nat -> nat): (d: Draft)
    requires Positive(pool) && k <= |pool|
    ensures Positive(d.pool) && |d.pool| == |pool| - k && |d.selected| == k
  {
    if k == 0 then Draft([], pool) else DrawStep(After(pool, k - 1, digest), k - 1, digest)
  }

  lemma RemoveDistinct(pool: seq<Candidate>, i: nat)
    requires i < |pool| && Distinct(pool)
    ensures Distinct(Remove(pool, i))
    ensures Names(Remove(pool, i)) == Names(pool) - {pool[i].addr}
  {
    var rest := Remove(pool, i);
    assert forall j :: 0 <= j < |rest| ==> rest[j] == pool[if j < i then j else j + 1];
    forall a | a in Names(pool) - {pool[i].addr}
      ensures a in Names(rest)
    {
      var j :| 0 <= j < |pool| && pool[j].addr == a;
      assert rest[if j < i then j else j - 1] == pool[j];
    }
  }

  /** Drawn and remaining candidates are distinct and together are the original pool. */
  ghost predicate FairDraft(pool: seq<Candidate>, d: Draft) {
    && NoDup(d.selected)
    && Distinct(d.pool)
    && Names(d.pool) == Names(pool) - Elems(d.selected)
    && Elems(d.selected) <= Names(pool)
  }

  lemma DrawStepFair(pool: seq<Candidate>, d: Draft, draw: nat, digest: nat -> nat)
    requires Positive(d.pool) && d.pool != [] && FairDraft(pool, d)
    ensures FairDraft(pool, DrawStep(d, draw, digest))
    ensures |DrawStep(d, draw, digest).selected| == |d.selected| + 1
  {
    TotalPositive(d.pool);
    var i := Locate(d.pool, Pick(digest, draw, Total(d.pool)), |d.pool|);
    RemoveDistinct(d.pool, i);
    var r := DrawStep(d, draw, digest);
    assert d.pool[i].addr in Names(d.pool);
    assert Elems(r.selected) == Elems(d.selected) + {d.pool[i].addr};
  }

  lemma AfterFairNext(pool: seq<Candidate>, k: nat, digest: nat -> nat, d: Draft)
    requires Positive(pool) && k < |pool| && d == After(pool, k, digest) && FairDraft(pool, d)
    ensures FairDraft(pool, After(pool, k + 1, digest))
  {
    DrawStepFair(pool, d, k, digest);
  }

  /** k draws select k distinct candidates. */
  lemma {:induction false} AfterFair(pool: seq<Candidate>, k: nat, digest: nat -> nat)
    requires Positive(pool) && Distinct(pool) && k <= |pool|
    ensures FairDraft(pool, After(pool, k, digest))
  {
    if k == 0 {
      NothingDrawn(pool);
    } else {
      AfterFair(pool, k - 1, digest);
      AfterFairNext(pool, k - 1, digest, After(pool, k - 1, digest));
    }
  }

  lemma NothingDrawn(pool: seq<Candidate>)
    requires Distinct(pool)
    ensures FairDraft(pool, Draft([], pool))
  {
    assert Elems<string>([]) == {};
  }

  /** What the caller must supply: a stake entry per candidate whenever a real draw happens. */
  predicate StakesDefined(candidates: seq<string>, stake: map<string, int>, k: int) {
    0 < k < |candidates| ==> forall i :: 0 <= i < |candidates| ==> candidates[i] in stake
  }

  function WeightOf(stake: int): (w: nat)
    ensures w >= 1
  {
    if stake > 0 then stake else 1
  }

  function Pool(candidates: seq<string>, stake: map<string, int>): (pool: seq<Candidate>)
    requires forall i :: 0 <= i < |candidates| ==> candidates[i] in stake
    ensures |pool| == |candidates| && Positive(pool)
    ensures forall i :: 0 <= i < |pool| ==> pool[i] == Candidate(candidates[i], WeightOf(stake[candidates[i]]))
  {
    if candidates == [] then []
    else
      var n := |candidates| - 1;
      Pool(candidates[..n], stake) + [Candidate(candidates[n], WeightOf(stake[candidates[n]]))]
  }

  function Select(candidates: seq<string>, stake: map<string, int>, k: int, digest: nat -> nat): (r: seq<string>)
    requires StakesDefined(candidates, stake, k) && NoDup(candidates)
    ensures 0 < k < |candidates| ==> |r| == k
  {
    if k <= 0 || candidates == [] then []
    else if |candidates| <= k then SortedStrings(Elems(candidates))
    else After(Pool(candidates, stake), k, digest).selected
  }

  /** Distinct candidates give exactly min(k, n) distinct members of the candidates. */
  lemma SelectDistinct(candidates: seq<string>, stake: map<string, int>, k: int, digest: nat -> nat)
    requires StakesDefined(candidates, stake, k) && NoDup(candidates)
    ensures var r := Select(candidates, stake, k, digest);
      && |r| == Min(Max(k, 0), |candidates|)
      && NoDup(r)
      && forall a :: a in r ==> a in candidates
  {
    if k > 0 && candidates != [] {
      if |candidates| <= k {
        var all := Elems(candidates);
        EnumerationLength(candidates, all);
        EnumerationLength(SortedStrings(all), all);
      } else {
        assert Distinct(Pool(candidates, stake));
        AfterFair(Pool(candidates, stake), k, digest);
        var r := Select(candidates, stake, k, digest);
        forall a | a in r
          ensures a in candidates
        {
          assert a in Elems(r);
        }
      }
    }
  }

  // How often a hash value selects a candidate.

  /** One draw removes the candidate whose interval holds the hash of that draw, reduced modulo the total weight. */
  lemma DrawStepExact(d: Draft, draw: nat, digest: nat -> nat, i: nat)
    requires Positive(d.pool) && d.pool != [] && Total(d.pool) > 0 && Hits(d.pool, digest(draw) % Total(d.pool), i)
    ensures DrawStep(d, draw, digest) == Draft(d.selected + [d.pool[i].addr], d.pool[..i] + d.pool[i + 1..])
  {
    var pick := Pick(digest, draw, Total(d.pool));
    HitUnique(d.pool, pick, Locate(d.pool, pick, |d.pool|), i);
  }

  /** The hash function with the value of one draw replaced. */
  function With(digest: nat -> nat, draw: nat, x: nat): nat -> nat {
    n => if n == draw then x else digest(n)
  }

  /** The hash values below the total weight with which the draw appends a. */
  ghost function Drawing(d: Draft, draw: nat, digest: nat -> nat, a: string): set<nat>
    requires Positive(d.pool) && d.pool != []
  {
    set x: nat | x < Total(d.pool) && DrawStep(d, draw, With(digest, draw, x)).selected == d.selected + [a]
  }

  /** Exactly weight-many of the Total hash values draw candidate i, whatever the other draws hash to. */
  lemma DrawFrequency(d: Draft, draw: nat, digest: nat -> nat, i: nat)
    requires Positive(d.pool) && Distinct(d.pool) && i < |d.pool|
    ensures |Drawing(d, draw, digest, d.pool[i].addr)| == d.pool[i].weight
  {
    PrefixMonotone(d.pool, i + 1, |d.pool|);
    var interval := Range(Prefix(d.pool, i), d.pool[i].weight);
    forall x: nat
      ensures x in Drawing(d, draw, digest, d.pool[i].addr) <==> x in interval
    {
      if x < Total(d.pool) { DrawnByHash(d, draw, digest, x, i); }
    }
    assert Drawing(d, draw, digest, d.pool[i].addr) == interval;
  }

  lemma DrawnByHash(d: Draft, draw: nat, digest: nat -> nat, x: nat, i: nat)
    requires Positive(d.pool) && Distinct(d.pool) && i < |d.pool| && x < Total(d.pool)
    ensures DrawStep(d, draw, With(digest, draw, x)).selected == d.selected + [d.pool[i].addr] <==> Hits(d.pool, x, i)
  {
    var f, j := With(digest, draw, x), Locate(d.pool, x, |d.pool|);
    SmallMod(x, Total(d.pool));
    DrawStepExact(d, draw, f, j);
    assert (d.selected + [d.pool[j].addr])[|d.selected|] == d.pool[j].addr;
    assert (d.selected + [d.pool[i].addr])[|d.selected|] == d.pool[i].addr;
    if Hits(d.pool, x, i) { HitUnique(d.pool, x, i, j); }
  }

  lemma SmallMod(x: nat, total: nat)
    requires x < total
    ensures x % total == x
  {
  }

  /** Draws depend on their own hashes only. */
  lemma {:induction false} AfterAgrees(pool: seq<Candidate>, k: nat, f: nat -> nat, g: nat -> nat)
    requires Positive(pool) && k <= |pool| && forall n: nat :: n < k ==> f(n) == g(n)
    ensures After(pool, k, f) == After(pool, k, g)
  {
    if k > 0 { AfterAgrees(pool, k - 1, f, g); }
  }

  lemma SelectAgrees(candidates: seq<string>, stake: map<string, int>, k: int, f: nat -> nat, g: nat -> nat)
    requires StakesDefined(candidates, stake, k) && NoDup(candidates) && forall n: nat :: f(n) == g(n)
    ensures Select(candidates, stake, k, f) == Select(candidates, stake, k, g)
  {
    if 0 < k < |candidates| { AfterAgrees(Pool(candidates, stake), k, f, g); }
  }

  /** Later draws only append. */
  lemma {:induction false} AfterPrefix(pool: seq<Candidate>, j: nat, k: nat, digest: nat -> nat)
    requires Positive(pool) && j <= k <= |pool|
    ensures After(pool, k, digest).selected[..j] == After(pool, j, digest).selected
    decreases k
  {
    if j < k { AfterPrefix(pool, j, k - 1, digest); }
  }

  /** The candidates that are not in drawn, in order. */
  ghost function Without(pool: seq<Candidate>, drawn: set<string>): seq<Candidate> {
    if pool == [] then []
    else
      var n := |pool| - 1;
      if pool[n].addr in drawn then Without(pool[..n], drawn) else Without(pool[..n], drawn) + [pool[n]]
  }

  lemma {:induction false} WithoutKeeps(pool: seq<Candidate>, drawn: set<string>, c: Candidate)
    requires c in pool && c.addr !in drawn
    ensures c in Without(pool, drawn)
  {
    var n := |pool| - 1;
    assert pool == pool[..n] + [pool[n]];
    if c != pool[n] { WithoutKeeps(pool[..n], drawn, c); }
  }

  /** Leaving out one more candidate removes it from what was left. */
  lemma {:induction false} WithoutOneMore(pool: seq<Candidate>, drawn: set<string>, i: nat, more: set<string>)
    requires i < |Without(pool, drawn)| && Distinct(pool) && more == drawn + {Without(pool, drawn)[i].addr}
    ensures Without(pool, drawn)[..i] + Without(pool, drawn)[i + 1..] == Without(pool, more)
  {
    var n := |pool| - 1;
    var front := Without(pool[..n], drawn);
    if pool[n].addr in drawn {
      WithoutOneMore(pool[..n], drawn, i, more);
    } else if i < |front| {
      WithoutOneMore(pool[..n], drawn, i, more);
      WithoutMember(pool[..n], drawn, i);
      assert Without(pool, drawn)[i] == front[i];
      assert Without(pool, drawn)[i + 1..] == front[i + 1..] + [pool[n]];
    } else {
      WithoutStranger(pool[..n], drawn, pool[n].addr, more);
    }
  }

  lemma {:induction false} WithoutMember(pool: seq<Candidate>, drawn: set<string>, i: nat)
    requires i < |Without(pool, drawn)|
    ensures exists j :: 0 <= j < |pool| && pool[j] == Without(pool, drawn)[i]
  {
    var n := |pool| - 1;
    var front := Without(pool[..n], drawn);
    if i < |front| {
      WithoutMember(pool[..n], drawn, i);
      var j :| 0 <= j < n && pool[..n][j] == front[i];
      assert pool[j] == Without(pool, drawn)[i];
    } else {
      assert pool[n] == Without(pool, drawn)[i];
    }
  }

  lemma {:induction false} WithoutStranger(pool: seq<Candidate>, drawn: set<string>, a: string, more: set<string>)
    requires more == drawn + {a} && forall i :: 0 <= i < |pool| ==> pool[i].addr != a
    ensures Without(pool, more) == Without(pool, drawn)
  {
    if pool != [] { WithoutStranger(pool[..|pool| - 1], drawn, a, more); }
  }

  lemma {:induction false} WithoutNone(pool: seq<Candidate>)
    ensures Without(pool, {}) == pool
  {
    if pool != [] { WithoutNone(pool[..|pool| - 1]); }
  }

  /** After k draws the pool holds the candidates that are not drawn, in order and with their weights. */
  lemma {:induction false} AfterLeaves(pool: seq<Candidate>, k: nat, digest: nat -> nat)
    requires Positive(pool) && Distinct(pool) && k <= |pool|
    ensures After(pool, k, digest).pool == Without(pool, Elems(After(pool, k, digest).selected))
  {
    if k == 0 {
      assert Elems<string>([]) == {};
      WithoutNone(pool);
    } else {
      AfterLeaves(pool, k - 1, digest);
      DrawLeaves(pool, After(pool, k - 1, digest), k - 1, digest);
    }
  }

  lemma DrawLeaves(pool: seq<Candidate>, d: Draft, draw: nat, digest: nat -> nat)
    requires Distinct(pool) && Positive(d.pool) && d.pool != [] && d.pool == Without(pool, Elems(d.selected))
    ensures DrawStep(d, draw, digest).pool == Without(pool, Elems(DrawStep(d, draw, digest).selected))
  {
    TotalPositive(d.pool);
    var i := Locate(d.pool, digest(draw) % Total(d.pool), |d.pool|);
    DrawStepExact(d, draw, digest, i);
    var a := d.pool[i].addr;
    assert Elems(d.selected + [a]) == Elems(d.selected) + {a};
    WithoutOneMore(pool, Elems(d.selected), i, Elems(d.selected + [a]));
  }

  /** The weights of the candidates that are not drawn. */
  ghost function WeightLeft(candidates: seq<string>, stake: map<string, int>, drawn: seq<string>): nat
    requires forall i :: 0 <= i < |candidates| ==> candidates[i] in stake
  {
    Total(Without(Pool(candidates, stake), Elems(drawn)))
  }

  /** The values of the j-th hash, below the weight left by the earlier members, for which a becomes member j. */
  ghost function Selectors(candidates: seq<string>, stake: map<string, int>, k: int, digest: nat -> nat, j: nat, a: string): set<nat>
    requires StakesDefined(candidates, stake, k) && NoDup(candidates) && j < k < |candidates|
  {
    set x: nat | x < WeightLeft(candidates, stake, Select(candidates, stake, k, digest)[..j])
                 && Select(candidates, stake, k, With(digest, j, x))[j] == a
  }

  /**
   * A real draw is proportional to stake at every place: among the values of the j-th hash below the weight left by
   * the earlier members, exactly as many select a as a has stake, and one if it has none.
   */
  lemma SelectFrequency(candidates: seq<string>, stake: map<string, int>, k: int, digest: nat -> nat, j: nat, a: string)
    requires StakesDefined(candidates, stake, k) && NoDup(candidates) && j < k < |candidates|
    requires a in candidates && a !in Select(candidates, stake, k, digest)[..j]
    ensures |Selectors(candidates, stake, k, digest, j, a)| == if stake[a] > 0 then stake[a] else 1
  {
    var pool := Pool(candidates, stake);
    assert Distinct(pool);
    var d := After(pool, j, digest);
    AfterPrefix(pool, j, k, digest);
    AfterLeaves(pool, j, digest);
    AfterFair(pool, j, digest);
    var n :| 0 <= n < |candidates| && candidates[n] == a;
    var i := StillThere(pool, d, n);
    DrawFrequency(d, j, digest, i);
    SelectorsDraw(candidates, stake, k, digest, j, a, d);
  }

  lemma SelectorsDraw(candidates: seq<string>, stake: map<string, int>, k: int, digest: nat -> nat, j: nat, a: string, d: Draft)
    requires StakesDefined(candidates, stake, k) && NoDup(candidates) && j < k < |candidates|
    requires d == After(Pool(candidates, stake), j, digest)
    requires Total(d.pool) == WeightLeft(candidates, stake, Select(candidates, stake, k, digest)[..j])
    ensures Selectors(candidates, stake, k, digest, j, a) == Drawing(d, j, digest, a)
  {
    forall x: nat
      ensures x in Selectors(candidates, stake, k, digest, j, a) <==> x in Drawing(d, j, digest, a)
    {
      MemberDrawn(Pool(candidates, stake), k, digest, j, x, a);
    }
  }

  lemma StillThere(pool: seq<Candidate>, d: Draft, n: nat) returns (i: nat)
    requires n < |pool| && pool[n].addr !in d.selected && d.pool == Without(pool, Elems(d.selected))
    ensures i < |d.pool| && d.pool[i] == pool[n]
  {
    WithoutKeeps(pool, Elems(d.selected), pool[n]);
    i :| 0 <= i < |d.pool| && d.pool[i] == pool[n];
  }

  /** Member j is what draw j appends to the earlier ones. */
  lemma MemberDrawn(pool: seq<Candidate>, k: nat, digest: nat -> nat, j: nat, x: nat, a: string)
    requires Positive(pool) && j < k <= |pool|
    ensures After(pool, j, digest).pool != []
    ensures After(pool, k, With(digest, j, x)).selected[j] == a
      <==> DrawStep(After(pool, j, digest), j, With(digest, j, x)).selected == After(pool, j, digest).selected + [a]
  {
    var f := With(digest, j, x);
    AfterPrefix(pool, j + 1, k, f);
    AfterAgrees(pool, j, f, digest);
    AppendsOne(After(pool, j, digest), j, f, a);
    assert After(pool, k, f).selected[j] == After(pool, k, f).selected[..j + 1][j];
  }

  lemma AppendsOne(d: Draft, draw: nat, digest: nat -> nat, a: string)
    requires Positive(d.pool) && d.pool != []
    ensures |DrawStep(d, draw, digest).selected| == |d.selected| + 1
    ensures DrawStep(d, draw, digest).selected[|d.selected|] == a <==> DrawStep(d, draw, digest).selected == d.selected + [a]
  {
    var r := DrawStep(d, draw, digest).selected;
    assert r == d.selected + [r[|d.selected|]];
  }

  /** One draw: the running-sum scan with its last-index default. */
  method PickIndex(pool: seq<Candidate>, pick: nat) returns (picked: nat)
    requires pool != [] && pick < Total(pool)
    ensures picked < |pool| && Hits(pool, pick, picked)
  {
    var running := 0;
    picked := |pool| - 1;
    var i := 0;
    while i < |pool|
      invariant i <= |pool| && running == Prefix(pool, i) && running <= pick
      invariant picked == |pool| - 1
    {
      running := running + pool[i].weight;
      if running > pick {
        picked := i;
        break;
      }
      i := i + 1;
    }
    assert i < |pool| && picked == i;
  }

  method TotalWeight(pool: seq<Candidate>) returns (total: nat)
    ensures total == Total(pool)
  {
    total := 0;
    for i := 0 to |pool|
      invariant total == Prefix(pool, i)
    {
      total := total + pool[i].weight;
    }
  }

  method DrawAll(candidates: seq<Candidate>, k: nat, digest: nat -> nat) returns (selected: seq<string>)
    requires Positive(candidates) && k <= |candidates|
    ensures selected == After(candidates, k, digest).selected
  {
    var pool := candidates;
    selected := [];
    var draw := 0;
    while draw < k && |pool| > 0
      invariant 0 <= draw <= k
      invariant Draft(selected, pool) == After(candidates, draw, digest)
    {
      var total := TotalWeight(pool);
      TotalPositive(pool);
      var pick := Pick(digest, draw, total);
      var picked := PickIndex(pool, pick);
      HitUnique(pool, pick, picked, Locate(pool, pick, |pool|));
      selected := selected + [pool[picked].addr];
      pool := Remove(pool, picked);
      draw := draw + 1;
    }
  }

  /**
   * selectDeterministicWeighted. The final top-up loop of the original is unreachable: the draws
   * alone already fill the panel.
   */
  method SelectDeterministicWeighted(candidates: seq<string>, stake: map<string, int>, k: int, digest: nat -> nat)
    returns (selected: seq<string>)
    requires StakesDefined(candidates, stake, k) && NoDup(candidates)
    ensures selected == Select(candidates, stake, k, digest)
    ensures |selected| == Min(Max(k, 0), |candidates|) && NoDup(selected)
    ensures forall a :: a in selected ==> a in candidates
  {
    SelectDistinct(candidates, stake, k, digest);
    if k <= 0 || |candidates| == 0 { return []; }
    if |candidates| <= k { return SortedStrings(Elems(candidates)); }
    selected := DrawAll(Pool(candidates, stake), k, digest);
    if |selected| < k { assert false; }
  }
}
