// Which verifier relays the drand beacon first (offchain/verifierd/drand.go).
module RelayRank {
  import opened Base
  import opened Arith
  import opened Orders
  import opened Text
  import S = Sampling

  /** An active verifier as listed by the chain; bond is None when the amount does not parse. */
  datatype Relay = Relay(address: string, bond: Option<int>)

  datatype RankError = BadRequest | NoActiveVerifiers | NotActive

  function Weight(bond: Option<int>): (w: nat)
    ensures w >= 1
  {
    if bond.Some? && bond.value > 0 then bond.value else 1
  }

  /** Trimmed address to weight; blank addresses are skipped and the first entry of an address wins. */
  function Roster(active: seq<Relay>): (m: map<string, nat>)
    ensures forall a :: a in m ==> m[a] >= 1 && a != ""
  {
    if active == [] then map[]
    else
      var rest := Roster(active[..|active| - 1]);
      var entry := active[|active| - 1];
      var a := Trim(entry.address);
      if a == "" || a in rest then rest else rest[a := Weight(entry.bond)]
  }

  /** The candidates sorted by address. */
  function Lineup(roster: map<string, nat>, names: seq<string>): (pool: seq<S.Candidate>)
    requires forall i :: 0 <= i < |names| ==> names[i] in roster
    ensures |pool| == |names| && forall i :: 0 <= i < |names| ==> pool[i] == S.Candidate(names[i], roster[names[i]])
  {
    if names == [] then []
    else
      var n := |names| - 1;
      Lineup(roster, names[..n]) + [S.Candidate(names[n], roster[names[n]])]
  }

  function Pool(roster: map<string, nat>): (pool: seq<S.Candidate>)
    ensures |pool| == |roster|
  {
    EnumerationLength(SortedStrings(roster.Keys), roster.Keys);
    Lineup(roster, SortedStrings(roster.Keys))
  }

  ghost predicate Weighty(roster: map<string, nat>) {
    forall a :: a in roster ==> roster[a] >= 1
  }

  lemma PoolPositive(roster: map<string, nat>)
    requires Weighty(roster) && |roster| > 0
    ensures S.Positive(Pool(roster)) && S.Total(Pool(roster)) > 0
  {
    S.TotalPositive(Pool(roster));
  }

  /** The address whose bond interval contains the pick. */
  function Primary(roster: map<string, nat>, hash: nat): (p: string)
    requires Weighty(roster) && |roster| > 0
    ensures p in roster
  {
    PoolPositive(roster);
    var pool := Pool(roster);
    pool[S.Locate(pool, hash % S.Total(pool), |pool|)].addr
  }

  /** Fallbacks are ordered by their hash score, ties by address. */
  function FallbackLe(score: string -> nat): (string, string) -> bool {
    (a, b) => score(a) < score(b) || (score(a) == score(b) && LexLe(a, b))
  }

  lemma FallbackOrder(score: string -> nat)
    ensures TotalOrder(FallbackLe(score))
  {
    LexOrder();
  }

  /** The relay order: the primary, then the fallbacks. */
  function Order(roster: map<string, nat>, hash: nat, score: string -> nat): (order: seq<string>)
    requires Weighty(roster) && |roster| > 0
    ensures Enumerates(order, roster.Keys)
  {
    FallbackOrder(score);
    var primary := Primary(roster, hash);
    [primary] + SortedBy(roster.Keys - {primary}, FallbackLe(score))
  }

  /** rank is the position of verifier in the relay order. */
  ghost predicate IsRank(roster: map<string, nat>, hash: nat, score: string -> nat, verifier: string, rank: int)
    requires Weighty(roster) && |roster| > 0
  {
    0 <= rank < |Order(roster, hash, score)| && Order(roster, hash, score)[rank] == verifier
  }

  /**
   * Ranks map the active verifiers one to one onto 0 .. n - 1: everybody has exactly one rank and every
   * rank exactly one holder, so exactly one verifier is primary.
   */
  lemma RanksAreBijective(roster: map<string, nat>, hash: nat, score: string -> nat)
    requires Weighty(roster) && |roster| > 0
    ensures |Order(roster, hash, score)| == |roster|
    ensures forall v :: v in roster ==> exists r :: IsRank(roster, hash, score, v, r)
    ensures forall v, r, q :: IsRank(roster, hash, score, v, r) && IsRank(roster, hash, score, v, q) ==> r == q
    ensures forall v, w, r :: IsRank(roster, hash, score, v, r) && IsRank(roster, hash, score, w, r) ==> v == w
    ensures forall v, r :: IsRank(roster, hash, score, v, r) ==> v in roster
    ensures forall v :: IsRank(roster, hash, score, v, 0) <==> v == Primary(roster, hash)
  {
    var order := Order(roster, hash, score);
    EnumerationLength(order, roster.Keys);
    forall v | v in roster
      ensures exists r :: IsRank(roster, hash, score, v, r)
    {
      assert v in order;
      var r :| 0 <= r < |order| && order[r] == v;
      assert IsRank(roster, hash, score, v, r);
    }
    forall v, r | IsRank(roster, hash, score, v, r)
      ensures v in roster
    {
      assert v in order;
    }
  }

  // Independence of the order in which the chain lists the verifiers.

  ghost predicate DistinctRelays(active: seq<Relay>) {
    forall i, j :: 0 <= i < j < |active| ==> Trim(active[i].address) != Trim(active[j].address)
  }

  lemma {:induction false} RosterMembers(active: seq<Relay>, a: string)
    requires DistinctRelays(active)
    ensures a in Roster(active) <==> a != "" && exists e :: e in active && Trim(e.address) == a
    ensures forall e :: e in active && Trim(e.address) == a && a != "" ==> a in Roster(active) && Roster(active)[a] == Weight(e.bond)
  {
    if active != [] {
      var n := |active| - 1;
      RosterMembers(active[..n], a);
      assert active == active[..n] + [active[n]];
      if a == Trim(active[n].address) {
        assert forall e :: e in active[..n] ==> Trim(e.address) != a by {
          assert forall i :: 0 <= i < n ==> active[..n][i] == active[i];
        }
      }
    }
  }

  lemma RosterPermuted(xs: seq<Relay>, ys: seq<Relay>)
    requires multiset(xs) == multiset(ys) && DistinctRelays(xs) && DistinctRelays(ys)
    ensures Roster(xs) == Roster(ys)
  {
    assert forall e :: e in xs <==> e in multiset(xs);
    assert forall e :: e in ys <==> e in multiset(ys);
    forall a
      ensures a in Roster(xs) <==> a in Roster(ys)
      ensures a in Roster(xs) ==> Roster(xs)[a] == Roster(ys)[a]
    {
      RosterMembers(xs, a);
      RosterMembers(ys, a);
    }
  }

  /** Every verifier computes the same ranking from any listing of the same verifiers. */
  lemma RankIndependentOfListing(xs: seq<Relay>, ys: seq<Relay>, hash: nat, score: string -> nat, verifier: string, rank: int)
    requires multiset(xs) == multiset(ys) && DistinctRelays(xs) && DistinctRelays(ys)
    requires |Roster(xs)| > 0
    ensures |Roster(ys)| > 0
    ensures IsRank(Roster(xs), hash, score, verifier, rank) <==> IsRank(Roster(ys), hash, score, verifier, rank)
  {
    RosterPermuted(xs, ys);
  }

  // The computation.

  /** drandRelayRank. */
  method DrandRelayRank(round: nat, self: string, active: seq<Relay>, hash: nat, score: string -> nat)
    returns (r: Result<(int, int), RankError>)
    ensures round == 0 || Trim(self) == "" ==> r == Err(BadRequest)
    ensures round != 0 && Trim(self) != "" && |Roster(active)| == 0 ==> r == Err(NoActiveVerifiers)
    ensures round != 0 && Trim(self) != "" && |Roster(active)| > 0 && Trim(self) !in Roster(active) ==> r == Err(NotActive)
    ensures round != 0 && Trim(self) in Roster(active) ==>
      r.Ok? && IsRank(Roster(active), hash, score, Trim(self), r.value.0) && r.value.1 == |Roster(active)|
  {
    var verifier := Trim(self);
    if round == 0 || verifier == "" { return Err(BadRequest); }
    var roster := BuildRoster(active);
    if |roster| == 0 { return Err(NoActiveVerifiers); }
    if verifier !in roster { return Err(NotActive); }
    var rank := RankOf(roster, hash, score, verifier);
    r := Ok((rank, |roster|));
  }

  /** Rank 0 for the primary, otherwise one more than the position among the sorted fallbacks. */
  method RankOf(roster: map<string, nat>, hash: nat, score: string -> nat, verifier: string) returns (rank: int)
    requires Weighty(roster) && |roster| > 0 && verifier in roster
    ensures IsRank(roster, hash, score, verifier, rank)
  {
    var primary := FindPrimary(roster, hash);
    if primary == verifier { return 0; }
    FallbackOrder(score);
    var fallbacks := SortedBy(roster.Keys - {primary}, FallbackLe(score));
    assert verifier in fallbacks;
    var i := IndexOf(fallbacks, verifier);
    FallbackRank(roster, hash, score, i);
    rank := i + 1;
  }

  lemma FallbackRank(roster: map<string, nat>, hash: nat, score: string -> nat, i: nat)
    requires Weighty(roster) && |roster| > 0 && TotalOrder(FallbackLe(score))
    requires i < |SortedBy(roster.Keys - {Primary(roster, hash)}, FallbackLe(score))|
    ensures IsRank(roster, hash, score, SortedBy(roster.Keys - {Primary(roster, hash)}, FallbackLe(score))[i], i + 1)
  {
  }

  method IndexOf(names: seq<string>, name: string) returns (i: nat)
    requires name in names
    ensures i < |names| && names[i] == name
  {
    i := 0;
    while names[i] != name
      invariant i < |names| && name !in names[..i]
      decreases |names| - i
    {
      i := i + 1;
    }
  }

  method BuildRoster(active: seq<Relay>) returns (roster: map<string, nat>)
    ensures roster == Roster(active)
  {
    roster := map[];
    for i := 0 to |active|
      invariant roster == Roster(active[..i])
    {
      assert active[..i + 1][..i] == active[..i];
      var address := Trim(active[i].address);
      if address != "" && address !in roster {
        roster := roster[address := Weight(active[i].bond)];
      }
    }
    assert active[..|active|] == active;
  }

  method FindPrimary(roster: map<string, nat>, hash: nat) returns (primary: string)
    requires Weighty(roster) && |roster| > 0
    ensures primary == Primary(roster, hash)
  {
    PoolPositive(roster);
    var pool := Pool(roster);
    var total := S.TotalWeight(pool);
    var pick := hash % total;
    var i := S.PickIndex(pool, pick);
    S.HitUnique(pool, pick, i, S.Locate(pool, pick, |pool|));
    primary := pool[i].addr;
  }

  // Ranks in terms of hashes.

  lemma PoolDistinct(roster: map<string, nat>)
    ensures S.Distinct(Pool(roster))
    ensures forall a :: a in roster ==> exists i :: 0 <= i < |roster| && Pool(roster)[i] == S.Candidate(a, roster[a])
  {
    var names := SortedStrings(roster.Keys);
    forall a | a in roster
      ensures exists i :: 0 <= i < |roster| && Pool(roster)[i] == S.Candidate(a, roster[a])
    {
      assert a in names;
      var i :| 0 <= i < |names| && names[i] == a;
      assert Pool(roster)[i] == S.Candidate(a, roster[a]);
    }
  }

  /** The hash values below the total bond for which a is the primary. */
  ghost function PrimaryFor(roster: map<string, nat>, a: string): set<nat>
    requires Weighty(roster) && |roster| > 0
  {
    set h: nat | h < S.Total(Pool(roster)) && Primary(roster, h) == a
  }

  /**
   * The primary is drawn in proportion to the bonds: of the hash values below their sum exactly roster[a] make a the
   * primary, and every other hash counts by its remainder modulo that sum.
   */
  lemma PrimaryFrequency(roster: map<string, nat>, a: string, hash: nat)
    requires Weighty(roster) && a in roster
    ensures |roster| > 0 && S.Total(Pool(roster)) > 0
    ensures |PrimaryFor(roster, a)| == roster[a]
    ensures Primary(roster, hash) == Primary(roster, hash % S.Total(Pool(roster)))
  {
    assert roster.Keys != {};
    PoolPositive(roster);
    PoolDistinct(roster);
    var i: nat :| i < |roster| && Pool(roster)[i] == S.Candidate(a, roster[a]);
    S.SelectionFrequency(Pool(roster), i);
    PrimaryForIs(roster, i);
    PrimaryPeriodic(roster, hash);
  }

  lemma PrimaryPeriodic(roster: map<string, nat>, hash: nat)
    requires Weighty(roster) && |roster| > 0 && S.Total(Pool(roster)) > 0
    ensures Primary(roster, hash) == Primary(roster, hash % S.Total(Pool(roster)))
  {
    var total := S.Total(Pool(roster));
    ModTwice(hash, total);
  }

  lemma ModTwice(x: nat, d: nat)
    requires d > 0
    ensures x % d % d == x % d
  {
  }

  lemma PrimaryForIs(roster: map<string, nat>, i: nat)
    requires Weighty(roster) && i < |roster| && S.Distinct(Pool(roster))
    ensures PrimaryFor(roster, Pool(roster)[i].addr) == S.Selecting(Pool(roster), i)
  {
    forall h: nat
      ensures h in PrimaryFor(roster, Pool(roster)[i].addr) <==> h in S.Selecting(Pool(roster), i)
    {
      if h < S.Total(Pool(roster)) { PrimaryIs(roster, h, i); }
    }
  }

  lemma PrimaryIs(roster: map<string, nat>, h: nat, i: nat)
    requires Weighty(roster) && |roster| > 0 && S.Distinct(Pool(roster)) && i < |Pool(roster)| && h < S.Total(Pool(roster))
    ensures Primary(roster, h) == Pool(roster)[i].addr <==> S.Locate(Pool(roster), h, |Pool(roster)|) == i
  {
    var pool := Pool(roster);
    assert h % S.Total(pool) == h;
    var j := S.Locate(pool, h, |pool|);
    if j < i { assert pool[j].addr != pool[i].addr; }
    if i < j { assert pool[i].addr != pool[j].addr; }
  }

  /** The elements of a sorted enumeration that come before its i-th are exactly those that precede it. */
  lemma {:induction false} SortedPosition(xs: seq<string>, le: (string, string) -> bool, i: nat)
    requires TotalOrder(le) && NoDup(xs) && Ascending(xs, le) && i < |xs|
    ensures |set w | w in xs && w != xs[i] && le(w, xs[i])| == i
  {
    var before := Elems(xs[..i]);
    forall w
      ensures w in before <==> w in xs && w != xs[i] && le(w, xs[i])
    {
      if w in xs {
        var j :| 0 <= j < |xs| && xs[j] == w;
        if j < i { assert xs[..i][j] == w && le(xs[j], xs[i]); }
        if i < j { assert le(xs[i], xs[j]); }
      }
    }
    assert before == set w | w in xs && w != xs[i] && le(w, xs[i]);
    PrefixSize(xs, i);
  }

  lemma PrefixSize(xs: seq<string>, i: nat)
    requires NoDup(xs) && i <= |xs|
    ensures |Elems(xs[..i])| == i
  {
    EnumerationLength(xs[..i], Elems(xs[..i]));
  }

  /** w comes before v among the fallbacks: a lower score, or the same score and an address that is not larger. */
  predicate Before(score: string -> nat, w: string, v: string) {
    w != v && (score(w) < score(v) || (score(w) == score(v) && LexLe(w, v)))
  }

  /** How many of the other verifiers than the primary come before v. */
  ghost function CountBefore(roster: map<string, nat>, primary: string, score: string -> nat, v: string): nat {
    |set w | w in roster && w != primary && Before(score, w, v)|
  }

  lemma PositionCounts(roster: map<string, nat>, primary: string, score: string -> nat, i: nat, fallbacks: seq<string>, v: string)
    requires TotalOrder(FallbackLe(score)) && fallbacks == SortedBy(roster.Keys - {primary}, FallbackLe(score))
    requires i < |fallbacks| && fallbacks[i] == v
    ensures CountBefore(roster, primary, score, v) == i
  {
    SortedPosition(fallbacks, FallbackLe(score), i);
    FallbacksBefore(roster, primary, score, v, fallbacks);
  }

  /** The rank of a fallback is one more than the number of fallbacks before it; the primary has rank 0. */
  lemma RankCounts(roster: map<string, nat>, hash: nat, score: string -> nat, v: string, rank: int)
    requires Weighty(roster) && |roster| > 0 && IsRank(roster, hash, score, v, rank)
    ensures rank == if v == Primary(roster, hash) then 0 else 1 + CountBefore(roster, Primary(roster, hash), score, v)
  {
    FallbackOrder(score);
    if rank > 0 {
      var fallbacks := SortedBy(roster.Keys - {Primary(roster, hash)}, FallbackLe(score));
      FallbackAt(roster, hash, score, rank, fallbacks);
      PositionCounts(roster, Primary(roster, hash), score, rank - 1, fallbacks, v);
    } else {
      FirstIsPrimary(roster, hash, score);
    }
  }

  lemma FirstIsPrimary(roster: map<string, nat>, hash: nat, score: string -> nat)
    requires Weighty(roster) && |roster| > 0
    ensures |Order(roster, hash, score)| > 0 && Order(roster, hash, score)[0] == Primary(roster, hash)
  {
  }

  lemma FallbackAt(roster: map<string, nat>, hash: nat, score: string -> nat, rank: int, fallbacks: seq<string>)
    requires Weighty(roster) && |roster| > 0 && TotalOrder(FallbackLe(score))
    requires fallbacks == SortedBy(roster.Keys - {Primary(roster, hash)}, FallbackLe(score))
    requires 0 < rank < |Order(roster, hash, score)|
    ensures rank - 1 < |fallbacks| && Order(roster, hash, score)[rank] == fallbacks[rank - 1]
    ensures fallbacks[rank - 1] != Primary(roster, hash)
  {
    assert fallbacks[rank - 1] in fallbacks;
  }

  lemma FallbacksBefore(roster: map<string, nat>, primary: string, score: string -> nat, v: string, fallbacks: seq<string>)
    requires Enumerates(fallbacks, roster.Keys - {primary})
    ensures (set w | w in roster && w != primary && Before(score, w, v))
         == (set w | w in fallbacks && w != v && FallbackLe(score)(w, v))
  {
  }

  /** A trimmed, non-blank address is on the roster with the bond of its first entry, or 1 without a positive bond. */
  lemma {:induction false} RosterFirst(active: seq<Relay>, i: nat)
    requires i < |active| && Trim(active[i].address) != ""
    requires forall j :: 0 <= j < i ==> Trim(active[j].address) != Trim(active[i].address)
    ensures var a, bond := Trim(active[i].address), active[i].bond;
      a in Roster(active) && Roster(active)[a] == if bond.Some? && bond.value > 0 then bond.value else 1
  {
    var n := |active| - 1;
    if i < n {
      RosterFirst(active[..n], i);
    } else {
      RosterOnly(active[..n], Trim(active[i].address));
    }
  }

  lemma {:induction false} RosterOnly(active: seq<Relay>, a: string)
    ensures a in Roster(active) ==> exists j :: 0 <= j < |active| && Trim(active[j].address) == a
  {
    if active != [] {
      var n := |active| - 1;
      RosterOnly(active[..n], a);
      if a in Roster(active[..n]) {
        var j :| 0 <= j < n && Trim(active[..n][j].address) == a;
        assert Trim(active[j].address) == a;
      }
    }
  }

  // Staggered delays.

  /** drandRelayDelaySeconds; the product is an int64 in Go. */
  function DelaySeconds(rank: int, stagger: int, maxDelay: int): int {
    if rank <= 0 || stagger <= 0 then 0
    else
      var delay := Wrap64(rank * stagger);
      if maxDelay > 0 && delay > maxDelay then maxDelay else delay
  }

  /** The delay without any int64 limit. */
  function IdealDelay(rank: nat, stagger: int, maxDelay: int): int {
    if stagger <= 0 then 0
    else if maxDelay > 0 && rank * stagger > maxDelay then maxDelay
    else rank * stagger
  }

  /** As long as the product fits an int64 the delay is rank times stagger, cut off at the cap. */
  lemma DelayExact(rank: nat, stagger: int, maxDelay: int)
    requires rank * stagger <= MAX_INT64
    ensures DelaySeconds(rank, stagger, maxDelay) == IdealDelay(rank, stagger, maxDelay)
  {
    if stagger > 0 { MulMono(0, rank, stagger); }
  }

  /** Up to rank n the delays start at zero, never decrease with the rank, and respect the cap. */
  ghost predicate Staggered(n: nat, stagger: int, maxDelay: int) {
    forall a: nat, b: nat :: a <= b <= n ==>
      && 0 <= DelaySeconds(a, stagger, maxDelay) <= DelaySeconds(b, stagger, maxDelay)
      && (maxDelay > 0 ==> DelaySeconds(b, stagger, maxDelay) <= maxDelay)
  }

  lemma StaggeredPair(a: nat, b: nat, n: nat, stagger: int, maxDelay: int)
    requires a <= b <= n && (stagger <= 0 || n * stagger <= MAX_INT64)
    ensures 0 <= DelaySeconds(a, stagger, maxDelay) <= DelaySeconds(b, stagger, maxDelay)
    ensures maxDelay > 0 ==> DelaySeconds(b, stagger, maxDelay) <= maxDelay
  {
    if stagger > 0 {
      MulMono(0, a, stagger);
      MulMono(a, b, stagger);
      MulMono(b, n, stagger);
      DelayExact(a, stagger, maxDelay);
      DelayExact(b, stagger, maxDelay);
    }
  }

  /** The first rank whose product does not fit waits a negative time, whatever the cap. */
  lemma FirstOverflow(stagger: int, maxDelay: int) returns (k: nat)
    requires 0 < stagger <= MAX_INT64
    ensures k == MAX_INT64 / stagger + 1 && k * stagger > MAX_INT64
    ensures DelaySeconds(k, stagger, maxDelay) < 0
  {
    FloorBounds(MAX_INT64, stagger);
    FloorMono(0, MAX_INT64, stagger);
    k := MAX_INT64 / stagger + 1;
    Distribute(MAX_INT64 / stagger, 1, stagger);
    WrapNegative(k * stagger);
  }

  lemma WrapNegative(x: int)
    requires MAX_INT64 < x <= 2 * MAX_INT64
    ensures Wrap64(x) == x - TWO_64 && Wrap64(x) < 0
  {
  }

  /** The delays of ranks 0 .. n are staggered if and only if n times the stagger fits an int64. */
  lemma StaggeredIff(n: nat, stagger: int, maxDelay: int)
    requires stagger <= MAX_INT64
    ensures Staggered(n, stagger, maxDelay) <==> stagger <= 0 || n * stagger <= MAX_INT64
  {
    if stagger <= 0 || n * stagger <= MAX_INT64 {
      forall a: nat, b: nat | a <= b <= n
        ensures 0 <= DelaySeconds(a, stagger, maxDelay) <= DelaySeconds(b, stagger, maxDelay)
        ensures maxDelay > 0 ==> DelaySeconds(b, stagger, maxDelay) <= maxDelay
      {
        StaggeredPair(a, b, n, stagger, maxDelay);
      }
    } else {
      var k := FirstOverflow(stagger, maxDelay);
      FloorBounds(MAX_INT64, stagger);
      if n < k { MulMono(n, k - 1, stagger); }
      assert k <= k <= n;
    }
  }

  /** The configuration accepts a stagger for which the second fallback waits a negative time. */
  lemma HugeStaggerMisorders()
    ensures DelaySeconds(1, MAX_INT64, MAX_INT64) == MAX_INT64 && DelaySeconds(2, MAX_INT64, MAX_INT64) == -2
  {
  }
}
