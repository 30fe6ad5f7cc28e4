// Quorum, plurality hash and median of a round's reveals (x/registry/similar_settlement.go).
module Tally {
  import opened Base
  import opened Orders
  import opened Counting

  /** A revealed result (x/registry/verification.go, PublisherVerificationSubmission). */
  datatype Submission = Submission(
    verifier: string,
    passed: bool,
    at: int,
    observed: int,
    matched: int,
    expected: int,
    expectedHash: string,
    observedHash: string)

  datatype Stats = Stats(
    majorityHash: string,
    passes: nat,
    fails: nat,
    quorum: nat,
    verifiedSimilar: int)

  const SIMILAR_TOP_N := 15

  function RequiredQuorum(panel: int): nat {
    if panel <= 0 then 0 else (panel + 1) / 2
  }

  function Clamp(x: int): (r: int)
    ensures 0 <= r <= SIMILAR_TOP_N
  {
    if x < 0 then 0 else if x > SIMILAR_TOP_N then SIMILAR_TOP_N else x
  }

  // Vocabulary of the specification: everything is a count, so order cannot matter.

  function Passing(): Submission -> bool {
    (s: Submission) => s.passed
  }

  function Backing(h: string): Submission -> bool {
    (s: Submission) => s.passed && s.expectedHash == h
  }

  function BackingAtMost(h: string, m: int): Submission -> bool {
    (s: Submission) => s.passed && s.expectedHash == h && s.matched <= m
  }

  function AtMost(m: int): int -> bool {
    (x: int) => x <= m
  }

  function Passes(subs: seq<Submission>): nat {
    Count(subs, Passing())
  }

  /** Passing submissions that expect the set h. */
  function VotesFor(subs: seq<Submission>, h: string): nat {
    Count(subs, Backing(h))
  }

  /** m is the matched count of 0-based rank n / 2 among the n submissions backing h. */
  ghost predicate IsMedian(subs: seq<Submission>, h: string, m: int) {
    Count(subs, BackingAtMost(h, m - 1)) <= VotesFor(subs, h) / 2 < Count(subs, BackingAtMost(h, m))
  }

  predicate Precedes(subs: seq<Submission>, h: string, g: string) {
    VotesFor(subs, g) < VotesFor(subs, h) || (VotesFor(subs, g) == VotesFor(subs, h) && LexLe(h, g))
  }

  /** h is the least of the most-backed non-empty hashes and reaches the quorum; "" when none does. */
  ghost predicate IsMajorityHash(subs: seq<Submission>, quorum: nat, h: string) {
    if h == "" then
      forall g :: g != "" && VotesFor(subs, g) > 0 ==> VotesFor(subs, g) < quorum
    else
      && VotesFor(subs, h) > 0
      && VotesFor(subs, h) >= quorum
      && forall g :: g != "" ==>
           VotesFor(subs, g) < VotesFor(subs, h) || (VotesFor(subs, g) == VotesFor(subs, h) && LexLe(h, g))
  }

  /** The median, cut off at 0 and at 15; 0 without a majority hash. */
  ghost predicate IsVerifiedSimilar(subs: seq<Submission>, h: string, v: int) {
    if h == "" then v == 0 else exists m :: IsMedian(subs, h, m) && v == Max(0, Min(m, 15))
  }

  /** q is the least number that is at least half of the panel. */
  predicate IsQuorum(panel: int, q: nat) {
    if panel <= 0 then q == 0 else panel <= 2 * q && 2 * (q - 1) < panel
  }

  /** Order-free specification of the round statistics. */
  ghost predicate TallySpec(panel: int, subs: seq<Submission>, st: Stats) {
    && IsQuorum(panel, st.quorum)
    && st.passes == Passes(subs)
    && st.passes + st.fails == |subs|
    && IsMajorityHash(subs, st.quorum, st.majorityHash)
    && IsVerifiedSimilar(subs, st.majorityHash, st.verifiedSimilar)
  }

  // The specification has one solution, the same for every order of the reveals.

  lemma MedianUnique(subs: seq<Submission>, h: string, a: int, b: int)
    requires IsMedian(subs, h, a) && IsMedian(subs, h, b)
    ensures a == b
  {
    if a < b { CountImplies(subs, BackingAtMost(h, a), BackingAtMost(h, b - 1)); }
    if b < a { CountImplies(subs, BackingAtMost(h, b), BackingAtMost(h, a - 1)); }
  }

  lemma MajorityHashUnique(subs: seq<Submission>, quorum: nat, a: string, b: string)
    requires IsMajorityHash(subs, quorum, a) && IsMajorityHash(subs, quorum, b)
    ensures a == b
  {
    if a != "" && b != "" {
      assert VotesFor(subs, a) == VotesFor(subs, b);
      LexAntisym(a, b);
    }
  }

  lemma MajorityHashPermuted(xs: seq<Submission>, ys: seq<Submission>, quorum: nat, h: string)
    requires multiset(xs) == multiset(ys) && IsMajorityHash(ys, quorum, h)
    ensures IsMajorityHash(xs, quorum, h)
  {
    forall g
      ensures VotesFor(xs, g) == VotesFor(ys, g)
    {
      CountPermuted(xs, ys, Backing(g));
    }
  }

  lemma MedianPermuted(xs: seq<Submission>, ys: seq<Submission>, h: string, m: int)
    requires multiset(xs) == multiset(ys) && IsMedian(ys, h, m)
    ensures IsMedian(xs, h, m)
  {
    CountPermuted(xs, ys, Backing(h));
    CountPermuted(xs, ys, BackingAtMost(h, m));
    CountPermuted(xs, ys, BackingAtMost(h, m - 1));
  }

  /** Any two results allowed for permuted reveals are equal. */
  lemma TallyPermutationInvariant(panel: int, xs: seq<Submission>, ys: seq<Submission>, s: Stats, t: Stats)
    requires multiset(xs) == multiset(ys)
    requires TallySpec(panel, xs, s) && TallySpec(panel, ys, t)
    ensures s == t
  {
    assert |xs| == |multiset(xs)| == |multiset(ys)| == |ys|;
    CountPermuted(xs, ys, Passing());
    MajorityHashPermuted(xs, ys, t.quorum, t.majorityHash);
    MajorityHashUnique(xs, s.quorum, s.majorityHash, t.majorityHash);
    var h := s.majorityHash;
    if h != "" {
      var m :| IsMedian(xs, h, m) && s.verifiedSimilar == Max(0, Min(m, 15));
      var n :| IsMedian(ys, h, n) && t.verifiedSimilar == Max(0, Min(n, 15));
      MedianPermuted(xs, ys, h, n);
      MedianUnique(xs, h, m, n);
    }
  }

  /**
   * A majority of the agreeing passes bounds the verified count, and the majority hash itself is
   * backed by at least a quorum of passes.
   */
  lemma VerifiedSimilarRobust(panel: int, subs: seq<Submission>, st: Stats, lo: int, hi: int)
    requires TallySpec(panel, subs, st) && st.majorityHash != ""
    requires
      var inside := Count(subs, BackingAtMost(st.majorityHash, hi)) - Count(subs, BackingAtMost(st.majorityHash, lo - 1));
      2 * inside > VotesFor(subs, st.majorityHash)
    ensures Max(0, Min(lo, 15)) <= st.verifiedSimilar <= Max(0, Min(hi, 15))
    ensures st.quorum <= VotesFor(subs, st.majorityHash) <= st.passes
  {
    var h := st.majorityHash;
    var m :| IsMedian(subs, h, m) && st.verifiedSimilar == Max(0, Min(m, 15));
    CountImplies(subs, Backing(h), Passing());
    CountImplies(subs, BackingAtMost(h, hi), Backing(h));
    if m > hi { CountImplies(subs, BackingAtMost(h, hi), BackingAtMost(h, m - 1)); }
    if m < lo { CountImplies(subs, BackingAtMost(h, m), BackingAtMost(h, lo - 1)); }
  }

  // The median by sorting.

  /** Matched counts of the submissions backing h, in order. */
  function Agreeing(subs: seq<Submission>, h: string): seq<int> {
    if subs == [] then []
    else
      var last := subs[|subs| - 1];
      Agreeing(subs[..|subs| - 1], h) + (if Backing(h)(last) then [last.matched] else [])
  }

  lemma {:induction false} AgreeingCounts(subs: seq<Submission>, h: string, m: int)
    ensures |Agreeing(subs, h)| == VotesFor(subs, h)
    ensures Count(Agreeing(subs, h), AtMost(m)) == Count(subs, BackingAtMost(h, m))
  {
    if subs != [] {
      var n := |subs| - 1;
      AgreeingCounts(subs[..n], h, m);
      CountAppend(Agreeing(subs[..n], h), subs[n].matched, AtMost(m));
      if !Backing(h)(subs[n]) { assert Agreeing(subs, h) == Agreeing(subs[..n], h); }
    }
  }

  function Insert(x: int, xs: seq<int>): (r: seq<int>)
    ensures multiset(r) == multiset(xs) + multiset{x}
  {
    if xs == [] || x <= xs[0] then [x] + xs
    else
      assert xs == [xs[0]] + xs[1..];
      [xs[0]] + Insert(x, xs[1..])
  }

  lemma {:induction false} InsertAscending(x: int, xs: seq<int>)
    requires Ascending(xs, IntLe)
    ensures Ascending(Insert(x, xs), IntLe)
  {
    if xs == [] || x <= xs[0] {
      assert forall j :: 0 < j < |xs| ==> IntLe(xs[0], xs[j]);
    } else {
      var rest := Insert(x, xs[1..]);
      InsertAscending(x, xs[1..]);
      forall j | 0 <= j < |rest|
        ensures xs[0] <= rest[j]
      {
        assert rest[j] in multiset(rest);
        assert rest[j] in multiset(xs[1..]) + multiset{x};
        if rest[j] != x {
          var i :| 0 <= i < |xs[1..]| && xs[1..][i] == rest[j];
          assert IntLe(xs[0], xs[i + 1]);
        }
      }
    }
  }

  function SortInts(xs: seq<int>): (r: seq<int>)
    ensures Ascending(r, IntLe)
    ensures multiset(r) == multiset(xs)
  {
    if xs == [] then []
    else
      var rest := SortInts(xs[..|xs| - 1]);
      InsertAscending(xs[|xs| - 1], rest);
      assert xs == xs[..|xs| - 1] + [xs[|xs| - 1]];
      Insert(xs[|xs| - 1], rest)
  }

  lemma SortedRank(sorted: seq<int>, k: nat)
    requires Ascending(sorted, IntLe) && k < |sorted|
    ensures Count(sorted, AtMost(sorted[k] - 1)) <= k < Count(sorted, AtMost(sorted[k]))
  {
    var m := sorted[k];
    CountSplit(sorted, k, AtMost(m - 1));
    forall i | 0 <= i < |sorted[k..]|
      ensures m <= sorted[k..][i]
    {
      if i > 0 { assert IntLe(sorted[k], sorted[k + i]); }
    }
    CountNone(sorted[k..], AtMost(m - 1));
    CountBound(sorted[..k], AtMost(m - 1));
    CountSplit(sorted, k + 1, AtMost(m));
    var low := sorted[..k + 1];
    forall i | 0 <= i < |low|
      ensures low[i] <= m
    {
      if i < k { assert IntLe(sorted[i], sorted[k]); }
    }
    CountAll(sorted[..k + 1], AtMost(m));
  }

  /** The middle element of the sorted reports is the counting median. */
  lemma SortedMiddleIsMedian(subs: seq<Submission>, h: string, sorted: seq<int>)
    requires VotesFor(subs, h) > 0
    requires Ascending(sorted, IntLe) && multiset(sorted) == multiset(Agreeing(subs, h))
    ensures |sorted| == VotesFor(subs, h)
    ensures IsMedian(subs, h, sorted[|sorted| / 2])
  {
    AgreeingCounts(subs, h, 0);
    PermutationLength(sorted, Agreeing(subs, h));
    MiddleRank(subs, h, sorted, |sorted| / 2);
  }

  lemma MiddleRank(subs: seq<Submission>, h: string, sorted: seq<int>, k: nat)
    requires k < |sorted| && Ascending(sorted, IntLe) && multiset(sorted) == multiset(Agreeing(subs, h))
    ensures Count(subs, BackingAtMost(h, sorted[k] - 1)) <= k < Count(subs, BackingAtMost(h, sorted[k]))
  {
    SortedRank(sorted, k);
    RankTransfers(subs, h, sorted, sorted[k]);
    RankTransfers(subs, h, sorted, sorted[k] - 1);
  }

  lemma PermutationLength(xs: seq<int>, ys: seq<int>)
    requires multiset(xs) == multiset(ys)
    ensures |xs| == |ys|
  {
    assert |xs| == |multiset(xs)| == |multiset(ys)| == |ys|;
  }

  lemma RankTransfers(subs: seq<Submission>, h: string, sorted: seq<int>, m: int)
    requires multiset(sorted) == multiset(Agreeing(subs, h))
    ensures Count(sorted, AtMost(m)) == Count(subs, BackingAtMost(h, m))
  {
    AgreeingCounts(subs, h, m);
    CountPermuted(sorted, Agreeing(subs, h), AtMost(m));
  }

  // The loops.

  /** computeSimilarRoundStats; the hash-count map is visited in an arbitrary order. */
  method ComputeSimilarRoundStats(panel: int, subs: seq<Submission>) returns (st: Stats)
    ensures TallySpec(panel, subs, st)
  {
    var quorum := RequiredQuorum(panel);
    var passes, fails := CountVerdicts(subs);
    var counts := CountHashes(subs);
    var best := PickBest(subs, counts, quorum);
    var similar := MedianMatched(subs, best);
    st := Stats(best, passes, fails, quorum, similar);
  }

  method CountVerdicts(subs: seq<Submission>) returns (passes: nat, fails: nat)
    ensures passes == Passes(subs) && passes + fails == |subs|
  {
    passes, fails := 0, 0;
    for i := 0 to |subs|
      invariant passes == Passes(subs[..i]) && passes + fails == i
    {
      assert subs[..i + 1][..i] == subs[..i];
      if subs[i].passed { passes := passes + 1; } else { fails := fails + 1; }
    }
    assert subs[..|subs|] == subs;
  }

  method MedianMatched(subs: seq<Submission>, best: string) returns (similar: int)
    requires best != "" ==> VotesFor(subs, best) > 0
    ensures IsVerifiedSimilar(subs, best, similar)
  {
    var matched: seq<int> := [];
    for i := 0 to |subs|
      invariant matched == if best == "" then [] else Agreeing(subs[..i], best)
    {
      assert subs[..i + 1][..i] == subs[..i];
      if subs[i].passed && best != "" && subs[i].expectedHash == best {
        matched := matched + [subs[i].matched];
      }
    }
    assert subs[..|subs|] == subs;
    if best != "" { AgreeingCounts(subs, best, 0); }
    if |matched| == 0 { return 0; }
    var sorted := SortInts(matched);
    SortedMiddleIsMedian(subs, best, sorted);
    similar := Clamp(sorted[|sorted| / 2]);
  }

  method CountHashes(subs: seq<Submission>) returns (counts: map<string, nat>)
    ensures forall h :: h in counts <==> h != "" && VotesFor(subs, h) > 0
    ensures forall h :: h in counts ==> counts[h] == VotesFor(subs, h)
  {
    counts := map[];
    for i := 0 to |subs|
      invariant forall h :: h in counts <==> h != "" && VotesFor(subs[..i], h) > 0
      invariant forall h :: h in counts ==> counts[h] == VotesFor(subs[..i], h)
    {
      assert subs[..i + 1][..i] == subs[..i];
      var s := subs[i];
      assert forall h :: VotesFor(subs[..i + 1], h) == VotesFor(subs[..i], h) + (if Backing(h)(s) then 1 else 0);
      if s.passed && s.expectedHash != "" {
        var before := if s.expectedHash in counts then counts[s.expectedHash] else 0;
        counts := counts[s.expectedHash := before + 1];
      }
    }
    assert subs[..|subs|] == subs;
  }

  method PickBest(subs: seq<Submission>, counts: map<string, nat>, quorum: nat) returns (best: string)
    requires forall h :: h in counts <==> h != "" && VotesFor(subs, h) > 0
    requires forall h :: h in counts ==> counts[h] == VotesFor(subs, h)
    ensures IsMajorityHash(subs, quorum, best)
  {
    LexOrder();
    best := "";
    var bestCount := 0;
    var rest := counts.Keys;
    while rest != {}
      invariant rest <= counts.Keys
      invariant best == "" ==> bestCount == 0
      invariant best != "" ==> best in counts && bestCount == counts[best]
      invariant forall g :: g in counts && g !in rest ==> best != "" && Precedes(subs, best, g)
      decreases rest
    {
      var h :| h in rest;
      var c := counts[h];
      if c > bestCount || (c == bestCount && LexLe(h, best) && h != best) {
        best, bestCount := h, c;
      }
      rest := rest - {h};
    }
    if bestCount < quorum { best := ""; }
  }

  // The same statistics as a value, for the steps of the protocol.

  /** Most-backed hash among the first k submissions, "" when none of them backs one. */
  function BestHash(subs: seq<Submission>, k: nat): string
    requires k <= |subs|
  {
    if k == 0 then ""
    else
      var best := BestHash(subs, k - 1);
      var s := subs[k - 1];
      if s.passed && s.expectedHash != "" && (best == "" || Precedes(subs, s.expectedHash, best)) then s.expectedHash
      else best
  }

  ghost predicate BestSoFar(subs: seq<Submission>, k: nat, h: string)
    requires k <= |subs|
  {
    && (h != "" ==> VotesFor(subs, h) > 0)
    && forall i :: 0 <= i < k && subs[i].passed && subs[i].expectedHash != "" ==>
                     h != "" && Precedes(subs, h, subs[i].expectedHash)
  }

  lemma {:induction false} BestHashIsBest(subs: seq<Submission>, k: nat)
    requires k <= |subs|
    ensures BestSoFar(subs, k, BestHash(subs, k))
  {
    if k > 0 {
      BestHashIsBest(subs, k - 1);
      LexOrder();
      var s := subs[k - 1];
      if s.passed && s.expectedHash != "" { CountMember(subs, k - 1, Backing(s.expectedHash)); }
    }
  }

  function Compute(panel: int, subs: seq<Submission>): (st: Stats)
    ensures IsQuorum(panel, st.quorum) && st.passes == Passes(subs) && st.passes + st.fails == |subs|
    ensures 0 <= st.verifiedSimilar <= SIMILAR_TOP_N
  {
    var quorum := RequiredQuorum(panel);
    var best := BestHash(subs, |subs|);
    var hash := if VotesFor(subs, best) < quorum then "" else best;
    var matched := SortInts(Agreeing(subs, hash));
    CountBound(subs, Passing());
    Stats(
      hash,
      Passes(subs),
      |subs| - Passes(subs),
      quorum,
      if hash == "" || |matched| == 0 then 0 else Clamp(matched[|matched| / 2]))
  }

  lemma ComputeMeetsSpec(panel: int, subs: seq<Submission>)
    ensures TallySpec(panel, subs, Compute(panel, subs))
  {
    var st := Compute(panel, subs);
    var best := BestHash(subs, |subs|);
    BestHashIsBest(subs, |subs|);
    forall g | g != "" && VotesFor(subs, g) > 0
      ensures best != "" && Precedes(subs, best, g)
    {
      CountWitness(subs, Backing(g));
      var i :| 0 <= i < |subs| && Backing(g)(subs[i]);
      assert subs[i].passed && subs[i].expectedHash != "";
    }
    if st.majorityHash != "" {
      SortedMiddleIsMedian(subs, st.majorityHash, SortInts(Agreeing(subs, st.majorityHash)));
    }
  }

  /** What the loops return, over every order of the reveals and of the map, is Compute. */
  lemma LoopsComputeTheSame(panel: int, xs: seq<Submission>, ys: seq<Submission>, st: Stats)
    requires multiset(xs) == multiset(ys) && TallySpec(panel, xs, st)
    ensures st == Compute(panel, ys)
  {
    ComputeMeetsSpec(panel, ys);
    TallyPermutationInvariant(panel, xs, ys, st, Compute(panel, ys));
  }
}
