// Sums over finite maps and sequences.
module Sums {

  ghost function AnyKey<K>(m: map<K, int>): (k: K)
    requires m.Keys != {}
    ensures k in m
  {
    var k :| k in m.Keys;
    k
  }

  ghost function SumMap<K>(m: map<K, int>): int
    decreases m.Keys
  {
    if m.Keys == {} then 0
    else
      var k := AnyKey(m);
      m[k] + SumMap(m - {k})
  }

  /** Any key may be taken out first. */
  lemma {:induction false} SumMapRemove<K>(m: map<K, int>, k: K)
    requires k in m
    ensures SumMap(m) == m[k] + SumMap(m - {k})
    decreases m.Keys
  {
    var p := AnyKey(m);
    if p != k {
      SumMapRemove(m - {p}, k);
      SumMapRemove(m - {k}, p);
      assert m - {p} - {k} == m - {k} - {p};
    }
  }

  /** Writing one entry moves the sum by the difference. */
  lemma SumMapUpdate<K>(m: map<K, int>, k: K, v: int)
    ensures SumMap(m[k := v]) == SumMap(m) + v - (if k in m then m[k] else 0)
  {
    SumMapRemove(m[k := v], k);
    if k in m {
      SumMapRemove(m, k);
      assert m[k := v] - {k} == m - {k};
    } else {
      assert m[k := v] - {k} == m;
    }
  }

  lemma {:induction false} SumMapNonNegative<K>(m: map<K, int>)
    requires forall k :: k in m ==> 0 <= m[k]
    ensures 0 <= SumMap(m)
    decreases m.Keys
  {
    if m.Keys != {} {
      SumMapNonNegative(m - {AnyKey(m)});
    }
  }

  lemma SumMapAtLeast<K>(m: map<K, int>, k: K)
    requires k in m && forall i :: i in m ==> 0 <= m[i]
    ensures m[k] <= SumMap(m)
  {
    SumMapRemove(m, k);
    SumMapNonNegative(m - {k});
  }

  /** The entries of m for the keys in ks. */
  ghost function Restrict<K>(m: map<K, int>, ks: set<K>): map<K, int> {
    map k | k in m && k in ks :: m[k]
  }

  lemma RestrictGrows<K>(m: map<K, int>, ks: set<K>, k: K, more: set<K>)
    requires k !in ks && more == ks + {k}
    ensures SumMap(Restrict(m, more)) == SumMap(Restrict(m, ks)) + (if k in m then m[k] else 0)
  {
    if k in m {
      assert Restrict(m, more) == Restrict(m, ks)[k := m[k]];
      SumMapUpdate(Restrict(m, ks), k, m[k]);
    } else {
      assert Restrict(m, more) == Restrict(m, ks);
    }
  }

  function SumSeq(xs: seq<int>): int {
    if xs == [] then 0 else SumSeq(xs[..|xs| - 1]) + xs[|xs| - 1]
  }

  lemma SumSeqAppend(xs: seq<int>, x: int)
    ensures SumSeq(xs + [x]) == SumSeq(xs) + x
  {
    assert (xs + [x])[..|xs|] == xs;
  }

  lemma {:induction false} SumSeqNonNegative(xs: seq<int>)
    requires forall i :: 0 <= i < |xs| ==> 0 <= xs[i]
    ensures 0 <= SumSeq(xs)
  {
    if xs != [] { SumSeqNonNegative(xs[..|xs| - 1]); }
  }
}
