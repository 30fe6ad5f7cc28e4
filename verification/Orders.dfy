// Total orders and key-ordered enumeration of finite sets.
// Store iterators visit keys in byte order; SortedBy is that visit as a sequence.
module Orders {
  import opened Base

  ghost predicate TotalOrder<T(!new)>(le: (T, T) -> bool) {
    && (forall x :: le(x, x))
    && (forall x, y :: le(x, y) || le(y, x))
    && (forall x, y :: le(x, y) && le(y, x) ==> x == y)
    && (forall x, y, z :: le(x, y) && le(y, z) ==> le(x, z))
  }

  ghost predicate Ascending<T(!new)>(xs: seq<T>, le: (T, T) -> bool) {
    forall i, j :: 0 <= i < j < |xs| ==> le(xs[i], xs[j])
  }

  ghost predicate IsLeast<T(!new)>(s: set<T>, le: (T, T) -> bool, m: T) {
    m in s && forall x :: x in s ==> le(m, x)
  }

  lemma {:induction false} LeastExists<T(!new)>(s: set<T>, le: (T, T) -> bool) returns (m: T)
    requires TotalOrder(le) && s != {}
    ensures IsLeast(s, le, m)
  {
    var a :| a in s;
    m := a;
    if s != {a} {
      var rest := LeastExists(s - {a}, le);
      if le(rest, a) { m := rest; }
      forall x | x in s
        ensures le(m, x)
      {
        assert x == a || le(rest, x);
      }
    }
  }

  function Least<T(!new, ==)>(s: set<T>, le: (T, T) -> bool): (m: T)
    requires TotalOrder(le) && s != {}
    ensures m in s && forall x :: x in s ==> le(m, x)
  {
    assert exists m :: IsLeast(s, le, m) by { var m := LeastExists(s, le); }
    var m :| m in s && forall x :: x in s ==> le(m, x);
    m
  }

  function SortedBy<T(!new, ==)>(s: set<T>, le: (T, T) -> bool): (xs: seq<T>)
    requires TotalOrder(le)
    ensures Enumerates(xs, s)
    ensures Ascending(xs, le)
    decreases s
  {
    if s == {} then []
    else
      var m := Least(s, le);
      [m] + SortedBy(s - {m}, le)
  }

  /** Two ascending enumerations of one set are the same sequence. */
  lemma {:induction false} AscendingUnique<T(!new)>(xs: seq<T>, ys: seq<T>, s: set<T>, le: (T, T) -> bool)
    requires TotalOrder(le)
    requires Enumerates(xs, s) && Ascending(xs, le)
    requires Enumerates(ys, s) && Ascending(ys, le)
    ensures xs == ys
  {
    EnumerationLength(xs, s);
    EnumerationLength(ys, s);
    if xs != [] {
      assert xs[0] in ys && ys[0] in xs;
      assert le(xs[0], ys[0]) && le(ys[0], xs[0]);
      var rest := s - {xs[0]};
      TailEnumerates(xs, s);
      TailEnumerates(ys, s);
      AscendingUnique(xs[1..], ys[1..], rest, le);
      assert xs == [xs[0]] + xs[1..] && ys == [ys[0]] + ys[1..];
    }
  }

  lemma TailEnumerates<T(!new)>(xs: seq<T>, s: set<T>)
    requires Enumerates(xs, s) && xs != []
    ensures Enumerates(xs[1..], s - {xs[0]})
  {
    forall x
      ensures x in xs[1..] <==> x in s - {xs[0]}
    {
      if x in s - {xs[0]} {
        var i :| 0 <= i < |xs| && xs[i] == x;
        assert xs[1..][i - 1] == x;
      }
    }
  }

  /** Go's byte-wise string order. */
  predicate LexLe(a: string, b: string) {
    a == "" || (b != "" && (a[0] < b[0] || (a[0] == b[0] && LexLe(a[1..], b[1..]))))
  }

  lemma {:induction false} LexRefl(a: string)
    ensures LexLe(a, a)
  {
    if a != "" { LexRefl(a[1..]); }
  }

  lemma {:induction false} LexTotal(a: string, b: string)
    ensures LexLe(a, b) || LexLe(b, a)
  {
    if a != "" && b != "" { LexTotal(a[1..], b[1..]); }
  }

  lemma {:induction false} LexAntisym(a: string, b: string)
    requires LexLe(a, b) && LexLe(b, a)
    ensures a == b
  {
    if a != "" && b != "" {
      LexAntisym(a[1..], b[1..]);
      assert a == [a[0]] + a[1..] && b == [b[0]] + b[1..];
    }
  }

  lemma {:induction false} LexTrans(a: string, b: string, c: string)
    requires LexLe(a, b) && LexLe(b, c)
    ensures LexLe(a, c)
  {
    if a != "" && b != "" && c != "" && a[0] == b[0] == c[0] { LexTrans(a[1..], b[1..], c[1..]); }
  }

  lemma LexOrder()
    ensures TotalOrder(LexLe)
  {
    forall a { LexRefl(a); }
    forall a, b { LexTotal(a, b); }
    forall a, b | LexLe(a, b) && LexLe(b, a) { LexAntisym(a, b); }
    forall a, b, c | LexLe(a, b) && LexLe(b, c) ensures LexLe(a, c) { LexTrans(a, b, c); }
  }

  predicate IntLe(a: int, b: int) {
    a <= b
  }

  lemma IntOrder()
    ensures TotalOrder(IntLe)
  {
  }

  /** The elements of s in string order. */
  function SortedStrings(s: set<string>): (xs: seq<string>)
    ensures Enumerates(xs, s)
    ensures Ascending(xs, LexLe)
  {
    LexOrder();
    SortedBy(s, LexLe)
  }

  function SortedInts(s: set<int>): (xs: seq<int>)
    ensures Enumerates(xs, s)
    ensures Ascending(xs, IntLe)
  {
    IntOrder();
    SortedBy(s, IntLe)
  }

  // Filtering a key-ordered snapshot.

  /** The elements of xs[..n] to keep, in order. */
  function Filter<T>(xs: seq<T>, keep: T -> bool, n: nat): seq<T>
    requires n <= |xs|
  {
    if n == 0 then [] else Filter(xs, keep, n - 1) + (if keep(xs[n - 1]) then [xs[n - 1]] else [])
  }

  lemma FilterStep<T>(xs: seq<T>, keep: T -> bool, n: nat)
    requires n < |xs|
    ensures Filter(xs, keep, n + 1) == if keep(xs[n]) then Filter(xs, keep, n) + [xs[n]] else Filter(xs, keep, n)
  {
  }

  lemma {:induction false} FilterMembers<T>(xs: seq<T>, keep: T -> bool, n: nat)
    requires n <= |xs|
    ensures forall x :: x in Filter(xs, keep, n) <==> x in xs[..n] && keep(x)
  {
    if n > 0 {
      FilterMembers(xs, keep, n - 1);
      assert xs[..n] == xs[..n - 1] + [xs[n - 1]];
    }
  }

  lemma {:induction false} FilterSorted<T(!new)>(xs: seq<T>, keep: T -> bool, le: (T, T) -> bool, n: nat)
    requires n <= |xs| && NoDup(xs) && Ascending(xs, le)
    ensures NoDup(Filter(xs, keep, n)) && Ascending(Filter(xs, keep, n), le)
  {
    if n > 0 {
      FilterSorted(xs, keep, le, n - 1);
      FilterMembers(xs, keep, n - 1);
      var kept := Filter(xs, keep, n - 1);
      forall i | 0 <= i < |kept|
        ensures kept[i] != xs[n - 1] && le(kept[i], xs[n - 1])
      {
        assert kept[i] in kept;
        var j :| 0 <= j < n - 1 && xs[j] == kept[i];
      }
    }
  }

  /** Filtering the sorted keys gives the sorted kept keys. */
  lemma FilterIsSorted(s: set<string>, keep: string -> bool, kept: set<string>)
    requires forall x :: x in kept <==> x in s && keep(x)
    ensures Filter(SortedStrings(s), keep, |SortedStrings(s)|) == SortedStrings(kept)
  {
    var xs := SortedStrings(s);
    LexOrder();
    FullPrefix(xs);
    FilterMembers(xs, keep, |xs|);
    FilterSorted(xs, keep, LexLe, |xs|);
    AscendingUnique(Filter(xs, keep, |xs|), SortedStrings(kept), kept, LexLe);
  }
}
