// Counting the elements of a sequence that satisfy a predicate, whatever their order.
module Counting {

  function Count<T>(xs: seq<T>, p: T -> bool): nat {
    if xs == [] then 0 else Count(xs[..|xs| - 1], p) + (if p(xs[|xs| - 1]) then 1 else 0)
  }

  lemma CountAppend<T>(xs: seq<T>, x: T, p: T -> bool)
    ensures Count(xs + [x], p) == Count(xs, p) + (if p(x) then 1 else 0)
  {
    assert (xs + [x])[..|xs|] == xs;
  }

  lemma {:induction false} CountConcat<T>(xs: seq<T>, ys: seq<T>, p: T -> bool)
    ensures Count(xs + ys, p) == Count(xs, p) + Count(ys, p)
  {
    if ys == [] {
      assert xs + ys == xs;
    } else {
      var n := |ys| - 1;
      CountConcat(xs, ys[..n], p);
      CountAppend(xs + ys[..n], ys[n], p);
      assert xs + ys == xs + ys[..n] + [ys[n]];
    }
  }

  lemma {:induction false} CountBound<T>(xs: seq<T>, p: T -> bool)
    ensures Count(xs, p) <= |xs|
  {
    if xs != [] { CountBound(xs[..|xs| - 1], p); }
  }

  lemma {:induction false} CountImplies<T(!new)>(xs: seq<T>, p: T -> bool, q: T -> bool)
    requires forall x :: p(x) ==> q(x)
    ensures Count(xs, p) <= Count(xs, q)
  {
    if xs != [] { CountImplies(xs[..|xs| - 1], p, q); }
  }

  lemma {:induction false} CountAll<T>(xs: seq<T>, p: T -> bool)
    requires forall i :: 0 <= i < |xs| ==> p(xs[i])
    ensures Count(xs, p) == |xs|
  {
    if xs != [] { CountAll(xs[..|xs| - 1], p); }
  }

  lemma {:induction false} CountNone<T>(xs: seq<T>, p: T -> bool)
    requires forall i :: 0 <= i < |xs| ==> !p(xs[i])
    ensures Count(xs, p) == 0
  {
    if xs != [] { CountNone(xs[..|xs| - 1], p); }
  }

  lemma CountSplit<T>(xs: seq<T>, k: nat, p: T -> bool)
    requires k <= |xs|
    ensures Count(xs, p) == Count(xs[..k], p) + Count(xs[k..], p)
  {
    assert xs == xs[..k] + xs[k..];
    CountConcat(xs[..k], xs[k..], p);
  }

  lemma CountMember<T>(xs: seq<T>, i: nat, p: T -> bool)
    requires i < |xs| && p(xs[i])
    ensures Count(xs, p) > 0
  {
    CountSplit(xs, i + 1, p);
    assert xs[..i + 1] == xs[..i] + [xs[i]];
    CountAppend(xs[..i], xs[i], p);
  }

  lemma {:induction false} CountWitness<T>(xs: seq<T>, p: T -> bool)
    requires Count(xs, p) > 0
    ensures exists i :: 0 <= i < |xs| && p(xs[i])
  {
    if forall i :: 0 <= i < |xs| ==> !p(xs[i]) { CountNone(xs, p); }
  }

  function Without<T>(xs: seq<T>, i: nat): seq<T>
    requires i < |xs|
  {
    xs[..i] + xs[i + 1..]
  }

  lemma WithoutMultiset<T>(xs: seq<T>, i: nat)
    requires i < |xs|
    ensures multiset(xs) == multiset(Without(xs, i)) + multiset{xs[i]}
  {
    assert xs == xs[..i] + ([xs[i]] + xs[i + 1..]);
  }

  lemma CountWithout<T>(xs: seq<T>, i: nat, p: T -> bool)
    requires i < |xs|
    ensures Count(xs, p) == Count(Without(xs, i), p) + (if p(xs[i]) then 1 else 0)
  {
    CountSplit(xs, i + 1, p);
    assert xs[..i + 1] == xs[..i] + [xs[i]];
    CountAppend(xs[..i], xs[i], p);
    CountConcat(xs[..i], xs[i + 1..], p);
  }

  lemma PermutedTail<T>(xs: seq<T>, ys: seq<T>) returns (i: nat)
    requires multiset(xs) == multiset(ys) && xs != []
    ensures i < |ys| && ys[i] == xs[|xs| - 1]
    ensures multiset(xs[..|xs| - 1]) == multiset(Without(ys, i))
  {
    var n := |xs| - 1;
    assert xs[n] in multiset(xs);
    assert xs[n] in multiset(ys);
    i :| 0 <= i < |ys| && ys[i] == xs[n];
    WithoutMultiset(ys, i);
    WithoutMultiset(xs, n);
    assert Without(xs, n) == xs[..n];
    assert multiset(xs[..n]) == multiset(xs) - multiset{xs[n]};
    assert multiset(Without(ys, i)) == multiset(ys) - multiset{xs[n]};
  }

  /** Counting sees only the multiset of elements. */
  lemma {:induction false} CountPermuted<T>(xs: seq<T>, ys: seq<T>, p: T -> bool)
    requires multiset(xs) == multiset(ys)
    ensures Count(xs, p) == Count(ys, p)
  {
    if xs == [] {
      assert |ys| == |multiset(ys)| == |multiset(xs)| == 0;
    } else {
      var i := PermutedTail(xs, ys);
      CountWithout(ys, i, p);
      CountPermuted(xs[..|xs| - 1], Without(ys, i), p);
    }
  }
}
