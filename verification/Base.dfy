// Shared vocabulary: optional values, results, enumerations of finite sets.
module Base {

  datatype Option<+T> = None | Some(value: T)

  datatype Result<+T, +E> = Ok(value: T) | Err(error: E) {
    predicate IsFailure() {
      Err?
    }

    function PropagateFailure<U>(): Result<U, E>
      requires Err?
    {
      Err(error)
    }

    function Extract(): T
      requires Ok?
    {
      value
    }
  }

  const MAX_INT64: int := 0x7fff_ffff_ffff_ffff
  const TWO_64: int := 0x1_0000_0000_0000_0000

  /** sdk.Int holds 256 bits; amounts of at most 2^192 leave room for the products of the reward rules. */
  const TWO_256: int := 0x1_0000_0000_0000_0000_0000_0000_0000_0000_0000_0000_0000_0000_0000_0000_0000_0000
  const MAX_AMOUNT: int := 0x1_0000_0000_0000_0000_0000_0000_0000_0000_0000_0000_0000_0000

  /** The last second of year 9999, the end of the range of protobuf timestamps and so of block times. */
  const MAX_TIME: int := 253_402_300_799

  /** The longest time.Duration in whole seconds, about 292 years. */
  const MAX_DURATION: int := 9_223_372_036

  /** Two's-complement wrap-around of Go's int64 arithmetic. */
  function Wrap64(x: int): (r: int)
    ensures -MAX_INT64 - 1 <= r <= MAX_INT64
    ensures -MAX_INT64 - 1 <= x <= MAX_INT64 ==> r == x
  {
    (x + MAX_INT64 + 1) % TWO_64 - MAX_INT64 - 1
  }

  function Min(a: int, b: int): int {
    if a <= b then a else b
  }

  function Max(a: int, b: int): int {
    if a <= b then b else a
  }

  predicate NoDup<T(==)>(xs: seq<T>) {
    forall i, j :: 0 <= i < j < |xs| ==> xs[i] != xs[j]
  }

  function Elems<T(==)>(xs: seq<T>): set<T> {
    set x | x in xs
  }

  /** xs lists every element of s exactly once. */
  ghost predicate Enumerates<T(!new)>(xs: seq<T>, s: set<T>) {
    && NoDup(xs)
    && (forall x :: x in xs <==> x in s)
  }

  lemma FullPrefix<T>(xs: seq<T>)
    ensures xs[..|xs|] == xs
  {
  }

  /** One more element of a duplicate-free sequence. */
  lemma PrefixElems<T>(xs: seq<T>, n: nat)
    requires 0 < n <= |xs| && NoDup(xs)
    ensures Elems(xs[..n]) == Elems(xs[..n - 1]) + {xs[n - 1]}
    ensures xs[n - 1] !in Elems(xs[..n - 1])
  {
    assert xs[..n] == xs[..n - 1] + [xs[n - 1]];
  }

  lemma EnumerationElems<T(!new)>(xs: seq<T>, s: set<T>)
    requires Enumerates(xs, s)
    ensures Elems(xs[..|xs|]) == s
    ensures forall i :: 0 <= i < |xs| ==> xs[i] in s
  {
    FullPrefix(xs);
    forall i | 0 <= i < |xs|
      ensures xs[i] in s
    {
      assert xs[i] in xs;
    }
  }

  lemma EmptyEnumeration<T(!new)>(xs: seq<T>, s: set<T>)
    requires Enumerates(xs, s)
    ensures |xs| == 0 <==> s == {}
  {
    if xs != [] { assert xs[0] in s; }
  }

  lemma {:induction false} EnumerationLength<T(!new)>(xs: seq<T>, s: set<T>)
    requires Enumerates(xs, s)
    ensures |xs| == |s|
  {
    if xs == [] {
      assert s == {};
    } else {
      var rest := s - {xs[0]};
      forall x
        ensures x in xs[1..] <==> x in rest
      {
        if x in xs[1..] {
          var i :| 0 <= i < |xs[1..]| && xs[1..][i] == x;
          assert xs[i + 1] == x;
        }
        if x in rest {
          var i :| 0 <= i < |xs| && xs[i] == x;
          assert xs[1..][i - 1] == x;
        }
      }
      EnumerationLength(xs[1..], rest);
    }
  }
}
