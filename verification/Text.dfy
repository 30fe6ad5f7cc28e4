// ASCII text helpers: trimming, lower-casing, decimal numbers and '|'-joined fields.
module Text {

  predicate IsSpace(c: char) {
    c == ' ' || '\t' <= c <= '\r' || c == '\U{0085}' || c == '\U{00A0}'
  }

  function TrimLeft(s: string): string {
    if s != "" && IsSpace(s[0]) then TrimLeft(s[1..]) else s
  }

  function TrimRight(s: string): string {
    if s != "" && IsSpace(s[|s| - 1]) then TrimRight(s[..|s| - 1]) else s
  }

  function Trim(s: string): string {
    TrimRight(TrimLeft(s))
  }

  predicate Trimmed(s: string) {
    s == "" || (!IsSpace(s[0]) && !IsSpace(s[|s| - 1]))
  }

  lemma {:induction false} TrimLeftEnds(s: string)
    ensures TrimLeft(s) == "" || !IsSpace(TrimLeft(s)[0])
  {
    if s != "" && IsSpace(s[0]) { TrimLeftEnds(s[1..]); }
  }

  lemma {:induction false} TrimRightEnds(s: string)
    ensures TrimRight(s) == "" || !IsSpace(TrimRight(s)[|TrimRight(s)| - 1])
    ensures TrimRight(s) != "" ==> TrimRight(s)[0] == s[0]
  {
    if s != "" && IsSpace(s[|s| - 1]) { TrimRightEnds(s[..|s| - 1]); }
  }

  lemma TrimTrims(s: string)
    ensures Trimmed(Trim(s))
    ensures Trim(Trim(s)) == Trim(s)
  {
    TrimLeftEnds(s);
    TrimRightEnds(TrimLeft(s));
  }

  lemma TrimIdentity(s: string)
    requires Trimmed(s)
    ensures Trim(s) == s
  {
  }

  function LowerChar(c: char): char {
    if 'A' <= c <= 'Z' then (c as int + 32) as char else c
  }

  function Lower(s: string): (r: string)
    ensures |r| == |s| && forall i :: 0 <= i < |s| ==> r[i] == LowerChar(s[i])
  {
    if s == "" then "" else Lower(s[..|s| - 1]) + [LowerChar(s[|s| - 1])]
  }

  lemma {:induction false} TrimLeftChars(s: string)
    ensures forall c :: c in TrimLeft(s) ==> c in s
    ensures TrimLeft(s) == "" <==> forall i :: 0 <= i < |s| ==> IsSpace(s[i])
  {
    if s != "" && IsSpace(s[0]) {
      TrimLeftChars(s[1..]);
      assert forall i :: 0 < i < |s| ==> s[i] == s[1..][i - 1];
    }
  }

  lemma {:induction false} TrimRightChars(s: string)
    ensures forall c :: c in TrimRight(s) ==> c in s
    ensures TrimRight(s) == "" <==> forall i :: 0 <= i < |s| ==> IsSpace(s[i])
  {
    if s != "" && IsSpace(s[|s| - 1]) {
      TrimRightChars(s[..|s| - 1]);
      assert forall i :: 0 <= i < |s| - 1 ==> s[i] == s[..|s| - 1][i];
    }
  }

  /** Trimming keeps only characters of s, and nothing exactly when s is blank. */
  lemma TrimChars(s: string)
    ensures forall c :: c in Trim(s) ==> c in s
    ensures Trim(s) == "" <==> forall i :: 0 <= i < |s| ==> IsSpace(s[i])
  {
    TrimLeftChars(s);
    TrimRightChars(TrimLeft(s));
    TrimLeftEnds(s);
  }

  /** Lower-casing keeps blanks blank. */
  lemma LowerBlank(s: string)
    ensures Trim(Lower(s)) == "" <==> Trim(s) == ""
  {
    TrimChars(s);
    TrimChars(Lower(s));
    assert forall i :: 0 <= i < |s| ==> (IsSpace(s[i]) <==> IsSpace(Lower(s)[i]));
  }

  /** Lower-casing and trimming is idempotent. */
  lemma TrimLowerIdempotent(s: string)
    ensures Trim(Lower(Trim(Lower(s)))) == Trim(Lower(s))
  {
    var t := Trim(Lower(s));
    TrimChars(Lower(s));
    assert forall i :: 0 <= i < |t| ==> t[i] in t;
    assert Lower(t) == t;
    TrimTrims(Lower(s));
  }

  // Decimal numbers.

  function Digit(d: nat): char
    requires d < 10
  {
    ('0' as int + d) as char
  }

  function DecimalNat(n: nat): (r: string)
    ensures r != "" && forall i :: 0 <= i < |r| ==> '0' <= r[i] <= '9'
  {
    if n < 10 then [Digit(n)] else DecimalNat(n / 10) + [Digit(n % 10)]
  }

  /** strconv.FormatInt in base 10. */
  function Decimal(n: int): string {
    if n < 0 then "-" + DecimalNat(-n) else DecimalNat(n)
  }

  lemma {:induction false} DecimalNatInjective(a: nat, b: nat)
    requires DecimalNat(a) == DecimalNat(b)
    ensures a == b
  {
    var x, y := DecimalNat(a), DecimalNat(b);
    assert x[|x| - 1] == y[|y| - 1];
    assert a >= 10 ==> |x| > 1;
    assert b >= 10 ==> |y| > 1;
    if a >= 10 && b >= 10 {
      assert x[..|x| - 1] == DecimalNat(a / 10) && y[..|y| - 1] == DecimalNat(b / 10);
      DecimalNatInjective(a / 10, b / 10);
    }
  }

  lemma DecimalInjective(a: int, b: int)
    requires Decimal(a) == Decimal(b)
    ensures a == b
  {
    assert a < 0 <==> Decimal(a)[0] == '-';
    assert b < 0 <==> Decimal(b)[0] == '-';
    if a < 0 {
      assert Decimal(a)[1..] == DecimalNat(-a) && Decimal(b)[1..] == DecimalNat(-b);
      DecimalNatInjective(-a, -b);
    } else {
      DecimalNatInjective(a, b);
    }
  }

  lemma DecimalHasNoBar(n: int)
    ensures '|' !in Decimal(n)
  {
  }

  // '|'-joined fields.

  function Join(parts: seq<string>): string {
    if parts == [] then ""
    else if |parts| == 1 then parts[0]
    else parts[0] + "|" + Join(parts[1..])
  }

  /** Number of characters before the first bar. */
  function FirstBar(s: string): nat {
    if s == "" || s[0] == '|' then 0 else 1 + FirstBar(s[1..])
  }

  lemma {:induction false} FirstBarAfter(a: string, x: string)
    requires '|' !in a
    ensures FirstBar(a + "|" + x) == |a|
  {
    if a != "" {
      assert (a + "|" + x)[1..] == a[1..] + "|" + x;
      FirstBarAfter(a[1..], x);
    }
  }

  /** Fields without a bar are recovered one by one from the left, whatever follows them. */
  lemma SplitAtBar(a: string, x: string, b: string, y: string)
    requires '|' !in a && '|' !in b && a + "|" + x == b + "|" + y
    ensures a == b && x == y
  {
    FirstBarAfter(a, x);
    FirstBarAfter(b, y);
    var s, t := a + "|" + x, b + "|" + y;
    assert s[..|a|] == a && t[..|b|] == b;
    assert s[|a| + 1..] == x && t[|b| + 1..] == y;
  }

  lemma PeelField(a: string, xs: seq<string>, b: string, ys: seq<string>)
    requires xs != [] && ys != [] && '|' !in a && '|' !in b
    requires Join([a] + xs) == Join([b] + ys)
    ensures a == b && Join(xs) == Join(ys)
  {
    assert ([a] + xs)[1..] == xs && ([b] + ys)[1..] == ys;
    SplitAtBar(a, Join(xs), b, Join(ys));
  }

  /** A shared first field, even one with bars, can be cancelled. */
  lemma CancelField(a: string, xs: seq<string>, ys: seq<string>)
    requires xs != [] && ys != [] && Join([a] + xs) == Join([a] + ys)
    ensures Join(xs) == Join(ys)
  {
    assert ([a] + xs)[1..] == xs && ([a] + ys)[1..] == ys;
    var s, t := a + "|" + Join(xs), a + "|" + Join(ys);
    assert s[|a| + 1..] == Join(xs) && t[|a| + 1..] == Join(ys);
  }

  /** Fields of equal length can be separated without looking at their contents. */
  lemma CancelLength(a: string, xs: seq<string>, b: string, ys: seq<string>)
    requires xs != [] && ys != [] && |a| == |b| && Join([a] + xs) == Join([b] + ys)
    ensures a == b && Join(xs) == Join(ys)
  {
    assert ([a] + xs)[1..] == xs && ([b] + ys)[1..] == ys;
    var s, t := a + "|" + Join(xs), b + "|" + Join(ys);
    assert s[..|a|] == a && t[..|b|] == b;
    assert s[|a| + 1..] == Join(xs) && t[|b| + 1..] == Join(ys);
  }
}
