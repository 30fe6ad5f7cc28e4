// Small facts of integer arithmetic, each proved once.
module Arith {

  lemma MulMono(a: int, b: int, c: int)
    requires a <= b && 0 <= c
    ensures a * c <= b * c
    ensures c * a <= c * b
  {
  }

  lemma MulMonoStrict(a: int, b: int, c: int)
    requires a < b && 0 < c
    ensures a * c < b * c
    ensures c * a < c * b
  {
  }

  lemma Distribute(a: int, b: int, c: int)
    ensures (a + b) * c == a * c + b * c
    ensures c * (a + b) == c * a + c * b
  {
  }

  lemma DistributeMinus(a: int, b: int, c: int)
    ensures (a - b) * c == a * c - b * c
    ensures c * (a - b) == c * a - c * b
  {
  }

  lemma MulAssoc(a: int, b: int, c: int)
    ensures a * b * c == a * (b * c)
    ensures a * (b * c) == b * (a * c)
  {
  }

  lemma NegativeProduct(x: int, t: int)
    ensures t > 0 && x < 0 ==> x * t < 0
  {
  }

  lemma DivMod(x: int, d: int)
    requires d > 0
    ensures x == d * (x / d) + x % d
    ensures 0 <= x % d < d
  {
  }

  lemma FloorBounds(x: int, d: int)
    requires d > 0
    ensures x / d * d <= x < (x / d + 1) * d
  {
    DivMod(x, d);
    Distribute(x / d, 1, d);
  }

  /** q is the quotient when it is the only integer whose interval holds x. */
  lemma QuotientUnique(x: int, d: int, q: int)
    requires d > 0 && q * d <= x < (q + 1) * d
    ensures x / d == q
  {
    FloorBounds(x, d);
    if x / d < q { MulMono(x / d + 1, q, d); }
    if q < x / d { MulMono(q + 1, x / d, d); }
  }

  lemma FloorMono(x: int, y: int, d: int)
    requires d > 0 && x <= y
    ensures x / d <= y / d
  {
    FloorBounds(x, d);
    FloorBounds(y, d);
    if y / d < x / d { MulMono(y / d + 1, x / d, d); }
  }

  /** Multiples of the divisor do not change the remainder. */
  lemma ModShift(x: int, k: int, d: int)
    requires d > 0
    ensures (x + k * d) % d == x % d
  {
    DivMod(x, d);
    DivMod(x + k * d, d);
    Distribute(x / d, k, d);
    Distribute(x / d + k, 1, d);
    QuotientUnique(x + k * d, d, x / d + k);
  }
}
