/** The few facts about products and remainders that several components need. */
module Arithmetic {

  lemma ProductAtLeast(a: int, b: int)
    requires a >= 1 && b >= 1
    ensures a * b >= b
  {
    assert (a - 1) * b >= 0;
  }

  /** The only multiple of m smaller than m in size is 0. */
  lemma SmallMultiple(k: int, m: int)
    requires m != 0
    requires -(if m > 0 then m else -m) < k * m < if m > 0 then m else -m
    ensures k == 0
  {
    var a, b := if k > 0 then k else -k, if m > 0 then m else -m;
    assert a * b == k * m || a * b == -(k * m);
    if k != 0 {
      ProductAtLeast(a, b);
    }
  }

  /** Quotient and remainder are determined by their defining equation. */
  lemma DivModUnique(x: int, q: int, r: int, m: int)
    requires m > 0 && x == q * m + r && 0 <= r < m
    ensures x / m == q && x % m == r
  {
    var q', r' := x / m, x % m;
    assert x == q' * m + r';
    assert (q - q') * m == r' - r;
    SmallMultiple(q - q', m);
  }

  lemma MultipleAligned(n: int, m: int)
    requires m != 0
    ensures (n * m) % m == 0
  {
    var q, r := (n * m) / m, (n * m) % m;
    assert n * m == q * m + r;
    var k := n - q;
    assert k * m == n * m - q * m;
    SmallMultiple(k, m);
  }

  lemma QuotientSign(x: nat, m: nat)
    requires m > 0
    ensures 0 <= x / m && 0 <= x % m < m
    ensures (x / m) * m + x % m == x
  {
    var q, r := x / m, x % m;
    assert x == q * m + r && 0 <= r < m;
    if q < 0 {
      ProductAtLeast(-q, m);
    }
  }

  /** Whole part and remainder of a division of natural numbers. */
  function Quotient(x: nat, m: nat): nat
    requires m > 0
  {
    QuotientSign(x, m);
    x / m
  }

  function Rest(x: nat, m: nat): (r: nat)
    requires m > 0
    ensures r < m
  {
    QuotientSign(x, m);
    x % m
  }

  lemma WholeAndRest(x: nat, m: nat)
    requires m > 0
    ensures Quotient(x, m) * m + Rest(x, m) == x
  {
    QuotientSign(x, m);
  }

  lemma Associate(a: int, b: int, c: int)
    ensures (a * b) * c == a * (b * c)
  {
  }

  lemma Cancel(x: int, y: int, c: int)
    requires c > 0 && x * c == y * c
    ensures x == y
  {
    assert (x - y) * c == 0;
    SmallMultiple(x - y, c);
  }

  /** If d divides amount * p, it divides the remainder of amount times p. */
  lemma RemainderMultiple(amount: nat, p: nat, d: nat) returns (m: int)
    requires d > 0 && (amount * p) % d == 0
    ensures Rest(amount, d) * p == m * d
  {
    var q, i, f := (amount * p) / d, Quotient(amount, d), Rest(amount, d);
    assert amount * p == q * d;
    WholeAndRest(amount, d);
    m := q - i * p;
    assert (i * d + f) * p == (i * d) * p + f * p;
    assert (i * d) * p == (i * p) * d;
    assert (q - i * p) * d == q * d - (i * p) * d;
  }

  /** A number and its parts, scaled. */
  lemma ScaledParts(amount: nat, d: nat, p: nat, x: int)
    requires d > 0 && x * d == Rest(amount, d) * p
    ensures (Quotient(amount, d) * p + x) * d == amount * p
  {
    WholeAndRest(amount, d);
    var i, f := Quotient(amount, d), Rest(amount, d);
    assert (i * p + x) * d == (i * p) * d + x * d;
    assert (i * d + f) * p == (i * d) * p + f * p;
    assert (i * d) * p == (i * p) * d;
  }

  lemma ScaledWhole(amount: nat, d: nat, p: nat)
    requires d > 0 && Rest(amount, d) == 0
    ensures (Quotient(amount, d) * p) * d == amount * p
  {
    ScaledParts(amount, d, p, 0);
  }

  /** Nearest integer; the even one of the two nearest. */
  function RoundHalfEven(x: real): int {
    var f := x.Floor;
    var rest := x - f as real;
    if rest < 0.5 then f
    else if rest > 0.5 then f + 1
    else if f % 2 == 0 then f else f + 1
  }

  lemma RoundError(x: real)
    ensures -0.5 <= RoundHalfEven(x) as real - x <= 0.5
  {
  }

  lemma RoundMonotone(x: real, y: real)
    requires x <= y
    ensures RoundHalfEven(x) <= RoundHalfEven(y)
  {
    RoundError(x);
    RoundError(y);
  }
}
