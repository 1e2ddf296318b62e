/** Decimal digit strings: what they denote, and how numbers are printed. */
module Decimals {
  predicate IsDigit(c: char) { '0' <= c <= '9' }

  ghost predicate AllDigits(s: string) {
    forall i :: 0 <= i < |s| ==> IsDigit(s[i])
  }

  function DigitValue(c: char): (d: nat)
    ensures d < 10
  {
    if IsDigit(c) then c as int - '0' as int else 0
  }

  function DigitChar(d: nat): (c: char)
    requires d < 10
    ensures IsDigit(c) && DigitValue(c) == d
  {
    ('0' as int + d) as char
  }

  function Pow10(n: nat): (p: nat)
    ensures p > 0
  {
    if n == 0 then 1 else 10 * Pow10(n - 1)
  }

  lemma {:induction false} Pow10Adds(a: nat, b: nat)
    ensures Pow10(a + b) == Pow10(a) * Pow10(b)
  {
    if a > 0 {
      Pow10Adds(a - 1, b);
      assert 10 * (Pow10(a - 1) * Pow10(b)) == (10 * Pow10(a - 1)) * Pow10(b);
    }
  }

  /** The number a digit string denotes. */
  function Value(s: string): nat {
    if s == "" then 0 else 10 * Value(s[..|s| - 1]) + DigitValue(s[|s| - 1])
  }

  lemma Regroup(v: int, p: int)
    ensures 10 * (v * p) == v * (10 * p)
  {
  }

  lemma ValueAppend(s: string, c: char)
    ensures Value(s + [c]) == 10 * Value(s) + DigitValue(c)
  {
    assert (s + [c])[..|s|] == s;
  }

  lemma {:induction false} ValueConcat(a: string, b: string)
    ensures Value(a + b) == Value(a) * Pow10(|b|) + Value(b)
  {
    if b == "" {
      assert a + b == a;
    } else {
      var front, last := b[..|b| - 1], b[|b| - 1];
      ValueConcat(a, front);
      assert a + b == (a + front) + [last];
      ValueAppend(a + front, last);
      Regroup(Value(a), Pow10(|front|));
    }
  }

  lemma {:induction false} ValueBound(s: string)
    ensures Value(s) < Pow10(|s|)
  {
    if s != "" {
      ValueBound(s[..|s| - 1]);
    }
  }

  function Zeros(n: nat): (z: string)
    ensures |z| == n && AllDigits(z) && forall i :: 0 <= i < n ==> z[i] == '0'
  {
    seq(n, _ => '0')
  }

  lemma {:induction false} ValueOfZeros(n: nat)
    ensures Value(Zeros(n)) == 0
  {
    if n > 0 {
      ValueOfZeros(n - 1);
      assert Zeros(n)[..n - 1] == Zeros(n - 1);
    }
  }

  lemma ValueThenZeros(s: string, n: nat)
    ensures Value(s + Zeros(n)) == Value(s) * Pow10(n)
  {
    ValueConcat(s, Zeros(n));
    ValueOfZeros(n);
  }

  /** `to_string` of a natural number. */
  function Print(n: nat): (s: string)
    ensures s != "" && AllDigits(s)
  {
    if n < 10 then [DigitChar(n)] else Print(n / 10) + [DigitChar(n % 10)]
  }

  lemma {:induction false} PrintDenotes(n: nat)
    ensures Value(Print(n)) == n
    ensures n > 0 ==> Print(n)[0] != '0'
  {
    if n < 10 {
      assert Print(n)[..0] == "";
    } else {
      PrintDenotes(n / 10);
      assert Print(n)[..|Print(n)| - 1] == Print(n / 10);
    }
  }

  /** Exactly `width` digits, leading zeros included. */
  function Fixed(n: nat, width: nat): (s: string)
    ensures |s| == width && AllDigits(s)
  {
    if width == 0 then "" else Fixed(n / 10, width - 1) + [DigitChar(n % 10)]
  }

  lemma SplitLast(v: nat, d: nat)
    requires d < 10
    ensures (10 * v + d) / 10 == v && (10 * v + d) % 10 == d
  {
  }

  lemma FixedStep(v: nat, d: nat, width: nat)
    requires d < 10
    ensures Fixed(10 * v + d, width + 1) == Fixed(v, width) + [DigitChar(d)]
  {
    SplitLast(v, d);
  }

  lemma DigitRoundTrip(c: char)
    requires IsDigit(c)
    ensures DigitChar(DigitValue(c)) == c
  {
  }

  lemma FixedAppend(front: string, last: char, v: nat)
    requires IsDigit(last) && v == 10 * Value(front) + DigitValue(last) && Fixed(Value(front), |front|) == front
    ensures Fixed(v, |front| + 1) == front + [last]
  {
    FixedStep(Value(front), DigitValue(last), |front|);
    DigitRoundTrip(last);
  }

  /** A digit string is determined by its length and its value. */
  lemma {:induction false} FixedOfValue(s: string)
    requires AllDigits(s)
    ensures Fixed(Value(s), |s|) == s
  {
    if s != "" {
      var front, last := s[..|s| - 1], s[|s| - 1];
      FixedOfValue(front);
      FixedAppend(front, last, Value(s));
      assert s == front + [last];
    }
  }

  lemma WithoutLastDigit(n: nat, p: nat)
    requires n < 10 * p
    ensures n / 10 < p && n == 10 * (n / 10) + n % 10
  {
  }

  lemma DigitOfValue(d: nat)
    requires d < 10
    ensures DigitValue(DigitChar(d)) == d
  {
  }

  lemma {:induction false} ValueOfFixed(n: nat, width: nat)
    requires n < Pow10(width)
    ensures Value(Fixed(n, width)) == n
  {
    if width > 0 {
      WithoutLastDigit(n, Pow10(width - 1));
      ValueOfFixed(n / 10, width - 1);
      ValueAppend(Fixed(n / 10, width - 1), DigitChar(n % 10));
      DigitOfValue(n % 10);
    }
  }

  /** Without leading zeros the value alone determines the string: it is the printed number. */
  lemma {:induction false} PrintOfValue(s: string)
    requires AllDigits(s) && s != "" && s[0] != '0'
    ensures Print(Value(s)) == s && Value(s) > 0
  {
    var front, last := s[..|s| - 1], s[|s| - 1];
    assert s == front + [last];
    DigitRoundTrip(last);
    if front == "" {
      assert Value(front) == 0;
    } else {
      PrintOfValue(front);
      SplitLast(Value(front), DigitValue(last));
    }
  }

  /** `trim_start_matches('0')`. */
  function StripLeading(s: string): (r: string)
    ensures |r| <= |s| && (r != "" ==> r[0] != '0')
    ensures AllDigits(s) ==> AllDigits(r)
  {
    if s != "" && s[0] == '0' then StripLeading(s[1..]) else s
  }

  lemma {:induction false} StripLeadingKeepsValue(s: string)
    requires AllDigits(s)
    ensures Value(StripLeading(s)) == Value(s)
  {
    if s != "" && s[0] == '0' {
      StripLeadingKeepsValue(s[1..]);
      assert s == "0" + s[1..];
      assert "0"[..0] == "";
      assert Value("0") == 0;
      ValueConcat("0", s[1..]);
    }
  }

  /** Zeros behind the digits multiply by a power of ten; the result has a fixed width. */
  lemma PadIsFixed(fraction: string, width: nat)
    requires AllDigits(fraction) && |fraction| <= width
    ensures Value(fraction) * Pow10(width - |fraction|) < Pow10(width)
    ensures fraction + Zeros(width - |fraction|) == Fixed(Value(fraction) * Pow10(width - |fraction|), width)
  {
    var padded := fraction + Zeros(width - |fraction|);
    ValueThenZeros(fraction, width - |fraction|);
    ValueBound(padded);
    FixedOfValue(padded);
  }
}
