/** Token amounts as text: printing (apps/billing-chain-listener/src/rpc.rs) and canonical form
    (apps/billing-chain-listener/src/order_matcher.rs), the comparison that decides whether a transfer pays an order. */
module Amounts {
  import opened Arithmetic
  import opened Common
  import opened Decimals

  /** Decimal places of a canonical amount. */
  const SCALE: nat := 8

  /** The Unicode White_Space characters that `str::trim` removes. */
  predicate IsWhitespace(c: char) {
    || '\U{9}' <= c <= '\U{D}' || c == ' ' || c == '\U{85}' || c == '\U{A0}' || c == '\U{1680}'
    || '\U{2000}' <= c <= '\U{200A}' || c == '\U{2028}' || c == '\U{2029}' || c == '\U{202F}' || c == '\U{205F}'
        || c == '\U{3000}'
  }

  function TrimStart(s: string): (r: string)
    ensures |r| <= |s|
  {
    if s != "" && IsWhitespace(s[0]) then TrimStart(s[1..]) else s
  }

  function TrimEnd(s: string): (r: string)
    ensures |r| <= |s|
  {
    if s != "" && IsWhitespace(s[|s| - 1]) then TrimEnd(s[..|s| - 1]) else s
  }

  function Trim(s: string): string { TrimEnd(TrimStart(s)) }

  /** Position of the first '.', or the length. */
  function DotIndex(s: string): (i: nat)
    ensures i <= |s|
    ensures forall j :: 0 <= j < i ==> s[j] != '.'
    ensures i < |s| ==> s[i] == '.'
  {
    if s == "" || s[0] == '.' then 0 else 1 + DotIndex(s[1..])
  }

  function IntegerPart(s: string): string { s[..DotIndex(s)] }

  function FractionPart(s: string): string {
    if DotIndex(s) < |s| then s[DotIndex(s) + 1..] else ""
  }

  // ---------------------------------------------------------------- meaning

  ghost predicate Accepted(amount: string) {
    var s := Trim(amount);
    s != "" && IntegerPart(s) != "" && AllDigits(IntegerPart(s)) && AllDigits(FractionPart(s))
        && |FractionPart(s)| <= SCALE
  }

  /** The number an accepted amount denotes, in units of 10^-8. */
  ghost function Units(amount: string): nat
    requires Accepted(amount)
  {
    var s := Trim(amount);
    Value(IntegerPart(s)) * Pow10(SCALE) + Value(FractionPart(s)) * Pow10(SCALE - |FractionPart(s)|)
  }

  /** The one canonical text of a number of units. */
  function Render(units: nat): string { RenderAt(units, SCALE) }

  function RenderAt(units: nat, places: nat): string {
    Print(Quotient(units, Pow10(places))) + "." + Fixed(Rest(units, Pow10(places)), places)
  }

  // ---------------------------------------------------------------- the parser

  method ScanDigits(s: string) returns (ok: bool)
    ensures ok <==> AllDigits(s)
  {
    for i := 0 to |s|
      invariant forall j :: 0 <= j < i ==> IsDigit(s[j])
    {
      if !IsDigit(s[i]) {
        return false;
      }
    }
    return true;
  }

  /** Zeros are pushed until the fraction has all its places. */
  method PadFraction(fractional: string) returns (padded: string)
    requires |fractional| <= SCALE
    ensures padded == fractional + Zeros(SCALE - |fractional|)
  {
    padded := fractional;
    while |padded| < SCALE
      invariant |fractional| <= |padded| <= SCALE
      invariant padded == fractional + Zeros(|padded| - |fractional|)
    {
      padded := padded + ['0'];
    }
  }

  /** `canonicalize_amount`: accepts exactly the amounts that denote a number, and returns the number's canonical
      text. */
  method CanonicalizeAmount(amount: string) returns (r: Option<string>)
    ensures r.Some? <==> Accepted(amount)
    ensures r.Some? ==> r.value == Render(Units(amount))
  {
    var trimmed := Trim(amount);
    if trimmed == "" {
      return None;
    }
    var integer, fractional := IntegerPart(trimmed), FractionPart(trimmed);
    var integerOk := ScanDigits(integer);
    var fractionOk := ScanDigits(fractional);
    if integer == "" || !integerOk || !fractionOk || |fractional| > SCALE {
      return None;
    }
    var normalizedInteger := StripLeading(integer);
    var integerPart := if normalizedInteger == "" then "0" else normalizedInteger;
    var normalizedFractional := PadFraction(fractional);
    CanonicalParts(integer, fractional, SCALE);
    return Some(integerPart + "." + normalizedFractional);
  }

  lemma StripIsPrint(s: string)
    requires AllDigits(s)
    ensures (if StripLeading(s) == "" then "0" else StripLeading(s)) == Print(Value(s))
  {
    StripLeadingKeepsValue(s);
    if StripLeading(s) != "" {
      PrintOfValue(StripLeading(s));
    }
  }

  /** Canonical text of an integer and a fraction part, for any number of places. */
  lemma PartsRender(integer: string, fraction: string, places: nat)
    requires AllDigits(integer) && AllDigits(fraction) && |fraction| <= places
    ensures var units := Value(integer) * Pow10(places) + Value(fraction) * Pow10(places - |fraction|);
            && (if StripLeading(integer) == "" then "0" else StripLeading(integer))
                == Print(Quotient(units, Pow10(places)))
            && fraction + Zeros(places - |fraction|) == Fixed(Rest(units, Pow10(places)), places)
  {
    StripIsPrint(integer);
    PadIsFixed(fraction, places);
    DivModUnique(Value(integer) * Pow10(places) + Value(fraction) * Pow10(places - |fraction|),
                            Value(integer), Value(fraction) * Pow10(places - |fraction|), Pow10(places));
  }

  lemma CanonicalParts(integer: string, fraction: string, places: nat)
    requires AllDigits(integer) && AllDigits(fraction) && |fraction| <= places
    ensures (if StripLeading(integer) == "" then "0" else StripLeading(integer)) + "."
          + (fraction + Zeros(places - |fraction|))
            == RenderAt(Value(integer) * Pow10(places) + Value(fraction) * Pow10(places - |fraction|), places)
  {
    PartsRender(integer, fraction, places);
  }

  // ---------------------------------------------------------------- round trip

  lemma TrimOfPlain(s: string)
    requires s != "" ==> !IsWhitespace(s[0]) && !IsWhitespace(s[|s| - 1])
    ensures Trim(s) == s
  {
  }

  /** No white space is left at the ends. */
  lemma TrimEdges(s: string)
    ensures Trim(s) != "" ==> !IsWhitespace(Trim(s)[0]) && !IsWhitespace(Trim(s)[|Trim(s)| - 1])
  {
    StartEdge(s);
    EndEdge(TrimStart(s));
  }

  lemma {:induction false} StartEdge(s: string)
    ensures TrimStart(s) != "" ==> !IsWhitespace(TrimStart(s)[0])
  {
    if s != "" && IsWhitespace(s[0]) {
      StartEdge(s[1..]);
    }
  }

  lemma {:induction false} EndEdge(s: string)
    ensures TrimEnd(s) != "" ==> !IsWhitespace(TrimEnd(s)[|TrimEnd(s)| - 1]) && TrimEnd(s)[0] == s[0]
    ensures |TrimEnd(s)| <= |s|
  {
    if s != "" && IsWhitespace(s[|s| - 1]) {
      EndEdge(s[..|s| - 1]);
    }
  }

  lemma {:induction false} DotIndexOf(a: string, b: string)
    requires AllDigits(a)
    ensures DotIndex(a + "." + b) == |a|
  {
    var s := a + "." + b;
    assert s[|a|] == '.';
    assert forall j :: 0 <= j < |a| ==> s[j] == a[j];
  }

  lemma DigitsAreNotSpace(c: char)
    requires IsDigit(c)
    ensures !IsWhitespace(c) && c != '.'
  {
  }

  lemma PartsOf(a: string, b: string)
    requires AllDigits(a) && a != "" && AllDigits(b) && b != ""
    ensures Trim(a + "." + b) == a + "." + b
    ensures IntegerPart(a + "." + b) == a && FractionPart(a + "." + b) == b
  {
    var s := a + "." + b;
    DigitsAreNotSpace(s[0]);
    DigitsAreNotSpace(s[|s| - 1]);
    TrimOfPlain(s);
    DotIndexOf(a, b);
  }

  /** Every number of units has a canonical text, which is accepted and denotes it. */
  lemma RenderRoundTrip(units: nat)
    ensures Accepted(Render(units)) && Units(Render(units)) == units
  {
    var i, f := Quotient(units, Pow10(SCALE)), Rest(units, Pow10(SCALE));
    PartsOf(Print(i), Fixed(f, SCALE));
    PrintDenotes(i);
    ValueOfFixed(f, SCALE);
    assert Pow10(0) == 1;
    WholeAndRest(units, Pow10(SCALE));
  }

  /** A canonical text has eight decimals behind its dot, and its digits, read as one number, are the units of 10^-8. */
  lemma EightPlaces(units: nat)
    ensures var s := Render(units);
      && |s| > 9 && s[|s| - 9] == '.' && AllDigits(s[..|s| - 9]) && AllDigits(s[|s| - 8..])
      && Value(s[..|s| - 9]) * 100_000_000 + Value(s[|s| - 8..]) == units
  {
    var i, f := Quotient(units, Pow10(SCALE)), Rest(units, Pow10(SCALE));
    var whole, rest := Print(i), Fixed(f, SCALE);
    PrintDenotes(i);
    ValueOfFixed(f, SCALE);
    FixedLength(f, SCALE);
    WholeAndRest(units, Pow10(SCALE));
    var s := Render(units);
    assert s == whole + "." + rest && s[..|s| - 9] == whole && s[|s| - 8..] == rest;
    EightZeros();
  }

  lemma EightZeros()
    ensures Pow10(8) == 100_000_000
  {
    assert Pow10(4) == 10_000;
    Pow10Adds(4, 4);
  }

  lemma {:induction false} FixedLength(n: nat, width: nat)
    ensures |Fixed(n, width)| == width && AllDigits(Fixed(n, width))
  {
    if width > 0 {
      FixedLength(n / 10, width - 1);
    }
  }

  /** Two accepted amounts have the same canonical text exactly when they denote the same number. */
  lemma CanonicalEqualIffSameNumber(a: string, b: string)
    requires Accepted(a) && Accepted(b)
    ensures Render(Units(a)) == Render(Units(b)) <==> Units(a) == Units(b)
  {
    RenderRoundTrip(Units(a));
    RenderRoundTrip(Units(b));
  }

  /** `amounts_match` is numeric equality of two well-formed amounts. */
  method AmountsMatch(left: string, right: string) returns (same: bool)
    ensures same <==> Accepted(left) && Accepted(right) && Units(left) == Units(right)
  {
    var l := CanonicalizeAmount(left);
    var r := CanonicalizeAmount(right);
    if l.Some? && r.Some? {
      CanonicalEqualIffSameNumber(left, right);
    }
    same := l.Some? && r.Some? && l.value == r.value;
  }

  // ---------------------------------------------------------------- printing a token amount

  /** Drop trailing zeros. */
  function StripTrailing(s: string): (r: string)
    ensures |r| <= |s| && s == r + Zeros(|s| - |r|)
    ensures r != "" ==> r[|r| - 1] != '0'
  {
    if s != "" && s[|s| - 1] == '0' then
      var r := StripTrailing(s[..|s| - 1]);
      assert Zeros(|s| - |r|) == Zeros(|s| - 1 - |r|) + ['0'];
      r
    else s
  }

  /** The text of `amount / 10^decimals` without superfluous zeros. */
  function Printed(amount: nat, decimals: nat): string {
    Joined(Quotient(amount, Pow10(decimals)), Rest(amount, Pow10(decimals)), decimals)
  }

  function Joined(integer: nat, fraction: nat, decimals: nat): string {
    if fraction == 0 then Print(integer) else Print(integer) + "." + StripTrailing(Fixed(fraction, decimals))
  }

  lemma {:induction false} PaddedPrintIsFixed(n: nat, width: nat)
    requires n < Pow10(width) && width > 0
    ensures |Print(n)| <= width && Zeros(width - |Print(n)|) + Print(n) == Fixed(n, width)
  {
    if n < 10 {
      PaddedDigit(n, width);
    } else {
      assert width > 1 by {
        assert Pow10(0) == 1 && Pow10(1) == 10;
      }
      WithoutLastDigit(n, Pow10(width - 1));
      PaddedPrintIsFixed(n / 10, width - 1);
      LastDigitBehind(Zeros(width - 1 - |Print(n / 10)|), Print(n / 10), DigitChar(n % 10));
    }
  }

  lemma PaddedDigit(n: nat, width: nat)
    requires n < 10 && width > 0
    ensures |Print(n)| == 1 && Zeros(width - 1) + Print(n) == Fixed(n, width)
  {
    PrintDenotes(n);
    ValueOfZeros(width - 1);
    ValueConcat(Zeros(width - 1), Print(n));
    FixedOfValue(Zeros(width - 1) + Print(n));
  }

  lemma LastDigitBehind(zeros: string, digits: string, last: char)
    ensures zeros + (digits + [last]) == (zeros + digits) + [last]
  {
  }

  lemma PrintedWithoutPlaces(amount: nat)
    ensures Printed(amount, 0) == Print(amount)
  {
    assert Pow10(0) == 1;
    assert amount / 1 == amount && amount % 1 == 0;
  }

  /** `biguint_to_decimal_string`. */
  method DecimalString(amount: nat, decimals: nat) returns (text: string)
    ensures text == Printed(amount, decimals)
  {
    if decimals == 0 {
      PrintedWithoutPlaces(amount);
      return Print(amount);
    }
    var scale := Pow10(decimals);
    var integer, fractional := Quotient(amount, scale), Rest(amount, scale);
    text := Join(integer, fractional, decimals);
  }

  method Join(integer: nat, fractional: nat, decimals: nat) returns (text: string)
    requires decimals > 0 && fractional < Pow10(decimals)
    ensures text == Joined(integer, fractional, decimals)
  {
    if fractional == 0 {
      return Print(integer);
    }
    var fractionalText := FractionText(fractional, decimals);
    return Print(integer) + "." + fractionalText;
  }

  /** Pad the remainder to its width, then pop trailing zeros. */
  method FractionText(fractional: nat, width: nat) returns (text: string)
    requires fractional < Pow10(width) && width > 0
    ensures text == StripTrailing(Fixed(fractional, width))
  {
    text := Print(fractional);
    PaddedPrintIsFixed(fractional, width);
    if |text| < width {
      text := Zeros(width - |text|) + text;
    } else {
      assert Zeros(0) + text == text;
    }
    text := PopZeros(text);
  }

  method PopZeros(padded: string) returns (text: string)
    ensures text == StripTrailing(padded)
  {
    text := padded;
    while text != "" && text[|text| - 1] == '0'
      invariant StripTrailing(text) == StripTrailing(padded)
      decreases |text|
    {
      text := text[..|text| - 1];
    }
  }

  lemma PrefixDigits(t: string, s: string)
    requires AllDigits(s) && |t| <= |s| && s == t + Zeros(|s| - |t|)
    ensures AllDigits(t) && Value(s) == Value(t) * Pow10(|s| - |t|)
  {
    ValueThenZeros(t, |s| - |t|);
    forall i | 0 <= i < |t| ensures IsDigit(t[i]) {
      assert t[i] == s[i];
    }
  }

  /** The fraction that is printed: no trailing zero, and worth the remainder. */
  lemma PrintedFraction(f: nat, width: nat)
    requires 0 < f < Pow10(width)
    ensures var t := StripTrailing(Fixed(f, width));
            t != "" && AllDigits(t) && |t| <= width && t[|t| - 1] != '0' && Value(t) * Pow10(width - |t|) == f
  {
    var s := Fixed(f, width);
    ValueOfFixed(f, width);
    PrefixDigits(StripTrailing(s), s);
    assert Value("") == 0;
  }

  lemma PlainParts(a: string)
    requires AllDigits(a) && a != ""
    ensures Trim(a) == a && IntegerPart(a) == a && FractionPart(a) == ""
  {
    DigitsAreNotSpace(a[0]);
    DigitsAreNotSpace(a[|a| - 1]);
    TrimOfPlain(a);
    assert DotIndex(a) == |a|;
  }

  lemma WholeAmount(integer: nat)
    ensures Accepted(Print(integer)) && Units(Print(integer)) == integer * Pow10(SCALE)
  {
    PlainParts(Print(integer));
    PrintDenotes(integer);
    assert Value("") == 0;
  }

  /** With at most eight places left the printed amount is accepted and worth what it should be. */
  lemma FractionAmount(integer: nat, t: string)
    requires AllDigits(t) && t != ""
    ensures Accepted(Print(integer) + "." + t) <==> |t| <= SCALE
    ensures |t| <= SCALE ==> Units(Print(integer) + "." + t) == integer * Pow10(SCALE) + Value(t) * Pow10(SCALE - |t|)
  {
    PartsOf(Print(integer), t);
    PrintDenotes(integer);
  }

  lemma Exchange(v: nat, n: nat, d: nat, e: nat)
    requires n <= d && n <= e
    ensures (v * Pow10(e - n)) * Pow10(d) == (v * Pow10(d - n)) * Pow10(e)
  {
    Pow10Adds(e - n, d);
    Pow10Adds(d - n, e);
    assert (e - n) + d == (d - n) + e;
    Associate(v, Pow10(e - n), Pow10(d));
    Associate(v, Pow10(d - n), Pow10(e));
  }

  /** amount * 10^8 == units * 10^decimals, when the remainder has at most eight significant places. */
  lemma ExactUnits(amount: nat, decimals: nat, v: nat, n: nat)
    requires n <= decimals && n <= SCALE && v * Pow10(decimals - n) == Rest(amount, Pow10(decimals))
    ensures (Quotient(amount, Pow10(decimals)) * Pow10(SCALE) + v * Pow10(SCALE - n)) * Pow10(decimals)
          == amount * Pow10(SCALE)
  {
    Exchange(v, n, decimals, SCALE);
    ScaledParts(amount, Pow10(decimals), Pow10(SCALE), v * Pow10(SCALE - n));
  }

  lemma CancelPlaces(f: int, m: int, d: nat, e: nat)
    requires e <= d && f * Pow10(e) == m * Pow10(d)
    ensures f == m * Pow10(d - e)
  {
    Pow10Adds(d - e, e);
    Associate(m, Pow10(d - e), Pow10(e));
    Cancel(f, m * Pow10(d - e), Pow10(e));
  }

  lemma TrailingZero(v: nat, m: int, k: nat)
    requires k > 0 && v == m * Pow10(k)
    ensures v % 10 == 0
  {
    Regroup(m, Pow10(k - 1));
    TenTimes(m * Pow10(k - 1));
  }

  /** More than eight significant places: the amount is not a whole number of units. */
  lemma NotExact(amount: nat, decimals: nat, v: nat, n: nat)
    requires SCALE < n <= decimals && v % 10 != 0 && v * Pow10(decimals - n) == Rest(amount, Pow10(decimals))
    ensures (amount * Pow10(SCALE)) % Pow10(decimals) != 0
  {
    if (amount * Pow10(SCALE)) % Pow10(decimals) == 0 {
      var m := RemainderMultiple(amount, Pow10(SCALE), Pow10(decimals));
      CancelPlaces(Rest(amount, Pow10(decimals)), m, decimals, SCALE);
      CancelPlaces(v, m, decimals - SCALE, decimals - n);
      TrailingZero(v, m, n - SCALE);
    }
  }

  lemma TenTimes(x: int)
    ensures (10 * x) % 10 == 0
  {
  }

  lemma LastDigit(t: string)
    requires AllDigits(t) && t != "" && t[|t| - 1] != '0'
    ensures Value(t) % 10 != 0
  {
    SplitLast(Value(t[..|t| - 1]), DigitValue(t[|t| - 1]));
  }

  lemma ExactIsDivisible(amount: nat, decimals: nat, units: nat)
    requires units * Pow10(decimals) == amount * Pow10(SCALE)
    ensures (amount * Pow10(SCALE)) % Pow10(decimals) == 0
  {
    MultipleAligned(units, Pow10(decimals));
  }

  ghost predicate WorthOf(text: string, amount: nat, decimals: nat) {
    Accepted(text) && Units(text) * Pow10(decimals) == amount * Pow10(SCALE)
  }

  lemma WholeExact(amount: nat, decimals: nat)
    requires Rest(amount, Pow10(decimals)) == 0
    ensures WorthOf(Print(Quotient(amount, Pow10(decimals))), amount, decimals)
  {
    WholeAmount(Quotient(amount, Pow10(decimals)));
    ScaledWhole(amount, Pow10(decimals), Pow10(SCALE));
  }

  lemma FractionExact(amount: nat, decimals: nat, t: string)
    requires t != "" && AllDigits(t) && |t| <= decimals && t[|t| - 1] != '0'
    requires Value(t) * Pow10(decimals - |t|) == Rest(amount, Pow10(decimals))
    ensures var text := Print(Quotient(amount, Pow10(decimals))) + "." + t;
            if |t| <= SCALE then WorthOf(text, amount, decimals)
            else !Accepted(text) && (amount * Pow10(SCALE)) % Pow10(decimals) != 0
  {
    FractionAmount(Quotient(amount, Pow10(decimals)), t);
    if |t| <= SCALE {
      ExactUnits(amount, decimals, Value(t), |t|);
    } else {
      LastDigit(t);
      NotExact(amount, decimals, Value(t), |t|);
    }
  }

  /** Canonicalising a printed token amount succeeds exactly when the amount is a whole number of 10^-8 units, that is
      when 10^decimals divides amount * 10^8, and then it denotes amount / 10^decimals. */
  lemma PrintedAcceptedIffExact(amount: nat, decimals: nat)
    ensures Accepted(Printed(amount, decimals)) <==> (amount * Pow10(SCALE)) % Pow10(decimals) == 0
    ensures Accepted(Printed(amount, decimals)) ==>
          Units(Printed(amount, decimals)) * Pow10(decimals) == amount * Pow10(SCALE)
  {
    if Rest(amount, Pow10(decimals)) == 0 {
      WholeExact(amount, decimals);
    } else {
      PrintedFraction(Rest(amount, Pow10(decimals)), decimals);
      FractionExact(amount, decimals, StripTrailing(Fixed(Rest(amount, Pow10(decimals)), decimals)));
    }
    if Accepted(Printed(amount, decimals)) {
      ExactIsDivisible(amount, decimals, Units(Printed(amount, decimals)));
    }
  }

  // ---------------------------------------------------------------- matching an assignment

  datatype Transfer = Transfer(chain: string, address: string, amount: string)

  datatype Match = Matched(same: bool) | InvalidAmount

  /** `matches_assignment`: amounts are parsed only when chain and address agree. */
  method MatchesAssignment(chain: string, address: string, expectedAmount: string, transfer: Transfer)
      returns (r: Match)
    ensures r == Matched(true) <==>
              chain == transfer.chain && address == transfer.address &&
              Accepted(expectedAmount) && Accepted(transfer.amount) && Units(expectedAmount) == Units(transfer.amount)
    ensures r == InvalidAmount <==>
              chain == transfer.chain && address == transfer.address
                  && !(Accepted(expectedAmount) && Accepted(transfer.amount))
  {
    if chain != transfer.chain || address != transfer.address {
      return Matched(false);
    }
    var expected := CanonicalizeAmount(expectedAmount);
    if expected.None? {
      return InvalidAmount;
    }
    var observed := CanonicalizeAmount(transfer.amount);
    if observed.None? {
      return InvalidAmount;
    }
    CanonicalEqualIffSameNumber(expectedAmount, transfer.amount);
    return Matched(expected.value == observed.value);
  }
}
