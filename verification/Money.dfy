/**
 Money amounts: exact numbers, rounded half away from zero, printed and read back. Amounts are reals, which
 include every decimal; the 28-digit precision of the decimal library is not part of the model.
 */
module Money {
  import opened Wrappers
  import opened Text

  // ---------------------------------------------------------------- rounding

  /** ROUND_HALF_UP: to the nearest integer, halves away from zero. */
  function HalfUp(y: real): int {
    if y >= 0.0 then (y + 0.5).Floor else -((-y + 0.5).Floor)
  }

  /** The amount in units of the last of d places: x times ten to the d. */
  function Shift(x: real, d: nat): real
    decreases d
  {
    if d == 0 then x else 10.0 * Shift(x, d - 1)
  }

  /** The other way: y divided by ten to the d. */
  function Unshift(y: real, d: nat): real
    decreases d
  {
    if d == 0 then y else Unshift(y / 10.0, d - 1)
  }

  function Units(x: real, d: nat): int {
    HalfUp(Shift(x, d))
  }

  function Round(x: real, d: nat): real {
    Unshift(Units(x, d) as real, d)
  }

  function Abs(x: real): real {
    if x >= 0.0 then x else -x
  }

  lemma {:induction false} ShiftUndoesUnshift(y: real, d: nat)
    ensures Shift(Unshift(y, d), d) == y
    decreases d
  {
    if d > 0 {
      ShiftUndoesUnshift(y / 10.0, d - 1);
    }
  }

  lemma {:induction false} UnshiftUndoesShift(x: real, d: nat)
    ensures Unshift(Shift(x, d), d) == x
    decreases d
  {
    if d > 0 {
      UnshiftUndoesShift(x, d - 1);
    }
  }

  lemma {:induction false} ShiftAdds(x: real, d: nat, k: nat)
    ensures Shift(x, d + k) == Shift(Shift(x, d), k)
    decreases k
  {
    if k > 0 {
      ShiftAdds(x, d, k - 1);
    }
  }

  lemma {:induction false} ShiftedInteger(n: int, k: nat) returns (m: int)
    ensures Shift(n as real, k) == m as real
    decreases k
  {
    if k == 0 {
      m := n;
    } else {
      var m' := ShiftedInteger(n, k - 1);
      m := 10 * m';
    }
  }

  lemma {:induction false} ShiftIsMonotone(x: real, y: real, d: nat)
    requires x <= y
    ensures Shift(x, d) <= Shift(y, d) && Unshift(x, d) <= Unshift(y, d)
    decreases d
  {
    if d > 0 {
      ShiftIsMonotone(x, y, d - 1);
      ShiftIsMonotone(x / 10.0, y / 10.0, d - 1);
    }
  }

  lemma {:induction false} ShiftIsOdd(x: real, d: nat)
    ensures Shift(-x, d) == -Shift(x, d) && Unshift(-x, d) == -Unshift(x, d)
    decreases d
  {
    if d > 0 {
      ShiftIsOdd(x, d - 1);
      ShiftIsOdd(x / 10.0, d - 1);
      assert (-x) / 10.0 == -(x / 10.0);
    }
  }

  /** The rounded integer is the one within half a unit, and of two such the one further from zero. */
  lemma HalfUpIsNearestIff(y: real, n: int)
    ensures HalfUp(y) == n <==>
      if y >= 0.0 then n as real - 0.5 <= y < n as real + 0.5 else n as real - 0.5 < y <= n as real + 0.5
  {
  }

  lemma IntegerIsRounded(n: int)
    ensures HalfUp(n as real) == n
  {
    HalfUpIsNearestIff(n as real, n);
  }

  /** The rounded amount is a whole number of units, at most half a unit from the amount, ties going outwards. */
  lemma RoundIsNearest(x: real, d: nat)
    ensures Shift(Round(x, d), d) == Units(x, d) as real
    ensures Abs(Units(x, d) as real - Shift(x, d)) <= 0.5
    ensures Abs(Units(x, d) as real - Shift(x, d)) == 0.5 ==> Abs(Units(x, d) as real) > Abs(Shift(x, d))
  {
    ShiftUndoesUnshift(Units(x, d) as real, d);
    HalfUpIsNearestIff(Shift(x, d), Units(x, d));
  }

  /** A rounded amount is left alone by rounding to as many places or more. */
  lemma RoundIsIdempotent(x: real, d: nat, e: nat)
    requires d <= e
    ensures Round(Round(x, d), e) == Round(x, d)
  {
    var y := Round(x, d);
    ShiftUndoesUnshift(Units(x, d) as real, d);
    ShiftAdds(y, d, e - d);
    var m := ShiftedInteger(Units(x, d), e - d);
    IntegerIsRounded(m);
    UnshiftUndoesShift(y, e);
  }

  lemma RoundIsMonotone(x: real, y: real, d: nat)
    requires x <= y
    ensures Round(x, d) <= Round(y, d)
  {
    ShiftIsMonotone(x, y, d);
    assert Units(x, d) <= Units(y, d);
    ShiftIsMonotone(Units(x, d) as real, Units(y, d) as real, d);
  }

  /** Rounding treats both signs alike. */
  lemma RoundIsOdd(x: real, d: nat)
    ensures Round(-x, d) == -Round(x, d)
  {
    ShiftIsOdd(x, d);
    assert Units(-x, d) == -Units(x, d);
    ShiftIsOdd(Units(x, d) as real, d);
  }

  // ---------------------------------------------------------------- printing

  function Magnitude(n: int): nat {
    if n >= 0 then n else -n
  }

  /** toFixed: the sign is that of the amount before rounding, so a small negative amount prints as -0.00. */
  function ToFixed(x: real, d: nat): string {
    (if x < 0.0 then "-" else "") + Fixed(Magnitude(Units(x, d)), d)
  }

  function WholePart(units: nat, p: nat): nat
    requires p >= 1
  {
    units / p
  }

  function Remainder(units: nat, p: nat): (r: nat)
    requires p >= 1
    ensures r < p && units == WholePart(units, p) * p + r
  {
    units % p
  }

  function Fixed(units: nat, d: nat): string {
    Digits(WholePart(units, Pow10(d))) + if d == 0 then "" else "." + PadLeft(Digits(Remainder(units, Pow10(d))), d)
  }

  // ----------------------------------------------------------------- reading

  function DropSpaces(s: string): string {
    if s == "" then "" else (if IsSpace(s[0]) then "" else [s[0]]) + DropSpaces(s[1..])
  }

  function IndexOf(s: string, c: char): (i: nat)
    ensures i <= |s| && (i < |s| ==> s[i] == c) && forall j :: 0 <= j < i ==> s[j] != c
  {
    if s == "" then 0 else if s[0] == c then 0 else 1 + IndexOf(s[1..], c)
  }

  /** Spaces go, and the first comma becomes a dot. */
  function NormalizeDecimalString(raw: string): string {
    var s := DropSpaces(Trim(raw));
    var comma := IndexOf(s, ',');
    if comma < |s| then s[comma := '.'] else s
  }

  /** A plain decimal: digits with at most one dot among them, and at least one digit. */
  function ParseUnsigned(s: string): Option<real> {
    var dot := IndexOf(s, '.');
    var whole, fraction := s[..dot], if dot < |s| then s[dot + 1..] else "";
    if whole + fraction != "" && AllDigits(whole) && AllDigits(fraction) then Some(Unshift(Value(whole + fraction) as real, |fraction|))
    else None
  }

  function ParseSigned(s: string): Option<real> {
    if s != "" && s[0] == '-' then
      match ParseUnsigned(s[1..])
      case None => None
      case Some(x) => Some(-x)
    else if s != "" && s[0] == '+' then ParseUnsigned(s[1..])
    else ParseUnsigned(s)
  }

  /** new Money(text): the normalized text read as a signed decimal; anything else is refused. */
  function ParseMoney(raw: string): Option<real> {
    ParseSigned(NormalizeDecimalString(raw))
  }

  predicate PlainChar(c: char) {
    IsDigit(c) || c == '-' || c == '.'
  }

  predicate Plain(s: string) {
    forall i :: 0 <= i < |s| ==> PlainChar(s[i])
  }

  lemma {:induction false} NothingToDrop(s: string)
    requires Plain(s)
    ensures DropSpaces(s) == s && IndexOf(s, ',') == |s|
  {
    if s != "" {
      assert PlainChar(s[0]);
      NothingToDrop(s[1..]);
      assert s == [s[0]] + s[1..];
    }
  }

  lemma PlainIsNormal(s: string)
    requires Plain(s)
    ensures NormalizeDecimalString(s) == s
  {
    if s != "" {
      assert PlainChar(s[0]) && PlainChar(s[|s| - 1]);
    }
    assert TrimStart(s) == s && TrimEnd(s) == s;
    NothingToDrop(s);
  }

  lemma {:induction false} NoDotInDigits(s: string, rest: string)
    requires AllDigits(s)
    ensures IndexOf(s, '.') == |s| && IndexOf(s + "." + rest, '.') == |s|
  {
    if s != "" {
      assert IsDigit(s[0]);
      NoDotInDigits(s[1..], rest);
      assert (s + "." + rest)[1..] == s[1..] + "." + rest;
    }
  }

  lemma RemainderPads(r: nat, d: nat)
    requires d > 0 && r < Pow10(d)
    ensures |PadLeft(Digits(r), d)| == d && AllDigits(PadLeft(Digits(r), d)) && Value(PadLeft(Digits(r), d)) == r
  {
    ValueOfPadded(r, d);
    DigitsLength(r, d);
  }

  lemma ReadParts(whole: string, rest: string)
    requires whole != "" && AllDigits(whole) && AllDigits(rest)
    ensures AllDigits(whole + rest)
    ensures ParseUnsigned(whole + "." + rest) == Some(Unshift(Value(whole + rest) as real, |rest|))
  {
    var s := whole + "." + rest;
    NoDotInDigits(whole, rest);
    assert s[..|whole|] == whole && s[|whole| + 1..] == rest;
  }

  lemma ReadWhole(whole: string)
    requires whole != "" && AllDigits(whole)
    ensures ParseUnsigned(whole) == Some(Value(whole) as real)
  {
    NoDotInDigits(whole, "");
    assert whole[..|whole|] == whole && whole + "" == whole;
  }

  lemma FixedIsPlain(units: nat, d: nat)
    ensures Plain(Fixed(units, d)) && IsDigit(Fixed(units, d)[0])
  {
    var whole := Digits(WholePart(units, Pow10(d)));
    assert IsDigit(whole[0]);
    if d > 0 {
      RemainderPads(Remainder(units, Pow10(d)), d);
    }
  }

  lemma DigitsOfParts(units: nat, d: nat, whole: string, rest: string)
    requires d > 0 && whole == Digits(WholePart(units, Pow10(d))) && rest == PadLeft(Digits(Remainder(units, Pow10(d))), d)
    ensures |rest| == d && AllDigits(whole) && AllDigits(rest) && AllDigits(whole + rest) && Value(whole + rest) == units
  {
    ValueOfDigits(WholePart(units, Pow10(d)));
    RemainderPads(Remainder(units, Pow10(d)), d);
    ValueOfConcat(whole, rest);
  }

  lemma WholeRoundTrip(units: nat)
    ensures ParseUnsigned(Fixed(units, 0)) == Some(units as real)
  {
    assert Pow10(0) == 1 && WholePart(units, 1) == units;
    assert Fixed(units, 0) == Digits(units);
    ValueOfDigits(units);
    ReadWhole(Digits(units));
  }

  lemma PartsRoundTrip(units: nat, d: nat, whole: string, rest: string)
    requires d > 0 && whole == Digits(WholePart(units, Pow10(d))) && rest == PadLeft(Digits(Remainder(units, Pow10(d))), d)
    ensures ParseUnsigned(whole + "." + rest) == Some(Unshift(units as real, d))
  {
    DigitsOfParts(units, d, whole, rest);
    ReadParts(whole, rest);
  }

  /** Reading a printed number of units gives them back. */
  lemma FixedRoundTrip(units: nat, d: nat)
    ensures ParseUnsigned(Fixed(units, d)) == Some(Unshift(units as real, d))
  {
    if d == 0 {
      WholeRoundTrip(units);
    } else {
      var whole, rest := Digits(WholePart(units, Pow10(d))), PadLeft(Digits(Remainder(units, Pow10(d))), d);
      PartsRoundTrip(units, d, whole, rest);
      assert Fixed(units, d) == whole + "." + rest;
    }
  }

  lemma UnitsKeepSign(x: real, d: nat)
    ensures if x < 0.0 then Units(x, d) <= 0 else Units(x, d) >= 0
  {
    ShiftOfZero(d);
    if x < 0.0 {
      ShiftIsMonotone(x, 0.0, d);
    } else {
      ShiftIsMonotone(0.0, x, d);
    }
  }

  lemma {:induction false} ShiftOfZero(d: nat)
    ensures Shift(0.0, d) == 0.0
  {
    if d > 0 {
      ShiftOfZero(d - 1);
    }
  }

  lemma ReadPositive(s: string)
    requires s != "" && Plain(s) && IsDigit(s[0])
    ensures ParseMoney(s) == ParseUnsigned(s)
  {
    PlainIsNormal(s);
  }

  lemma SignedNegative(s: string, digits: string)
    requires s != "" && s[0] == '-' && s[1..] == digits && ParseUnsigned(digits).Some?
    ensures ParseSigned(s) == Some(-ParseUnsigned(digits).value)
  {
  }

  lemma ReadNegative(s: string, digits: string)
    requires Plain(digits) && s == "-" + digits && ParseUnsigned(digits).Some?
    ensures ParseMoney(s) == Some(-ParseUnsigned(digits).value)
  {
    assert Plain(s) && s[0] == '-' && s[1..] == digits;
    PlainIsNormal(s);
    SignedNegative(s, digits);
  }

  lemma NegatedMagnitude(n: int, d: nat)
    requires n <= 0
    ensures -Unshift(Magnitude(n) as real, d) == Unshift(n as real, d)
  {
    ShiftIsOdd(n as real, d);
    assert Magnitude(n) as real == -(n as real);
  }

  lemma FixedReads(units: nat, d: nat, digits: string)
    requires digits == Fixed(units, d)
    ensures digits != "" && Plain(digits) && IsDigit(digits[0]) && ParseUnsigned(digits) == Some(Unshift(units as real, d))
  {
    FixedRoundTrip(units, d);
    FixedIsPlain(units, d);
  }

  lemma PrintedParts(x: real, d: nat, text: string, digits: string)
    requires text == ToFixed(x, d) && digits == Fixed(Magnitude(Units(x, d)), d)
    ensures if x < 0.0 then text == "-" + digits else text == digits
  {
  }

  lemma ReadPrintedNegative(n: int, d: nat, text: string, digits: string)
    requires n <= 0 && text == "-" + digits && Plain(digits)
    requires ParseUnsigned(digits) == Some(Unshift(Magnitude(n) as real, d))
    ensures ParseMoney(text) == Some(Unshift(n as real, d))
  {
    hide *;
    ReadNegative(text, digits);
    NegatedMagnitude(n, d);
  }

  /** Reading a printed amount gives exactly the amount rounded to the places printed. */
  lemma PrintedAmountReadsBack(x: real, d: nat, text: string)
    requires text == ToFixed(x, d)
    ensures ParseMoney(text) == Some(Round(x, d))
  {
    var digits := Fixed(Magnitude(Units(x, d)), d);
    FixedReads(Magnitude(Units(x, d)), d, digits);
    PrintedParts(x, d, text, digits);
    UnitsKeepSign(x, d);
    if x < 0.0 {
      ReadPrintedNegative(Units(x, d), d, text, digits);
    } else {
      ReadPositive(text);
    }
  }

  lemma {:induction false} UnshiftKeepsSign(y: real, d: nat)
    ensures Unshift(y, d) < 0.0 <==> y < 0.0
    decreases d
  {
    if d > 0 {
      UnshiftKeepsSign(y / 10.0, d - 1);
    }
  }

  lemma RoundedUnits(x: real, d: nat)
    ensures Units(Round(x, d), d) == Units(x, d) && (Round(x, d) < 0.0 <==> Units(x, d) < 0)
  {
    ShiftUndoesUnshift(Units(x, d) as real, d);
    IntegerIsRounded(Units(x, d));
    UnshiftKeepsSign(Units(x, d) as real, d);
  }

  /** So a printed amount, read and printed again, comes out the same, except that -0.00 loses its sign. */
  lemma PrintingIsStableIff(x: real, d: nat)
    ensures ToFixed(Round(x, d), d) == ToFixed(x, d) <==> !(x < 0.0 && Units(x, d) == 0)
  {
    RoundedUnits(x, d);
    UnitsKeepSign(x, d);
    var digits := Fixed(Magnitude(Units(x, d)), d);
    FixedIsPlain(Magnitude(Units(x, d)), d);
    assert |"-" + digits| != |"" + digits|;
  }

  /** A tenth of a cent owed is printed "-0.00", which reads as zero and is printed "0.00" from then on. */
  lemma MinusZeroLosesItsSign()
    ensures ToFixed(-0.001, 2) == "-0.00" && ParseMoney("-0.00") == Some(0.0) && ToFixed(0.0, 2) == "0.00"
  {
    assert Shift(-0.001, 2) == 10.0 * Shift(-0.001, 1) == -0.1;
    assert Units(-0.001, 2) == 0;
    assert Shift(0.0, 2) == 10.0 * Shift(0.0, 1) == 0.0;
    ZeroPrinted();
    assert Unshift(0.0, 2) == Unshift(0.0, 1) == 0.0;
    PrintedAmountReadsBack(-0.001, 2, "-0.00");
  }

  lemma ZeroPrinted()
    ensures Fixed(0, 2) == "0.00"
  {
    assert Zeros(1) == "0" && Zeros(0) == "";
  }
}
