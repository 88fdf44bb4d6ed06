/**
 Human-readable numbers: PREFIX-YYYYMMDD-0001 for documents and PREFIX-0001 for catalog codes. Printing,
 parsing back, and allocating the next free one. Prefixes are ASCII.
 */
module DocumentNumbers {
  import opened Wrappers
  import opened Text

  // ---------------------------------------------------------------- prefixes

  predicate IsCodeChar(c: char) {
    'A' <= c <= 'Z' || '0' <= c <= '9'
  }

  function KeepCodeChars(s: string): (r: string)
    ensures forall i :: 0 <= i < |r| ==> IsCodeChar(r[i])
  {
    if s == "" then ""
    else (if IsCodeChar(s[0]) then [s[0]] else "") + KeepCodeChars(s[1..])
  }

  function CleanPrefix(prefix: string): (p: string)
    ensures 1 <= |p| <= 8 && forall i :: 0 <= i < |p| ==> IsCodeChar(p[i])
  {
    var kept := KeepCodeChars(Upper(Trim(prefix)));
    var cut := if |kept| > 8 then kept[..8] else kept;
    if cut == "" then "X" else cut
  }

  lemma {:induction false} KeepsAll(s: string)
    requires forall i :: 0 <= i < |s| ==> IsCodeChar(s[i])
    ensures KeepCodeChars(s) == s && Upper(s) == s
  {
    if s != "" {
      KeepsAll(s[1..]);
      assert s == [s[0]] + s[1..];
    }
    assert Upper(s) == s;
  }

  /** A cleaned prefix is left alone: the allocator hands its own to the printer, which cleans it again. */
  lemma CleanPrefixIsIdempotent(prefix: string)
    ensures CleanPrefix(CleanPrefix(prefix)) == CleanPrefix(prefix)
  {
    var p := CleanPrefix(prefix);
    KeepsAll(p);
    assert IsCodeChar(p[0]) && IsCodeChar(p[|p| - 1]);
    assert TrimStart(p) == p && TrimEnd(p) == p;
  }

  // ---------------------------------------------------------------- printing

  /** A local calendar day. */
  datatype Day = Day(year: nat, month: nat, day: nat) {
    predicate Valid() {
      1 <= month <= 12 && 1 <= day <= 31
    }
  }

  function FormatDayKey(d: Day): string {
    Digits(d.year) + PadLeft(Digits(d.month), 2) + PadLeft(Digits(d.day), 2)
  }

  function DayPrefix(prefix: string, d: Day): string {
    CleanPrefix(prefix) + "-" + FormatDayKey(d) + "-"
  }

  /** String(seq).padStart(4, '0') */
  function Serial(n: nat): string {
    PadLeft(Digits(n), 4)
  }

  function FormatDocumentNumber(prefix: string, d: Day, n: nat): string {
    CleanPrefix(prefix) + "-" + FormatDayKey(d) + "-" + Serial(n)
  }

  function CodeHead(prefix: string): string {
    CleanPrefix(prefix) + "-"
  }

  function FormatSequentialCode(prefix: string, n: nat): string {
    CleanPrefix(prefix) + "-" + Serial(n)
  }

  // ----------------------------------------------------------------- parsing

  /** A tail of one to eight digits behind the head. */
  function ParseSerial(s: string, head: string): Option<nat> {
    if !(head <= s) then None
    else
      var tail := s[|head|..];
      if 1 <= |tail| <= 8 && AllDigits(tail) then Some(Value(tail)) else None
  }

  function ParseDocumentSeq(number: string, dayPrefix: string): Option<nat> {
    ParseSerial(number, dayPrefix)
  }

  /** The test for a dash in the tail is subsumed by the digits test. */
  function ParseSequentialCodeSeq(code: string, prefix: string): Option<nat> {
    var head := CodeHead(prefix);
    if !(head <= code) then None
    else if code[|head|..] == "" || '-' in code[|head|..] then None
    else ParseSerial(code, head)
  }

  const LIMIT := 100_000_000

  lemma LimitIsPow()
    ensures Pow10(8) == LIMIT && Pow10(4) == 10_000
  {
    assert Pow10(2) == 10 * Pow10(1) && Pow10(1) == 10 * Pow10(0);
    assert Pow10(4) == 10 * Pow10(3) && Pow10(3) == 10 * Pow10(2);
    assert Pow10(6) == 10 * Pow10(5) && Pow10(5) == 10 * Pow10(4);
    assert Pow10(8) == 10 * Pow10(7) && Pow10(7) == 10 * Pow10(6);
  }

  lemma SerialParses(head: string, n: nat)
    ensures ParseSerial(head + Serial(n), head) == if n < LIMIT then Some(n) else None
  {
    LimitIsPow();
    DigitsLength(n, 8);
    ValueOfPadded(n, 4);
    assert (head + Serial(n))[|head|..] == Serial(n);
  }

  lemma DocumentNumberIsHeadAndSerial(prefix: string, d: Day, n: nat)
    ensures FormatDocumentNumber(prefix, d, n) == DayPrefix(prefix, d) + Serial(n)
  {
  }

  /** Parsing undoes printing exactly for serials of up to eight digits; a longer one is not recognized at all. */
  lemma DocumentNumberRoundTrip(prefix: string, d: Day, n: nat)
    ensures ParseDocumentSeq(FormatDocumentNumber(prefix, d, n), DayPrefix(prefix, d)) == if n < LIMIT then Some(n) else None
  {
    DocumentNumberIsHeadAndSerial(prefix, d, n);
    SerialParses(DayPrefix(prefix, d), n);
  }

  lemma SequentialCodeRoundTrip(prefix: string, n: nat)
    ensures ParseSequentialCodeSeq(FormatSequentialCode(prefix, n), prefix) == if n < LIMIT then Some(n) else None
  {
    var head := CodeHead(prefix);
    SerialParses(head, n);
    ValueOfPadded(n, 4);
    assert FormatSequentialCode(prefix, n) == head + Serial(n);
    assert (head + Serial(n))[|head|..] == Serial(n);
  }

  // ------------------------------------------------- printing after parsing

  /** A serial as the printer writes it: four digits, or more without a leading zero. */
  predicate Canonical(tail: string) {
    |tail| == 4 || (|tail| > 4 && tail[0] != '0')
  }

  lemma {:induction false} DigitsOfValue(s: string)
    requires s != "" && AllDigits(s) && (s[0] != '0' || |s| == 1)
    ensures Digits(Value(s)) == s
  {
    if |s| == 1 {
      assert Value(s[..0]) == 0;
    } else {
      var rest := s[..|s| - 1];
      DigitsOfValue(rest);
      LeadingDigitIsPositive(rest);
      assert Value(s) / 10 == Value(rest) && Value(s) % 10 == DigitValue(s[|s| - 1]);
      DigitOfValue(s[|s| - 1]);
    }
  }

  lemma DigitOfValue(c: char)
    requires IsDigit(c)
    ensures Digit(DigitValue(c)) == c
  {
  }

  lemma {:induction false} LeadingDigitIsPositive(s: string)
    requires s != "" && AllDigits(s) && s[0] != '0'
    ensures Value(s) >= 1
  {
    if |s| > 1 {
      LeadingDigitIsPositive(s[..|s| - 1]);
    } else {
      assert DigitValue(s[0]) != 0;
    }
  }

  lemma {:induction false} ShortSerialPads(s: string)
    requires s != "" && AllDigits(s)
    ensures PadLeft(Digits(Value(s)), |s|) == s
    decreases |s|
  {
    if s[0] != '0' || |s| == 1 {
      DigitsOfValue(s);
    } else {
      ShortSerialPads(s[1..]);
      assert s == Zeros(1) + s[1..];
      LeadingZeros(1, s[1..]);
      var d := Digits(Value(s[1..]));
      assert |d| <= |s| - 1;
      assert Zeros(1) + Zeros(|s| - 1 - |d|) == Zeros(|s| - |d|);
    }
  }

  /** Printing undoes parsing exactly for the strings the printer could have written. */
  lemma PrintingUndoesParsingIff(prefix: string, d: Day, number: string)
    requires ParseDocumentSeq(number, DayPrefix(prefix, d)).Some?
    ensures var n := ParseDocumentSeq(number, DayPrefix(prefix, d)).value;
      FormatDocumentNumber(prefix, d, n) == number <==> Canonical(number[|DayPrefix(prefix, d)|..])
  {
    var head := DayPrefix(prefix, d);
    var tail := number[|head|..];
    var n := Value(tail);
    DocumentNumberIsHeadAndSerial(prefix, d, n);
    assert number == head + tail;
    assert (head + Serial(n))[|head|..] == Serial(n);
    if Canonical(tail) {
      if |tail| == 4 {
        ShortSerialPads(tail);
      } else {
        DigitsOfValue(tail);
      }
    } else if Serial(n) == tail {
      assert |Digits(n)| == |tail| > 4 && Digits(n)[0] == '0';
      FirstDigit(n);
    }
  }

  lemma {:induction false} FirstDigit(n: nat)
    ensures Digits(n)[0] == '0' ==> n == 0
  {
    if n >= 10 {
      FirstDigit(n / 10);
    } else {
      assert DigitValue(Digit(n)) == n;
    }
  }

  // ------------------------------------------------------------- injectivity

  lemma SerialIsInjective(a: nat, b: nat)
    requires Serial(a) == Serial(b)
    ensures a == b
  {
    ValueOfPadded(a, 4);
    ValueOfPadded(b, 4);
  }

  lemma HeadBeforeDash(p: string, x: string)
    requires '-' !in p
    ensures (p + "-" + x)[0] == '-' <==> p == ""
    ensures p != "" ==> (p + "-" + x)[0] == p[0] && (p + "-" + x)[1..] == p[1..] + "-" + x
    ensures p == "" ==> (p + "-" + x)[1..] == x
  {
    if p != "" {
      assert p[0] in p;
    }
  }

  /** Strings split at their first dash in one way. */
  lemma {:induction false} FirstDashSplits(p: string, x: string, q: string, y: string)
    requires '-' !in p && '-' !in q && p + "-" + x == q + "-" + y
    ensures p == q && x == y
    decreases p
  {
    HeadBeforeDash(p, x);
    HeadBeforeDash(q, y);
    if p != "" {
      FirstDashSplits(p[1..], x, q[1..], y);
      assert p == [p[0]] + p[1..] && q == [q[0]] + q[1..];
    }
  }

  lemma DayKeyDigits(d: Day)
    ensures AllDigits(FormatDayKey(d))
  {
    ValueOfPadded(d.month, 2);
    ValueOfPadded(d.day, 2);
  }

  lemma TwoDigits(n: nat)
    requires n < 100
    ensures |PadLeft(Digits(n), 2)| == 2
  {
    DigitsLength(n, 2);
    assert Pow10(2) == 10 * Pow10(1) && Pow10(1) == 10 * Pow10(0);
  }

  lemma DayKeyIsInjective(a: Day, b: Day)
    requires a.Valid() && b.Valid() && FormatDayKey(a) == FormatDayKey(b)
    ensures a == b
  {
    TwoDigits(a.month);
    TwoDigits(a.day);
    TwoDigits(b.month);
    TwoDigits(b.day);
    var k := FormatDayKey(a);
    assert k[|k| - 2..] == PadLeft(Digits(a.day), 2) && k[|k| - 2..] == PadLeft(Digits(b.day), 2);
    assert k[|k| - 4..|k| - 2] == PadLeft(Digits(a.month), 2) && k[|k| - 4..|k| - 2] == PadLeft(Digits(b.month), 2);
    assert k[..|k| - 4] == Digits(a.year) && k[..|k| - 4] == Digits(b.year);
    ValueOfPadded(a.day, 2);
    ValueOfPadded(b.day, 2);
    ValueOfPadded(a.month, 2);
    ValueOfPadded(b.month, 2);
    ValueOfDigits(a.year);
    ValueOfDigits(b.year);
  }

  function DatedSerial(d: Day, n: nat): string {
    FormatDayKey(d) + "-" + Serial(n)
  }

  lemma PrefixThenDate(prefix: string, d: Day, n: nat)
    ensures FormatDocumentNumber(prefix, d, n) == CleanPrefix(prefix) + "-" + DatedSerial(d, n)
  {
  }

  lemma DatedSerialIsInjective(d: Day, a: nat, e: Day, b: nat)
    requires d.Valid() && e.Valid() && DatedSerial(d, a) == DatedSerial(e, b)
    ensures d == e && a == b
  {
    DayKeyDigits(d);
    DayKeyDigits(e);
    FirstDashSplits(FormatDayKey(d), Serial(a), FormatDayKey(e), Serial(b));
    DayKeyIsInjective(d, e);
    SerialIsInjective(a, b);
  }

  /** A number tells its prefix, its day and its serial: no two of them print alike. */
  lemma DocumentNumberIsInjective(p: string, d: Day, a: nat, q: string, e: Day, b: nat)
    requires d.Valid() && e.Valid()
    requires FormatDocumentNumber(p, d, a) == FormatDocumentNumber(q, e, b)
    ensures CleanPrefix(p) == CleanPrefix(q) && d == e && a == b
  {
    PrefixThenDate(p, d, a);
    PrefixThenDate(q, e, b);
    FirstDashSplits(CleanPrefix(p), DatedSerial(d, a), CleanPrefix(q), DatedSerial(e, b));
    DatedSerialIsInjective(d, a, e, b);
  }

  lemma SequentialCodeIsInjective(p: string, a: nat, q: string, b: nat)
    requires FormatSequentialCode(p, a) == FormatSequentialCode(q, b)
    ensures CleanPrefix(p) == CleanPrefix(q) && a == b
  {
    FirstDashSplits(CleanPrefix(p), Serial(a), CleanPrefix(q), Serial(b));
    SerialIsInjective(a, b);
  }

  /** A dated number is never taken for a catalog code of the same prefix. */
  lemma DatedNumberIsNoCode(prefix: string, d: Day, n: nat)
    ensures ParseSequentialCodeSeq(FormatDocumentNumber(prefix, d, n), prefix).None?
  {
    PrefixThenDate(prefix, d, n);
    var number, head := FormatDocumentNumber(prefix, d, n), CodeHead(prefix);
    assert number[|head|..] == DatedSerial(d, n);
    assert DatedSerial(d, n)[|FormatDayKey(d)|] == '-';
  }
}
