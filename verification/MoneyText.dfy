/** Which texts are amounts of money, and which texts amounts are printed as. */
module MoneyText {
  import opened Wrappers
  import opened Sequences
  import opened Text
  import opened Money

  // ---------------------------------------------------------------- printing

  /** A whole number without leading zeros. */
  predicate WholeForm(s: string) {
    s != "" && AllDigits(s) && (s == "0" || s[0] != '0')
  }

  /** A text is made of a sign, a whole part and, for one place or more, a dot and that many digits. */
  predicate FixedForm(text: string, sign: string, whole: string, fraction: string, d: nat) {
    && WholeForm(whole) && AllDigits(fraction) && |fraction| == d
    && text == sign + whole + (if d == 0 then "" else "." + fraction)
  }

  /** An amount is printed with exactly d places; its digits are the rounded amount's in units of the last place. */
  lemma PrintedForm(x: real, d: nat) returns (whole: string, fraction: string)
    ensures FixedForm(ToFixed(x, d), if x < 0.0 then "-" else "", whole, fraction, d)
    ensures Value(whole) * Pow10(d) + Value(fraction) == Magnitude(Units(x, d))
  {
    var units := Magnitude(Units(x, d));
    whole, fraction := FixedParts(units, d);
    assert ToFixed(x, d) == (if x < 0.0 then "-" else "") + Fixed(units, d);
  }

  lemma FixedParts(units: nat, d: nat) returns (whole: string, fraction: string)
    ensures WholeForm(whole) && AllDigits(fraction) && |fraction| == d
    ensures Fixed(units, d) == whole + (if d == 0 then "" else "." + fraction)
    ensures Value(whole) * Pow10(d) + Value(fraction) == units
  {
    var p := Pow10(d);
    whole := Digits(WholePart(units, p));
    ValueOfDigits(WholePart(units, p));
    DigitsForm(WholePart(units, p));
    if d == 0 {
      fraction := "";
      assert WholePart(units, 1) == units;
    } else {
      fraction := PadLeft(Digits(Remainder(units, p)), d);
      RemainderPads(Remainder(units, p), d);
    }
  }

  lemma {:induction false} DigitsForm(n: nat)
    ensures WholeForm(Digits(n)) && (n > 0 ==> Digits(n)[0] != '0')
  {
    if n >= 10 {
      DigitsForm(n / 10);
    } else {
      assert DigitValue(Digit(n)) == n;
      assert n == 0 ==> Digits(n) == "0";
    }
  }

  // ----------------------------------------------------------------- reading

  function Visible(): char -> bool {
    (c: char) => !IsSpace(c)
  }

  function CharsAt(s: string, rows: seq<nat>): (r: string)
    requires forall n :: 0 <= n < |rows| ==> rows[n] < |s|
  {
    seq(|rows|, n requires 0 <= n < |rows| => s[rows[n]])
  }

  /** The text without its spaces. */
  function Compact(raw: string): string {
    CharsAt(raw, Matching(raw, Visible()))
  }

  lemma {:induction false} DropConcat(a: string, b: string)
    ensures DropSpaces(a + b) == DropSpaces(a) + DropSpaces(b)
  {
    if a == "" {
      assert a + b == b;
    } else {
      DropConcat(a[1..], b);
      assert (a + b)[1..] == a[1..] + b;
    }
  }

  lemma DropOne(c: char)
    ensures DropSpaces([c]) == if IsSpace(c) then "" else [c]
  {
    assert [c][1..] == "";
  }

  lemma CompactAppend(s: string, c: char)
    ensures Compact(s + [c]) == Compact(s) + (if IsSpace(c) then "" else [c])
  {
    var rows, t := Matching(s, Visible()), s + [c];
    assert t[..|s|] == s;
    assert CharsAt(t, rows) == CharsAt(s, rows);
    if !IsSpace(c) {
      assert CharsAt(t, rows + [|s|]) == CharsAt(t, rows) + [c];
    }
  }

  lemma {:induction false} DroppedIsCompact(s: string)
    ensures DropSpaces(s) == Compact(s)
  {
    if s == "" {
      assert Compact(s) == "";
    } else {
      hide Compact, DropSpaces;
      var n := |s| - 1;
      DroppedIsCompact(s[..n]);
      assert s == s[..n] + [s[n]];
      DropConcat(s[..n], [s[n]]);
      DropOne(s[n]);
      CompactAppend(s[..n], s[n]);
    }
  }

  lemma {:induction false} BlankDrops(s: string)
    requires Blank(s)
    ensures DropSpaces(s) == ""
  {
    if s != "" {
      BlankDrops(s[1..]);
    }
  }

  lemma TrimmedIsCompact(raw: string)
    ensures DropSpaces(Trim(raw)) == Compact(raw)
  {
    var head, tail := TrimCuts(raw);
    DropConcat(head + Trim(raw), tail);
    DropConcat(head, Trim(raw));
    BlankDrops(head);
    BlankDrops(tail);
    DroppedIsCompact(raw);
  }

  /** How an amount is written, spaces aside: sign, whole part, dot or comma, fraction; one digit at least. */
  datatype Written = Written(sign: string, whole: string, point: string, fraction: string) {
    predicate Valid() {
      && sign in {"", "+", "-"} && AllDigits(whole) && AllDigits(fraction) && whole + fraction != ""
      && (point in {".", ","} || (point == "" && fraction == ""))
    }

    function Text(): string {
      sign + (whole + point + fraction)
    }

    /** The digits without the point, moved back behind the places of the fraction. */
    function Size(): real
      requires Valid()
    {
      Unshift((Value(whole) * Pow10(|fraction|) + Value(fraction)) as real, |fraction|)
    }

    function Amount(): real
      requires Valid()
    {
      if sign == "-" then -Size() else Size()
    }
  }

  lemma {:induction false} IndexOfFirst(s: string, c: char, i: nat)
    requires i <= |s| && (i < |s| ==> s[i] == c) && forall j :: 0 <= j < i ==> s[j] != c
    ensures IndexOf(s, c) == i
  {
  }

  /** With its first comma made a dot, an unsigned text is read when it is whole, point and fraction. */
  lemma UnsignedReads(w: Written, body: string)
    requires w.Valid() && body == w.whole + (if w.point == "" then "" else ".") + w.fraction
    ensures ParseUnsigned(body) == Some(w.Size()) && body != "" && body[0] !in {'+', '-'}
  {
    ValueOfConcat(w.whole, w.fraction);
    IndexOfFirst(body, '.', |w.whole|);
    assert body[..|w.whole|] == w.whole;
    if w.point != "" {
      assert body[|w.whole| + 1..] == w.fraction;
    }
    assert IsDigit(body[0]) || body[0] == '.';
  }

  /** A sign is taken off before the rest is read. */
  lemma SignIsTakenOff(s: string, sign: string, body: string)
    requires s == sign + body && sign in {"", "+", "-"} && body != "" && body[0] !in {'+', '-'}
    ensures ParseSigned(s)
      == if sign == "-" && ParseUnsigned(body).Some? then Some(-ParseUnsigned(body).value) else ParseUnsigned(body)
  {
    hide ParseUnsigned;
    if sign == "" {
      assert s == body;
    } else {
      assert s[0] == sign[0] && s[1..] == body;
    }
  }

  lemma SignedReads(w: Written, s: string, body: string)
    requires w.Valid() && body == w.whole + (if w.point == "" then "" else ".") + w.fraction && s == w.sign + body
    ensures ParseSigned(s) == Some(w.Amount())
  {
    hide ParseUnsigned, ParseSigned, Written.Size, AllDigits;
    UnsignedReads(w, body);
    SignIsTakenOff(s, w.sign, body);
  }

  /** The text after its first comma has been made a dot. */
  function Dotted(s: string): string {
    var comma := IndexOf(s, ',');
    if comma < |s| then s[comma := '.'] else s
  }

  lemma WrittenIsDotted(s: string, w: Written)
    requires w.Valid() && s == w.Text()
    ensures Dotted(s) == w.sign + (w.whole + (if w.point == "" then "" else ".") + w.fraction)
  {
    var at := |w.sign| + |w.whole|;
    if w.point == "," {
      IndexOfFirst(s, ',', at);
    } else {
      IndexOfFirst(s, ',', |s|);
    }
  }

  /** What is written as an amount is read as that amount. */
  lemma WrittenIsRead(raw: string, w: Written)
    requires w.Valid() && Compact(raw) == w.Text()
    ensures ParseMoney(raw) == Some(w.Amount())
  {
    hide ParseSigned, Compact, DropSpaces, Trim, IndexOf, Written.Size, Written.Valid, Written.Text, Written.Amount;
    TrimmedIsCompact(raw);
    WrittenIsDotted(Compact(raw), w);
    SignedReads(w, Dotted(Compact(raw)), w.whole + (if w.point == "" then "" else ".") + w.fraction);
  }

  /** The parts an unsigned text was read from. */
  lemma UnsignedParts(s: string) returns (w: Written)
    requires ParseUnsigned(s).Some?
    ensures w.Valid() && w.sign == "" && w.point != "," && s == w.whole + w.point + w.fraction
  {
    var dot := IndexOf(s, '.');
    if dot < |s| {
      w := Written("", s[..dot], ".", s[dot + 1..]);
    } else {
      w := Written("", s, "", "");
      assert s[..dot] == s;
    }
  }

  lemma SignedParts(s: string) returns (w: Written)
    requires ParseSigned(s).Some?
    ensures w.Valid() && w.point != "," && s == w.Text()
  {
    if s != "" && (s[0] == '-' || s[0] == '+') {
      w := UnsignedParts(s[1..]);
      w := w.(sign := [s[0]]);
      assert s == [s[0]] + s[1..];
    } else {
      w := UnsignedParts(s);
    }
  }

  /** The dot a comma was made into is the point, so it was written with a comma. */
  lemma CommaPoint(s: string, comma: nat, dotted: Written) returns (w: Written)
    requires comma < |s| && s[comma] == ',' && dotted.Valid() && s[comma := '.'] == dotted.Text()
    ensures w.Valid() && s == w.Text()
  {
    assert dotted.Text()[comma] == '.';
    DotPlace(dotted, comma);
    w := dotted.(point := ",");
    assert forall i :: 0 <= i < |s| && i != comma ==> w.Text()[i] == dotted.Text()[i];
  }

  /** What is read as an amount was written as one. */
  lemma ReadIsWritten(raw: string) returns (w: Written)
    requires ParseMoney(raw).Some?
    ensures w.Valid() && Compact(raw) == w.Text()
  {
    hide ParseSigned, Compact, DropSpaces, Trim;
    TrimmedIsCompact(raw);
    var s := Compact(raw);
    var comma := IndexOf(s, ',');
    if comma < |s| {
      w := SignedParts(s[comma := '.']);
      w := CommaPoint(s, comma, w);
    } else {
      w := SignedParts(s);
    }
  }

  /** The only dot of a written amount is its point. */
  lemma DotPlace(w: Written, i: nat)
    requires w.Valid() && i < |w.Text()| && w.Text()[i] == '.'
    ensures w.point == "." && i == |w.sign| + |w.whole|
  {
    var body := w.whole + w.point + w.fraction;
    assert w.Text() == w.sign + body;
    if i >= |w.sign| {
      assert body[i - |w.sign|] == '.';
    }
  }

  /** Reading an amount succeeds exactly on the texts that are written as one, spaces anywhere, and gives what is written. */
  lemma ParsesIff(raw: string, x: real)
    ensures ParseMoney(raw) == Some(x) <==> exists w: Written :: w.Valid() && Compact(raw) == w.Text() && w.Amount() == x
  {
    if ParseMoney(raw) == Some(x) {
      var w := ReadIsWritten(raw);
      WrittenIsRead(raw, w);
    }
    forall w: Written | w.Valid() && Compact(raw) == w.Text() ensures ParseMoney(raw) == Some(w.Amount()) {
      WrittenIsRead(raw, w);
    }
  }
}
