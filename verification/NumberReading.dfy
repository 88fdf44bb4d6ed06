/** How a printed number reads: its prefix, its day and its serial, as numbers and in the letters they came from. */
module NumberReading {
  import opened Wrappers
  import opened Sequences
  import opened Text
  import opened DocumentNumbers
  import opened NumberAllocation

  // ------------------------------------------------------------------ the day

  /** The day as eight digits, or more after the year 9999: the year, two for the month, two for the day. */
  lemma DayKeyReads(d: Day)
    requires d.Valid()
    ensures AllDigits(FormatDayKey(d)) && |FormatDayKey(d)| == |Digits(d.year)| + 4
    ensures Value(FormatDayKey(d)) == 10_000 * d.year + 100 * d.month + d.day
  {
    var y, m, day := Digits(d.year), PadLeft(Digits(d.month), 2), PadLeft(Digits(d.day), 2);
    TwoDigits(d.month);
    TwoDigits(d.day);
    ValueOfDigits(d.year);
    ValueOfPadded(d.month, 2);
    ValueOfPadded(d.day, 2);
    ValueOfConcat(y, m);
    ValueOfConcat(y + m, day);
    assert Pow10(2) == 10 * Pow10(1) && Pow10(1) == 10 * Pow10(0);
    assert FormatDayKey(d) == (y + m) + day;
  }

  predicate Earlier(a: Day, b: Day) {
    a.year < b.year || (a.year == b.year && (a.month < b.month || (a.month == b.month && a.day < b.day)))
  }

  /** Keys count up with the calendar. */
  lemma EarlierDayHasSmallerKey(a: Day, b: Day)
    requires a.Valid() && b.Valid()
    ensures AllDigits(FormatDayKey(a)) && AllDigits(FormatDayKey(b))
    ensures Value(FormatDayKey(a)) < Value(FormatDayKey(b)) <==> Earlier(a, b)
  {
    DayKeyReads(a);
    DayKeyReads(b);
  }

  // --------------------------------------------------------------- the serial

  /** Four digits, or as many as it takes without a leading zero. */
  lemma SerialReads(n: nat)
    ensures AllDigits(Serial(n)) && Value(Serial(n)) == n && Canonical(Serial(n))
  {
    ValueOfPadded(n, 4);
    if n >= 10 {
      FirstDigit(n);
    }
    DigitsLength(n, 4);
    LimitIsPow();
  }

  // --------------------------------------------------------------- the prefix

  const SMALL := "abcdefghijklmnopqrstuvwxyz"
  const CAPITALS := "ABCDEFGHIJKLMNOPQRSTUVWXYZ"

  /** A small letter becomes the capital in its place of the alphabet; nothing else changes. */
  lemma UpperCharIsTheCapital(c: char)
    ensures (exists i :: 0 <= i < 26 && SMALL[i] == c && UpperChar(c) == CAPITALS[i]) || (c !in SMALL && UpperChar(c) == c)
  {
    if 'a' <= c <= 'z' {
      var i := c as int - 'a' as int;
      assert SMALL[i] == c && UpperChar(c) == CAPITALS[i];
    }
  }

  /** Letters of either case and decimal digits. */
  function CodeLetter(): char -> bool {
    (c: char) => 'a' <= c <= 'z' || 'A' <= c <= 'Z' || '0' <= c <= '9'
  }

  function CapitalsAt(s: string, rows: seq<nat>): (r: string)
    requires forall n :: 0 <= n < |rows| ==> rows[n] < |s|
    ensures |r| == |rows|
  {
    seq(|rows|, n requires 0 <= n < |rows| => UpperChar(s[rows[n]]))
  }

  lemma {:induction false} KeepConcat(a: string, b: string)
    ensures KeepCodeChars(a + b) == KeepCodeChars(a) + KeepCodeChars(b)
  {
    if a == "" {
      assert a + b == b;
    } else {
      KeepConcat(a[1..], b);
      assert (a + b)[1..] == a[1..] + b;
    }
  }

  lemma UpperConcat(a: string, b: string)
    ensures Upper(a + b) == Upper(a) + Upper(b)
  {
  }

  lemma {:induction false} KeptAreTheLetters(s: string)
    ensures KeepCodeChars(Upper(s)) == CapitalsAt(s, Matching(s, CodeLetter()))
  {
    if s != "" {
      var n := |s| - 1;
      KeptAreTheLetters(s[..n]);
      assert s == s[..n] + [s[n]];
      UpperConcat(s[..n], [s[n]]);
      KeepConcat(Upper(s[..n]), Upper([s[n]]));
      OneKept(s[n]);
      var rest := Matching(s[..n], CodeLetter());
      assert CapitalsAt(s, rest) == CapitalsAt(s[..n], rest);
      if CodeLetter()(s[n]) {
        assert CapitalsAt(s, rest + [n]) == CapitalsAt(s, rest) + [UpperChar(s[n])];
      }
    }
  }

  lemma OneKept(c: char)
    ensures KeepCodeChars(Upper([c])) == if CodeLetter()(c) then [UpperChar(c)] else ""
  {
    assert Upper([c])[1..] == "";
  }

  lemma {:induction false} BlankKeepsNothing(s: string)
    requires Blank(s)
    ensures KeepCodeChars(Upper(s)) == ""
  {
    if s != "" {
      BlankKeepsNothing(s[1..]);
      assert Upper(s)[1..] == Upper(s[1..]);
    }
  }

  /** Trimming first makes no difference: blanks are dropped in any case. */
  lemma TrimKeepsLetters(s: string)
    ensures KeepCodeChars(Upper(Trim(s))) == KeepCodeChars(Upper(s))
  {
    var head, tail := TrimCuts(s);
    UpperConcat(head + Trim(s), tail);
    UpperConcat(head, Trim(s));
    KeepConcat(Upper(head) + Upper(Trim(s)), Upper(tail));
    KeepConcat(Upper(head), Upper(Trim(s)));
    BlankKeepsNothing(head);
    BlankKeepsNothing(tail);
  }

  /** A cleaned prefix: the first eight letters and digits of the prefix, in capitals; X when it has none. */
  lemma CleanPrefixIsTheLetters(prefix: string)
    ensures var letters := CapitalsAt(prefix, Matching(prefix, CodeLetter()));
      CleanPrefix(prefix) == if letters == "" then "X" else if |letters| <= 8 then letters else letters[..8]
  {
    TrimKeepsLetters(prefix);
    KeptAreTheLetters(prefix);
  }

  // ------------------------------------------------------------ whole numbers

  /** The number is put together from a prefix, a day and a serial. */
  predicate ReadsAs(number: string, prefix: string, key: string, serial: string, d: Day, n: nat) {
    && number == prefix + "-" + key + "-" + serial
    && AllDigits(key) && |key| == |Digits(d.year)| + 4 && Value(key) == 10_000 * d.year + 100 * d.month + d.day
    && AllDigits(serial) && Canonical(serial) && Value(serial) == n
  }

  /** Whatever is allocated is free, and reads as the cleaned prefix, the day asked for and a serial from the start on. */
  lemma AllocatedNumberReads(prefix: string, d: Day, stored: seq<string>, start: nat, attempts: nat, number: Option<string>)
    returns (key: string, serial: string, n: nat)
    requires d.Valid() && IsFirstFree(DayPrefix(prefix, d), stored, start, attempts, number) && number.Some?
    ensures number.value !in stored && start <= n < start + attempts
    ensures ReadsAs(number.value, CleanPrefix(prefix), key, serial, d, n)
  {
    var head := DayPrefix(prefix, d);
    n :| start <= n < start + attempts && FirstGap(head, stored, start, n) && number.value == head + Serial(n);
    key, serial := FormatDayKey(d), Serial(n);
    DayKeyReads(d);
    SerialReads(n);
  }

  /** The same for a catalog code, which carries no day. */
  lemma AllocatedCodeReads(prefix: string, stored: seq<string>, start: nat, attempts: nat, code: Option<string>)
    returns (serial: string, n: nat)
    requires IsFirstFree(CodeHead(prefix), stored, start, attempts, code) && code.Some?
    ensures code.value !in stored && start <= n < start + attempts
    ensures code.value == CleanPrefix(prefix) + "-" + serial
    ensures AllDigits(serial) && Canonical(serial) && Value(serial) == n
  {
    var head := CodeHead(prefix);
    n :| start <= n < start + attempts && FirstGap(head, stored, start, n) && code.value == head + Serial(n);
    serial := Serial(n);
    SerialReads(n);
  }

  /** What is read of a number: one to eight digits behind the head, and nothing when there is anything else. */
  lemma ParsesIff(s: string, head: string, n: nat)
    ensures ParseSerial(s, head) == Some(n)
      <==> exists tail: string :: s == head + tail && 1 <= |tail| <= 8 && AllDigits(tail) && Value(tail) == n
  {
    if head <= s {
      assert s == head + s[|head|..];
    }
    forall tail: string | s == head + tail ensures s[|head|..] == tail {
    }
  }

  /** The highest serial bounds every number under the head, and one of them carries it unless there is none. */
  lemma {:induction false} MaxSerialIsTheHighest(stored: seq<string>, head: string)
    ensures forall i :: 0 <= i < |stored| && ParseSerial(stored[i], head).Some? ==>
              ParseSerial(stored[i], head).value <= MaxSerial(stored, head)
    ensures MaxSerial(stored, head) == 0 || exists i :: 0 <= i < |stored| && ParseSerial(stored[i], head) == Some(MaxSerial(stored, head))
  {
    if stored != [] {
      var rest := stored[..|stored| - 1];
      MaxSerialIsTheHighest(rest, head);
      forall i | 0 <= i < |stored| && ParseSerial(stored[i], head).Some?
        ensures ParseSerial(stored[i], head).value <= MaxSerial(stored, head)
      {
        assert i < |rest| ==> rest[i] == stored[i];
      }
      if MaxSerial(stored, head) == MaxSerial(rest, head) && MaxSerial(rest, head) != 0 {
        var i :| 0 <= i < |rest| && ParseSerial(rest[i], head) == Some(MaxSerial(rest, head));
        assert stored[i] == rest[i];
      }
    }
  }
}
