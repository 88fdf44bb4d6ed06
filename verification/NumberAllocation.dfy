/**
 Allocating the next free number. The stored numbers are the rows an organization already has: the
 existence check and the listing both read them.
 */
module NumberAllocation {
  import opened Wrappers
  import opened Text
  import opened DocumentNumbers

  const ATTEMPTS := 500

  // ----------------------------------------------------------- specification

  predicate Taken(head: string, stored: seq<string>, n: nat) {
    head + Serial(n) in stored
  }

  /** The serial is free and every one before it, from the start on, is taken. */
  predicate FirstGap(head: string, stored: seq<string>, start: nat, n: nat) {
    !Taken(head, stored, n) && forall m :: start <= m < n ==> Taken(head, stored, m)
  }

  /** The first free number within so many attempts, or nothing when all of them are taken. */
  ghost predicate IsFirstFree(head: string, stored: seq<string>, start: nat, attempts: nat, r: Option<string>) {
    match r
    case None => forall n :: start <= n < start + attempts ==> Taken(head, stored, n)
    case Some(number) => exists n :: start <= n < start + attempts && FirstGap(head, stored, start, n) && number == head + Serial(n)
  }

  /** The highest serial among the numbers under a head; 0 when there is none. */
  function MaxSerial(numbers: seq<string>, head: string): nat {
    if numbers == [] then 0
    else
      var n, rest := ParseSerial(numbers[|numbers| - 1], head), MaxSerial(numbers[..|numbers| - 1], head);
      if n.Some? && n.value > rest then n.value else rest
  }

  /** The rows a startsWith query returns. */
  function StartingWith(stored: seq<string>, head: string): seq<string> {
    if stored == [] then []
    else
      var last := stored[|stored| - 1];
      StartingWith(stored[..|stored| - 1], head) + if head <= last then [last] else []
  }

  // ---------------------------------------------------------------- the loops

  method MaxSeqForDay(numbers: seq<string>, dayPrefix: string) returns (max: nat)
    ensures max == MaxSerial(numbers, dayPrefix)
  {
    max := 0;
    for i := 0 to |numbers|
      invariant max == MaxSerial(numbers[..i], dayPrefix)
    {
      assert numbers[..i + 1][..i] == numbers[..i];
      var n := ParseDocumentSeq(numbers[i], dayPrefix);
      if n.Some? && n.value > max {
        max := n.value;
      }
    }
    assert numbers[..|numbers|] == numbers;
  }

  method AllocateDocumentNumber(prefix: string, d: Day, stored: seq<string>, maxSeqForDay: Option<nat>)
    returns (number: Option<string>)
    ensures IsFirstFree(DayPrefix(prefix, d), stored, if maxSeqForDay.Some? then maxSeqForDay.value + 1 else 1, ATTEMPTS, number)
  {
    var p := CleanPrefix(prefix);
    ghost var head := DayPrefix(prefix, d);
    var n := if maxSeqForDay.Some? then maxSeqForDay.value + 1 else 1;
    ghost var start := n;
    for attempt := 0 to ATTEMPTS
      invariant n == start + attempt
      invariant forall m :: start <= m < n ==> Taken(head, stored, m)
    {
      hide DayPrefix, FormatDocumentNumber, Serial, CleanPrefix;
      var candidate := FormatDocumentNumber(p, d, n);
      CleanedPrefixPrints(prefix, d, n);
      if candidate !in stored {
        assert FirstGap(head, stored, start, n);
        return Some(candidate);
      }
      n := n + 1;
    }
    return None;
  }

  lemma CleanedPrefixPrints(prefix: string, d: Day, n: nat)
    ensures FormatDocumentNumber(CleanPrefix(prefix), d, n) == DayPrefix(prefix, d) + Serial(n)
  {
    CleanPrefixIsIdempotent(prefix);
    DocumentNumberIsHeadAndSerial(prefix, d, n);
  }

  method AllocateOrgDocumentNumber(prefix: string, d: Day, stored: seq<string>) returns (number: Option<string>)
    ensures IsFirstFree(DayPrefix(prefix, d), stored, MaxSerial(stored, DayPrefix(prefix, d)) + 1, ATTEMPTS, number)
  {
    var dayPrefix := DayPrefix(prefix, d);
    var max := MaxSeqForDay(StartingWith(stored, dayPrefix), dayPrefix);
    ListingIsComplete(stored, dayPrefix);
    number := AllocateDocumentNumber(prefix, d, stored, Some(max));
  }

  method AllocateUniqueCode(prefix: string, d: Day, stored: seq<string>, listing: Option<seq<string>>)
    returns (code: Option<string>)
    ensures IsFirstFree(DayPrefix(prefix, d), stored, if listing.Some? then MaxSerial(listing.value, DayPrefix(prefix, d)) + 1 else 1, ATTEMPTS, code)
  {
    if listing.None? {
      code := AllocateDocumentNumber(prefix, d, stored, None);
    } else {
      var max := MaxSeqForDay(listing.value, DayPrefix(prefix, d));
      code := AllocateDocumentNumber(prefix, d, stored, Some(max));
    }
  }

  method AllocateSequentialCode(prefix: string, stored: seq<string>, listing: Option<seq<string>>)
    returns (code: Option<string>)
    ensures IsFirstFree(CodeHead(prefix), stored, if listing.Some? then MaxSerial(listing.value, CodeHead(prefix)) + 1 else 1, ATTEMPTS, code)
  {
    var p := CleanPrefix(prefix);
    ghost var head := CodeHead(prefix);
    CleanPrefixIsIdempotent(prefix);
    var n := 1;
    if listing.Some? {
      var rows, max := listing.value, 0;
      for i := 0 to |rows|
        invariant max == MaxSerial(rows[..i], head)
      {
        assert rows[..i + 1][..i] == rows[..i];
        CodeSeqIsSerial(rows[i], p);
        var parsed := ParseSequentialCodeSeq(rows[i], p);
        if parsed.Some? && parsed.value > max {
          max := parsed.value;
        }
      }
      assert rows[..|rows|] == rows;
      n := max + 1;
    }
    ghost var start := n;
    for attempt := 0 to ATTEMPTS
      invariant n == start + attempt
      invariant forall m :: start <= m < n ==> Taken(head, stored, m)
    {
      var candidate := FormatSequentialCode(p, n);
      assert candidate == head + Serial(n);
      if candidate !in stored {
        assert FirstGap(head, stored, start, n);
        return Some(candidate);
      }
      n := n + 1;
    }
    return None;
  }

  lemma CodeSeqIsSerial(code: string, prefix: string)
    ensures ParseSequentialCodeSeq(code, prefix) == ParseSerial(code, CodeHead(prefix))
  {
  }

  lemma {:induction false} ListingIsComplete(stored: seq<string>, head: string)
    ensures MaxSerial(StartingWith(stored, head), head) == MaxSerial(stored, head)
  {
    if stored != [] {
      var rest, last := stored[..|stored| - 1], stored[|stored| - 1];
      ListingIsComplete(rest, head);
      if head <= last {
        assert (StartingWith(rest, head) + [last])[..|StartingWith(rest, head)|] == StartingWith(rest, head);
      } else {
        assert StartingWith(stored, head) == StartingWith(rest, head);
      }
    }
  }

  // ------------------------------------------------------ what is allocated

  /** The answer is determined: allocation leaves no choice. */
  lemma FirstFreeIsUnique(head: string, stored: seq<string>, start: nat, attempts: nat, r: Option<string>, q: Option<string>)
    requires IsFirstFree(head, stored, start, attempts, r) && IsFirstFree(head, stored, start, attempts, q)
    ensures r == q
  {
    if r.Some? && q.Some? {
      var n :| start <= n < start + attempts && FirstGap(head, stored, start, n) && r.value == head + Serial(n);
      var m :| start <= m < start + attempts && FirstGap(head, stored, start, m) && q.value == head + Serial(m);
      assert n == m;
    }
  }

  lemma {:induction false} MaxBoundsEveryRow(stored: seq<string>, head: string, number: string)
    requires number in stored && ParseSerial(number, head).Some?
    ensures ParseSerial(number, head).value <= MaxSerial(stored, head)
  {
    if number != stored[|stored| - 1] {
      assert number in stored[..|stored| - 1];
      MaxBoundsEveryRow(stored[..|stored| - 1], head, number);
    }
  }

  lemma {:induction false} MaxIsParsed(stored: seq<string>, head: string)
    ensures MaxSerial(stored, head) < LIMIT
  {
    if stored != [] {
      MaxIsParsed(stored[..|stored| - 1], head);
      var tail := stored[|stored| - 1];
      if ParseSerial(tail, head).Some? {
        ShortIsSmall(tail[|head|..]);
      }
    }
  }

  lemma {:induction false} ValueIsBelow(s: string)
    requires AllDigits(s)
    ensures Value(s) < Pow10(|s|)
  {
    if s != "" {
      ValueIsBelow(s[..|s| - 1]);
    }
  }

  lemma ShortIsSmall(s: string)
    requires AllDigits(s) && |s| <= 8
    ensures Value(s) < LIMIT
  {
    ValueIsBelow(s);
    Pow10Grows(|s|, 8);
    LimitIsPow();
  }

  lemma NextSerialIsFree(head: string, stored: seq<string>, number: string)
    requires MaxSerial(stored, head) + 1 < LIMIT && number == head + Serial(MaxSerial(stored, head) + 1)
    ensures number !in stored
  {
    SerialParses(head, MaxSerial(stored, head) + 1);
    if number in stored {
      MaxBoundsEveryRow(stored, head, number);
    }
  }

  /**
   With every number listed, the serial behind the highest is free, so the first attempt succeeds; the one
   exception is when the eight digits are used up and the nine-digit number, which no scan sees, is stored.
   */
  lemma FirstAttemptIsFreeIff(head: string, stored: seq<string>)
    ensures !Taken(head, stored, MaxSerial(stored, head) + 1)
      <==> !(MaxSerial(stored, head) == LIMIT - 1 && Taken(head, stored, LIMIT))
  {
    MaxIsParsed(stored, head);
    if MaxSerial(stored, head) + 1 < LIMIT {
      NextSerialIsFree(head, stored, head + Serial(MaxSerial(stored, head) + 1));
    }
  }

  /** The last eight-digit number and the first of nine digits stored: the scan sees only the former. */
  lemma NineDigitsAreMissed(head: string)
    ensures var stored := [head + Serial(LIMIT - 1), head + Serial(LIMIT)];
      MaxSerial(stored, head) == LIMIT - 1 && Taken(head, stored, MaxSerial(stored, head) + 1)
  {
    var first := [head + Serial(LIMIT - 1)];
    var stored := [head + Serial(LIMIT - 1), head + Serial(LIMIT)];
    SerialParses(head, LIMIT - 1);
    SerialParses(head, LIMIT);
    assert stored[..1] == first && first[..0] == [];
    assert MaxSerial(first, head) == LIMIT - 1;
    assert stored[1] == head + Serial(LIMIT);
  }

  lemma NextSerialIsAllocated(head: string, stored: seq<string>, r: Option<string>)
    requires MaxSerial(stored, head) < LIMIT - 1
    requires IsFirstFree(head, stored, MaxSerial(stored, head) + 1, ATTEMPTS, r)
    ensures r == Some(head + Serial(MaxSerial(stored, head) + 1)) && r.value !in stored
  {
    var next := MaxSerial(stored, head) + 1;
    NextSerialIsFree(head, stored, head + Serial(next));
    assert FirstGap(head, stored, next, next);
    FirstFreeIsUnique(head, stored, next, ATTEMPTS, r, Some(head + Serial(next)));
  }

  // ------------------------------------------------------- allocate and insert

  /** One request under a head: the number it is given is stored; a failed one stores nothing. */
  ghost predicate AllocateAndInsert(before: seq<string>, head: string, after: seq<string>) {
    exists number :: IsFirstFree(head, before, MaxSerial(before, head) + 1, ATTEMPTS, number)
      && after == if number.Some? then before + [number.value] else before
  }

  /** A run of requests, under any heads, with the stored numbers between them. */
  ghost predicate AllocationRun(states: seq<seq<string>>, heads: seq<string>) {
    |states| == |heads| + 1 && forall k :: 0 <= k < |heads| ==> Serves(states, heads, k)
  }

  ghost predicate Serves(states: seq<seq<string>>, heads: seq<string>, k: nat)
    requires k < |heads| && |states| == |heads| + 1
  {
    AllocateAndInsert(states[k], heads[k], states[k + 1])
  }

  /** How many of the first n requests are for a head. */
  function CountFor(heads: seq<string>, n: nat, head: string): (count: nat)
    requires n <= |heads|
    ensures count <= n
  {
    if n == 0 then 0 else CountFor(heads, n - 1, head) + if heads[n - 1] == head then 1 else 0
  }

  /** No number printed under the first head is read under the second. */
  ghost predicate Apart(head: string, other: string) {
    forall tail: string :: ParseSerial(head + tail, other).None?
  }

  predicate RoomFor(stored: seq<string>, heads: seq<string>) {
    forall k :: 0 <= k < |heads| ==> MaxSerial(stored, heads[k]) + |heads| < LIMIT
  }

  ghost predicate ApartFrom(heads: seq<string>, other: string) {
    forall k :: 0 <= k < |heads| ==> heads[k] == other || Apart(heads[k], other)
  }

  lemma MaxOfAppend(stored: seq<string>, number: string, head: string)
    ensures MaxSerial(stored + [number], head) ==
      var n := ParseSerial(number, head);
      if n.Some? && n.value > MaxSerial(stored, head) then n.value else MaxSerial(stored, head)
  {
    assert (stored + [number])[..|stored|] == stored;
  }

  lemma RequestIsServed(before: seq<string>, head: string, after: seq<string>)
    requires AllocateAndInsert(before, head, after) && MaxSerial(before, head) < LIMIT - 1
    ensures var number := head + Serial(MaxSerial(before, head) + 1);
      after == before + [number] && number !in before
  {
    var number :| IsFirstFree(head, before, MaxSerial(before, head) + 1, ATTEMPTS, number)
      && after == if number.Some? then before + [number.value] else before;
    NextSerialIsAllocated(head, before, number);
  }

  /** A request raises its own head's highest serial by one, and no other's. */
  lemma OneMoreSerial(before: seq<string>, head: string, after: seq<string>, other: string)
    requires AllocateAndInsert(before, head, after) && MaxSerial(before, head) < LIMIT - 1
    requires head == other || Apart(head, other)
    ensures MaxSerial(after, other) == MaxSerial(before, other) + if head == other then 1 else 0
  {
    RequestIsServed(before, head, after);
    var n := MaxSerial(before, head) + 1;
    MaxOfAppend(before, head + Serial(n), other);
    if head == other {
      SerialParses(head, n);
    }
  }

  lemma {:induction false} SerialsAreConsecutive(states: seq<seq<string>>, heads: seq<string>, n: nat, other: string)
    requires AllocationRun(states, heads) && RoomFor(states[0], heads) && n <= |heads|
    requires ApartFrom(heads, other) && forall k :: 0 <= k < |heads| ==> ApartFrom(heads, heads[k])
    ensures MaxSerial(states[n], other) == MaxSerial(states[0], other) + CountFor(heads, n, other)
  {
    if n > 0 {
      SerialsAreConsecutive(states, heads, n - 1, other);
      SerialsAreConsecutive(states, heads, n - 1, heads[n - 1]);
      assert Serves(states, heads, n - 1);
      OneMoreSerial(states[n - 1], heads[n - 1], states[n], other);
    }
  }

  // ---------------------------------------------------- prefixes and days

  lemma HeadThenTail(p: string, d: Day, tail: string)
    ensures DayPrefix(p, d) + tail == CleanPrefix(p) + "-" + (FormatDayKey(d) + "-" + tail)
  {
  }

  lemma SplitsAlike(p: string, d: Day, x: string, q: string, e: Day, y: string)
    requires DayPrefix(p, d) + x == DayPrefix(q, e) + y
    ensures CleanPrefix(p) == CleanPrefix(q) && FormatDayKey(d) == FormatDayKey(e) && x == y
  {
    HeadThenTail(p, d, x);
    HeadThenTail(q, e, y);
    FirstDashSplits(CleanPrefix(p), FormatDayKey(d) + "-" + x, CleanPrefix(q), FormatDayKey(e) + "-" + y);
    DayKeyDigits(d);
    DayKeyDigits(e);
    FirstDashSplits(FormatDayKey(d), x, FormatDayKey(e), y);
  }

  /** A number is read only under its own head: other prefixes and other days do not disturb the count. */
  lemma OtherHeadsDoNotCount(p: string, d: Day, q: string, e: Day, head: string, other: string)
    requires head == DayPrefix(q, e) && other == DayPrefix(p, d) && head != other
    ensures Apart(head, other)
  {
    forall tail: string ensures ParseSerial(head + tail, other).None? {
      var number := head + tail;
      if other <= number {
        assert number == other + number[|other|..];
        SplitsAlike(p, d, number[|other|..], q, e, tail);
      }
    }
  }

  /** A request for the next number of a prefix on a day. */
  datatype Request = Request(prefix: string, day: Day)

  function Heads(requests: seq<Request>): (heads: seq<string>)
    ensures |heads| == |requests|
  {
    seq(|requests|, i requires 0 <= i < |requests| => DayPrefix(requests[i].prefix, requests[i].day))
  }

  lemma DayHeadsAreApart(requests: seq<Request>, k: nat)
    requires k < |requests|
    ensures ApartFrom(Heads(requests), Heads(requests)[k])
  {
    var heads := Heads(requests);
    forall i | 0 <= i < |heads| ensures heads[i] == heads[k] || Apart(heads[i], heads[k]) {
      if heads[i] != heads[k] {
        OtherHeadsDoNotCount(requests[k].prefix, requests[k].day, requests[i].prefix, requests[i].day, heads[i], heads[k]);
      }
    }
  }

  lemma ServedUnder(states: seq<seq<string>>, heads: seq<string>, k: nat)
    requires AllocationRun(states, heads) && RoomFor(states[0], heads) && k < |heads|
    requires forall i :: 0 <= i < |heads| ==> ApartFrom(heads, heads[i])
    ensures var number := heads[k] + Serial(MaxSerial(states[0], heads[k]) + CountFor(heads, k, heads[k]) + 1);
      states[k + 1] == states[k] + [number] && number !in states[k]
  {
    SerialsAreConsecutive(states, heads, k, heads[k]);
    assert Serves(states, heads, k);
    RequestIsServed(states[k], heads[k], states[k + 1]);
  }

  lemma AllHeadsAreApart(requests: seq<Request>)
    ensures forall i :: 0 <= i < |Heads(requests)| ==> ApartFrom(Heads(requests), Heads(requests)[i])
  {
    hide ApartFrom, Heads;
    forall i | 0 <= i < |Heads(requests)| ensures ApartFrom(Heads(requests), Heads(requests)[i]) {
      DayHeadsAreApart(requests, i);
    }
  }

  /** A request's number is its head and the serial. */
  lemma HeadOfRequest(requests: seq<Request>, k: nat, n: nat)
    requires k < |requests|
    ensures FormatDocumentNumber(requests[k].prefix, requests[k].day, n) == Heads(requests)[k] + Serial(n)
  {
    hide FormatDocumentNumber, Serial, DayPrefix;
    DocumentNumberIsHeadAndSerial(requests[k].prefix, requests[k].day, n);
  }

  /**
   However requests for different prefixes and days interleave, every one is served with a number nobody had,
   and under each prefix and day the serials are consecutive: the k-th request gets the highest serial stored
   at the start, plus the requests for the same prefix and day before it, plus one.
   */
  lemma EveryRequestGetsTheNextNumber(states: seq<seq<string>>, requests: seq<Request>, k: nat)
    requires AllocationRun(states, Heads(requests)) && RoomFor(states[0], Heads(requests)) && k < |requests|
    ensures var r, heads := requests[k], Heads(requests);
      var number := FormatDocumentNumber(r.prefix, r.day, MaxSerial(states[0], heads[k]) + CountFor(heads, k, heads[k]) + 1);
      states[k + 1] == states[k] + [number] && number !in states[k]
  {
    hide ApartFrom, Heads, FormatDocumentNumber, Serial, MaxSerial, CountFor, RoomFor, Serves;
    var heads := Heads(requests);
    AllHeadsAreApart(requests);
    ServedUnder(states, heads, k);
    HeadOfRequest(requests, k, MaxSerial(states[0], heads[k]) + CountFor(heads, k, heads[k]) + 1);
  }
}
