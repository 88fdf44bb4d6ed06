/** The in-memory fixed-window rate limiter, and how many calls any window of time can see accepted. */
module RateLimiter {
  import opened Wrappers

  datatype Bucket = Bucket(count: int, resetAt: int)

  datatype Call = Call(key: string, limit: int, windowMs: int, now: int)

  predicate Opens(buckets: map<string, Bucket>, c: Call) {
    c.key !in buckets || buckets[c.key].resetAt <= c.now
  }

  predicate Allowed(buckets: map<string, Bucket>, c: Call) {
    Opens(buckets, c) || buckets[c.key].count < c.limit
  }

  function AfterCall(buckets: map<string, Bucket>, c: Call): map<string, Bucket> {
    if Opens(buckets, c) then buckets[c.key := Bucket(1, c.now + c.windowMs)]
    else if Allowed(buckets, c) then buckets[c.key := buckets[c.key].(count := buckets[c.key].count + 1)]
    else buckets
  }

  class InMemoryRateLimiter {
    var buckets: map<string, Bucket>

    constructor ()
      ensures buckets == map[]
    {
      buckets := map[];
    }

    method Consume(c: Call) returns (accepted: bool)
      modifies this
      ensures accepted == Allowed(old(buckets), c)
      ensures buckets == AfterCall(old(buckets), c)
    {
      if c.key !in buckets || buckets[c.key].resetAt <= c.now {
        buckets := buckets[c.key := Bucket(1, c.now + c.windowMs)];
        return true;
      }
      if buckets[c.key].count >= c.limit {
        return false;
      }
      buckets := buckets[c.key := buckets[c.key].(count := buckets[c.key].count + 1)];
      return true;
    }
  }

  // ------------------------------------------------------------- histories

  function After(calls: seq<Call>): map<string, Bucket> {
    if calls == [] then map[] else AfterCall(After(calls[..|calls| - 1]), calls[|calls| - 1])
  }

  /** The times at which a key's calls were accepted. */
  function AcceptedTimes(calls: seq<Call>, key: string): seq<int> {
    if calls == [] then []
    else
      var c := calls[|calls| - 1];
      var earlier := AcceptedTimes(calls[..|calls| - 1], key);
      if c.key == key && Allowed(After(calls[..|calls| - 1]), c) then earlier + [c.now] else earlier
  }

  /** How many of the times fall in [from, to). */
  function CountIn(times: seq<int>, from: int, to: int): (n: nat) {
    if times == [] then 0
    else CountIn(times[..|times| - 1], from, to) + (if from <= times[|times| - 1] < to then 1 else 0)
  }

  lemma CountOfAppend(times: seq<int>, t: int, from: int, to: int)
    ensures CountIn(times + [t], from, to) == CountIn(times, from, to) + (if from <= t < to then 1 else 0)
  {
    assert (times + [t])[..|times|] == times;
  }

  lemma {:induction false} CountSplits(times: seq<int>, from: int, mid: int, to: int)
    requires from <= mid <= to
    ensures CountIn(times, from, to) == CountIn(times, from, mid) + CountIn(times, mid, to)
  {
    if times != [] {
      CountSplits(times[..|times| - 1], from, mid, to);
    }
  }

  lemma {:induction false} NoneLater(times: seq<int>, from: int, to: int)
    requires forall i :: 0 <= i < |times| ==> times[i] < from
    ensures CountIn(times, from, to) == 0
  {
    if times != [] {
      NoneLater(times[..|times| - 1], from, to);
    }
  }

  // ------------------------------------------------------------- the bound

  predicate WindowOk(times: seq<int>, from: int, limit: int, windowMs: int) {
    CountIn(times, from, from + windowMs) <= 2 * limit - 1
  }

  /** What was accepted from a time up to a bucket's opening is less than the limit. */
  predicate Leaves(times: seq<int>, from: int, open: int, limit: int) {
    CountIn(times, from, open) <= limit - 1
  }

  /** Where a key stands: its bucket counts what it accepted since it opened, and what came before is spread out. */
  ghost predicate Bounded(times: seq<int>, b: Option<Bucket>, limit: int, windowMs: int, latest: int) {
    && (b.None? ==> times == [])
    && (b.Some? ==> BucketOk(times, b.value, limit, windowMs, latest))
    && forall a :: WindowOk(times, a, limit, windowMs)
  }

  ghost predicate BucketOk(times: seq<int>, b: Bucket, limit: int, windowMs: int, latest: int) {
    var open := b.resetAt - windowMs;
    && open <= latest && (forall i :: 0 <= i < |times| ==> times[i] <= latest && times[i] < b.resetAt)
    && b.count <= limit && CountIn(times, open, b.resetAt) == b.count && CountIn(times, open, open + 1) >= 1
    && forall t :: open - windowMs < t <= open ==> Leaves(times, t, open, limit)
  }

  /** A fresh bucket at now: the one before it had used its opening call at least a window ago. */
  lemma OpeningKeepsBound(times: seq<int>, b: Option<Bucket>, limit: int, windowMs: int, latest: int, now: int)
    requires limit >= 1 && windowMs >= 1 && Bounded(times, b, limit, windowMs, latest) && latest <= now
    requires b.Some? ==> b.value.resetAt <= now
    ensures Bounded(times + [now], Some(Bucket(1, now + windowMs)), limit, windowMs, now)
  {
    var after := times + [now];
    CountOfAppend(times, now, now, now + windowMs);
    CountOfAppend(times, now, now, now + 1);
    NoneLater(times, now, now + windowMs);
    forall t | now - windowMs < t <= now ensures Leaves(after, t, now, limit) {
      CountOfAppend(times, now, t, now);
      if b.Some? {
        var open := b.value.resetAt - windowMs;
        if t <= b.value.resetAt {
          CountSplits(times, t, b.value.resetAt, now);
          CountSplits(times, open, open + 1, b.value.resetAt);
          CountSplits(times, open + 1, t, b.value.resetAt);
        }
        NoneLater(times, b.value.resetAt, now);
        if t > b.value.resetAt {
          NoneLater(times, t, now);
        }
      }
    }
    BoundFollows(times, after, Bucket(1, now + windowMs), limit, windowMs, now);
  }

  /** One more call in a bucket that has room. */
  lemma CountingKeepsBound(times: seq<int>, b: Bucket, limit: int, windowMs: int, latest: int, now: int)
    requires limit >= 1 && windowMs >= 1 && Bounded(times, Some(b), limit, windowMs, latest) && latest <= now
    requires now < b.resetAt && b.count < limit
    ensures Bounded(times + [now], Some(b.(count := b.count + 1)), limit, windowMs, now)
  {
    var after, open := times + [now], b.resetAt - windowMs;
    CountOfAppend(times, now, open, b.resetAt);
    CountOfAppend(times, now, open, open + 1);
    forall t | open - windowMs < t <= open ensures Leaves(after, t, open, limit) {
      assert Leaves(times, t, open, limit);
      CountOfAppend(times, now, t, open);
    }
    BoundFollows(times, after, b.(count := b.count + 1), limit, windowMs, now);
  }

  /** Any window meets the current bucket and the calls less than a window before it, or lies wholly before. */
  lemma BoundFollows(times: seq<int>, after: seq<int>, b: Bucket, limit: int, windowMs: int, now: int)
    requires limit >= 1 && windowMs >= 1 && after == times + [now] && b.resetAt - windowMs <= now
    requires BucketOk(after, b, limit, windowMs, now)
    requires forall a :: WindowOk(times, a, limit, windowMs)
    ensures forall a :: WindowOk(after, a, limit, windowMs)
  {
    var open := b.resetAt - windowMs;
    forall a ensures WindowOk(after, a, limit, windowMs) {
      assert WindowOk(times, a, limit, windowMs);
      if a + windowMs <= open {
        CountOfAppend(times, now, a, a + windowMs);
      } else if a <= open {
        assert Leaves(after, a, open, limit);
        CountSplits(after, a, open, a + windowMs);
        CountSplits(after, open, a + windowMs, b.resetAt);
      } else if a < b.resetAt {
        CountSplits(after, a, b.resetAt, a + windowMs);
        CountSplits(after, open, a, b.resetAt);
        NoneLater(after, b.resetAt, a + windowMs);
      } else {
        NoneLater(after, a, a + windowMs);
      }
    }
  }

  /** The clock never goes back. */
  predicate InOrder(calls: seq<Call>) {
    forall i, j :: 0 <= i < j < |calls| ==> calls[i].now <= calls[j].now
  }

  /** A key is always asked about with the same limit and window. */
  predicate Uniform(calls: seq<Call>, key: string, limit: int, windowMs: int) {
    forall i :: 0 <= i < |calls| && calls[i].key == key ==> calls[i].limit == limit && calls[i].windowMs == windowMs
  }

  function BucketOf(buckets: map<string, Bucket>, key: string): Option<Bucket> {
    if key in buckets then Some(buckets[key]) else None
  }

  /** One more call, counted or refused or for another key. */
  lemma CallKeepsBound(earlier: seq<Call>, c: Call, key: string, limit: int, windowMs: int)
    requires limit >= 1 && windowMs >= 1 && (c.key == key ==> c.limit == limit && c.windowMs == windowMs)
    requires Bounded(AcceptedTimes(earlier, key), BucketOf(After(earlier), key), limit, windowMs, c.now)
    ensures Bounded(AcceptedTimes(earlier + [c], key), BucketOf(After(earlier + [c]), key), limit, windowMs, c.now)
  {
    assert (earlier + [c])[..|earlier|] == earlier;
    var times, b := AcceptedTimes(earlier, key), BucketOf(After(earlier), key);
    if c.key == key && Opens(After(earlier), c) {
      OpeningKeepsBound(times, b, limit, windowMs, c.now, c.now);
    } else if c.key == key && Allowed(After(earlier), c) {
      CountingKeepsBound(times, b.value, limit, windowMs, c.now, c.now);
    }
  }

  lemma {:induction false} HistoryIsBounded(calls: seq<Call>, key: string, limit: int, windowMs: int, latest: int)
    requires limit >= 1 && windowMs >= 1 && InOrder(calls) && Uniform(calls, key, limit, windowMs)
    requires forall i :: 0 <= i < |calls| ==> calls[i].now <= latest
    ensures Bounded(AcceptedTimes(calls, key), BucketOf(After(calls), key), limit, windowMs, latest)
  {
    if calls == [] {
      assert forall a :: WindowOk([], a, limit, windowMs);
    } else {
      var earlier, c := calls[..|calls| - 1], calls[|calls| - 1];
      HistoryIsBounded(earlier, key, limit, windowMs, c.now);
      CallKeepsBound(earlier, c, key, limit, windowMs);
      assert calls == earlier + [c];
      LaterClock(AcceptedTimes(calls, key), BucketOf(After(calls), key), limit, windowMs, c.now, latest);
    }
  }

  lemma LaterClock(times: seq<int>, b: Option<Bucket>, limit: int, windowMs: int, now: int, later: int)
    requires Bounded(times, b, limit, windowMs, now) && now <= later
    ensures Bounded(times, b, limit, windowMs, later)
  {
  }

  /**
   However the calls arrive, any half-open stretch of windowMs sees fewer than twice the limit accepted for a
   key: one less than the two buckets it can touch would allow.
   */
  lemma WindowSeesFewerThanTwiceTheLimit(calls: seq<Call>, key: string, limit: int, windowMs: int, from: int)
    requires limit >= 1 && windowMs >= 1 && InOrder(calls) && Uniform(calls, key, limit, windowMs)
    ensures CountIn(AcceptedTimes(calls, key), from, from + windowMs) <= 2 * limit - 1
  {
    var latest := if calls == [] then 0 else calls[|calls| - 1].now;
    HistoryIsBounded(calls, key, limit, windowMs, latest);
    assert WindowOk(AcceptedTimes(calls, key), from, limit, windowMs);
  }

  /** A key's bucket counts exactly the calls accepted during its lifetime, and they never exceed the limit. */
  lemma BucketLifetimeSeesAtMostTheLimit(calls: seq<Call>, key: string, limit: int, windowMs: int)
    requires limit >= 1 && windowMs >= 1 && InOrder(calls) && Uniform(calls, key, limit, windowMs)
    requires key in After(calls)
    ensures var b := After(calls)[key];
      CountIn(AcceptedTimes(calls, key), b.resetAt - windowMs, b.resetAt) == b.count && 1 <= b.count <= limit
  {
    HistoryIsBounded(calls, key, limit, windowMs, calls[|calls| - 1].now);
    var b, times := After(calls)[key], AcceptedTimes(calls, key);
    CountSplits(times, b.resetAt - windowMs, b.resetAt - windowMs + 1, b.resetAt);
  }

  /** When the latest window opened, from the accepted times alone: at the first one, and at the first behind each. */
  function Opening(times: seq<int>, windowMs: int): Option<int> {
    if times == [] then None
    else
      var earlier, last := Opening(times[..|times| - 1], windowMs), times[|times| - 1];
      if earlier.None? || earlier.value + windowMs <= last then Some(last) else earlier
  }

  lemma OpeningOfAppend(times: seq<int>, t: int, windowMs: int)
    ensures Opening(times + [t], windowMs)
      == if Opening(times, windowMs).None? || Opening(times, windowMs).value + windowMs <= t then Some(t) else Opening(times, windowMs)
  {
    assert (times + [t])[..|times|] == times;
  }

  lemma {:induction false} BucketIsTheOpenWindow(calls: seq<Call>, key: string, limit: int, windowMs: int)
    requires Uniform(calls, key, limit, windowMs)
    ensures match Opening(AcceptedTimes(calls, key), windowMs)
            case None => key !in After(calls)
            case Some(open) => key in After(calls) && After(calls)[key].resetAt == open + windowMs
  {
    if calls != [] {
      var earlier, c := calls[..|calls| - 1], calls[|calls| - 1];
      BucketIsTheOpenWindow(earlier, key, limit, windowMs);
      OpeningOfAppend(AcceptedTimes(earlier, key), c.now, windowMs);
      assert c.key == key ==> c.windowMs == windowMs;
    }
  }

  /** A call is refused exactly when the key's window is still open and has accepted the limit. */
  lemma CallIsRefusedIff(calls: seq<Call>, c: Call)
    requires c.limit >= 1 && c.windowMs >= 1 && InOrder(calls) && Uniform(calls, c.key, c.limit, c.windowMs)
    ensures var times := AcceptedTimes(calls, c.key);
      !Allowed(After(calls), c)
      <==> match Opening(times, c.windowMs)
           case None => false
           case Some(open) => c.now < open + c.windowMs && CountIn(times, open, open + c.windowMs) == c.limit
  {
    BucketIsTheOpenWindow(calls, c.key, c.limit, c.windowMs);
    if c.key in After(calls) {
      BucketLifetimeSeesAtMostTheLimit(calls, c.key, c.limit, c.windowMs);
    }
  }

  // ------------------------------------------------------ the bound is met

  function Repeat(c: Call, n: nat): (calls: seq<Call>)
    ensures |calls| == n && forall i :: 0 <= i < n ==> calls[i] == c
  {
    seq(n, i => c)
  }

  lemma RepeatGrows(calls: seq<Call>, c: Call, n: nat)
    ensures calls + Repeat(c, 0) == calls
    ensures calls + Repeat(c, n + 1) == (calls + Repeat(c, n)) + [c]
  {
  }

  /** A key's standing after some calls: its bucket, and what it had accepted in [from, to). */
  ghost predicate Stands(calls: seq<Call>, key: string, b: Bucket, from: int, to: int, seen: int) {
    BucketOf(After(calls), key) == Some(b) && CountIn(AcceptedTimes(calls, key), from, to) == seen
  }

  function HitsIn(calls: nat, now: int, from: int, to: int): nat {
    if from <= now < to then calls else 0
  }

  lemma Counted(calls: seq<Call>, c: Call, b: Bucket, from: int, to: int, seen: int)
    requires Stands(calls, c.key, b, from, to, seen) && c.now < b.resetAt && b.count < c.limit
    ensures Stands(calls + [c], c.key, b.(count := b.count + 1), from, to, seen + HitsIn(1, c.now, from, to))
  {
    assert (calls + [c])[..|calls|] == calls;
    CountOfAppend(AcceptedTimes(calls, c.key), c.now, from, to);
  }

  lemma Opened(calls: seq<Call>, c: Call, from: int, to: int, seen: int)
    requires Opens(After(calls), c) && CountIn(AcceptedTimes(calls, c.key), from, to) == seen
    ensures Stands(calls + [c], c.key, Bucket(1, c.now + c.windowMs), from, to, seen + HitsIn(1, c.now, from, to))
  {
    assert (calls + [c])[..|calls|] == calls;
    CountOfAppend(AcceptedTimes(calls, c.key), c.now, from, to);
  }

  /** Calls at one instant are all accepted while the key's open bucket has room. */
  lemma {:induction false} BurstFills(calls: seq<Call>, c: Call, n: nat, b: Bucket, from: int, to: int, seen: int)
    requires Stands(calls, c.key, b, from, to, seen) && c.now < b.resetAt && b.count + n <= c.limit
    ensures Stands(calls + Repeat(c, n), c.key, b.(count := b.count + n), from, to, seen + HitsIn(n, c.now, from, to))
  {
    hide Stands, Repeat, After, AcceptedTimes, CountIn;
    if n == 0 {
      RepeatGrows(calls, c, 0);
    } else {
      BurstFills(calls, c, n - 1, b, from, to, seen);
      RepeatGrows(calls, c, n - 1);
      Counted(calls + Repeat(c, n - 1), c, b.(count := b.count + n - 1), from, to, seen + HitsIn(n - 1, c.now, from, to));
    }
  }

  /** Open a bucket, spend the rest of it just before it resets, then fill the next one at once. */
  function WorstCase(key: string, limit: int, windowMs: int): seq<Call>
    requires limit >= 1
  {
    [Call(key, limit, windowMs, 0)]
    + Repeat(Call(key, limit, windowMs, windowMs - 1), limit - 1)
    + [Call(key, limit, windowMs, windowMs)]
    + Repeat(Call(key, limit, windowMs, windowMs), limit - 1)
  }

  lemma WorstCaseIsInOrder(key: string, limit: int, windowMs: int)
    requires limit >= 1 && windowMs >= 1
    ensures InOrder(WorstCase(key, limit, windowMs)) && Uniform(WorstCase(key, limit, windowMs), key, limit, windowMs)
  {
  }

  lemma TwoBursts(first: Call, late: Call, reset: Call, from: int, to: int)
    requires first.key == late.key == reset.key && first.limit == late.limit == reset.limit >= 1
    requires first.now < from <= late.now < first.now + first.windowMs <= reset.now < to && reset.windowMs >= 1
    ensures var n := first.limit - 1;
      CountIn(AcceptedTimes([first] + Repeat(late, n) + [reset] + Repeat(reset, n), first.key), from, to) == 2 * first.limit - 1
  {
    var n := first.limit - 1;
    assert [] + [first] == [first];
    Opened([], first, from, to, 0);
    BurstFills([first], late, n, Bucket(1, first.now + first.windowMs), from, to, 0);
    var c2 := [first] + Repeat(late, n);
    Opened(c2, reset, from, to, n);
    BurstFills(c2 + [reset], reset, n, Bucket(1, reset.now + reset.windowMs), from, to, n + 1);
  }

  /** The bound cannot be lowered: this history reaches it. */
  lemma WorstCaseIsReached(key: string, limit: int, windowMs: int)
    requires limit >= 1 && windowMs >= 2
    ensures InOrder(WorstCase(key, limit, windowMs)) && Uniform(WorstCase(key, limit, windowMs), key, limit, windowMs)
    ensures CountIn(AcceptedTimes(WorstCase(key, limit, windowMs), key), windowMs - 1, 2 * windowMs - 1) == 2 * limit - 1
  {
    hide InOrder, Uniform, CountIn, AcceptedTimes, Repeat;
    WorstCaseIsInOrder(key, limit, windowMs);
    TwoBursts(Call(key, limit, windowMs, 0), Call(key, limit, windowMs, windowMs - 1), Call(key, limit, windowMs, windowMs),
              windowMs - 1, 2 * windowMs - 1);
  }
}
