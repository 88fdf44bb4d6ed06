/** A stable sort of rows by a comparison, as Array.prototype.sort gives. */
module Sorting {

  /** A comparison that orders any two rows, consistently. */
  ghost predicate TotalPreorder<T(!new)>(leq: (T, T) -> bool) {
    && (forall a, b :: leq(a, b) || leq(b, a))
    && forall a, b, c :: leq(a, b) && leq(b, c) ==> leq(a, c)
  }

  /** Inserts behind every row that may stay in front. */
  function Insert<T>(s: seq<T>, x: T, leq: (T, T) -> bool): (r: seq<T>)
    ensures multiset(r) == multiset(s) + multiset{x}
  {
    if s == [] then [x]
    else
      var last, rest := s[|s| - 1], s[..|s| - 1];
      assert s == rest + [last];
      if leq(last, x) then s + [x] else Insert(rest, x, leq) + [last]
  }

  function Sort<T>(s: seq<T>, leq: (T, T) -> bool): (r: seq<T>)
    ensures multiset(r) == multiset(s)
  {
    if s == [] then []
    else
      assert s == s[..|s| - 1] + [s[|s| - 1]];
      Insert(Sort(s[..|s| - 1], leq), s[|s| - 1], leq)
  }

  predicate Ordered<T>(s: seq<T>, leq: (T, T) -> bool) {
    forall i, j :: 0 <= i < j < |s| ==> leq(s[i], s[j])
  }

  lemma {:induction false} InsertMembers<T>(s: seq<T>, x: T, leq: (T, T) -> bool)
    ensures forall y :: y in Insert(s, x, leq) <==> y in s || y == x
  {
    forall y ensures y in Insert(s, x, leq) <==> y in s || y == x {
      assert y in multiset(Insert(s, x, leq)) <==> y in multiset(s) + multiset{x};
    }
  }

  lemma {:induction false} InsertKeepsOrder<T(!new)>(s: seq<T>, x: T, leq: (T, T) -> bool)
    requires TotalPreorder(leq) && Ordered(s, leq)
    ensures Ordered(Insert(s, x, leq), leq)
  {
    if s != [] {
      var last, rest := s[|s| - 1], s[..|s| - 1];
      if leq(last, x) {
        forall i | 0 <= i < |s| ensures leq(s[i], x) {
          assert i < |s| - 1 ==> leq(s[i], last);
        }
      } else {
        InsertKeepsOrder(rest, x, leq);
        InsertMembers(rest, x, leq);
        var inner := Insert(rest, x, leq);
        forall i | 0 <= i < |inner| ensures leq(inner[i], last) {
          assert inner[i] in inner;
          if inner[i] != x {
            var k :| 0 <= k < |rest| && rest[k] == inner[i];
            assert leq(s[k], s[|s| - 1]);
          }
        }
      }
    }
  }

  lemma {:induction false} SortIsOrdered<T(!new)>(s: seq<T>, leq: (T, T) -> bool)
    requires TotalPreorder(leq)
    ensures Ordered(Sort(s, leq), leq)
  {
    if s != [] {
      SortIsOrdered(s[..|s| - 1], leq);
      InsertKeepsOrder(Sort(s[..|s| - 1], leq), s[|s| - 1], leq);
    }
  }

  /** Sorting an ordered page changes nothing: equal rows keep the order they came in. */
  lemma {:induction false} SortIsStable<T>(s: seq<T>, leq: (T, T) -> bool)
    requires Ordered(s, leq)
    ensures Sort(s, leq) == s
  {
    if s != [] {
      var rest := s[..|s| - 1];
      SortIsStable(rest, leq);
      assert s == rest + [s[|s| - 1]];
      if rest != [] {
        assert leq(s[|s| - 2], s[|s| - 1]);
      }
    }
  }
  /** Neither has to stand in front of the other. */
  predicate Alike<T(!new)>(leq: (T, T) -> bool, a: T, b: T) {
    leq(a, b) && leq(b, a)
  }

  /** The rows that rank alike with a given one, in their order. */
  function RankedWith<T(!new)>(s: seq<T>, leq: (T, T) -> bool, x: T): seq<T> {
    if s == [] then []
    else RankedWith(s[..|s| - 1], leq, x) + if Alike(leq, s[|s| - 1], x) then [s[|s| - 1]] else []
  }

  lemma RankedWithAppend<T(!new)>(s: seq<T>, y: T, leq: (T, T) -> bool, x: T)
    ensures RankedWith(s + [y], leq, x) == RankedWith(s, leq, x) + if Alike(leq, y, x) then [y] else []
  {
    assert (s + [y])[..|s|] == s;
  }

  /** An inserted row goes behind all that rank alike with it. */
  lemma {:induction false} InsertKeepsRanked<T(!new)>(s: seq<T>, y: T, leq: (T, T) -> bool, x: T)
    requires TotalPreorder(leq)
    ensures RankedWith(Insert(s, y, leq), leq, x) == RankedWith(s + [y], leq, x)
  {
    RankedWithAppend(s, y, leq, x);
    if s == [] {
      assert [] + [y] == [y];
    } else {
      var last, rest := s[|s| - 1], s[..|s| - 1];
      if !leq(last, y) {
        InsertKeepsRanked(rest, y, leq, x);
        RankedWithAppend(rest, y, leq, x);
        RankedWithAppend(Insert(rest, y, leq), last, leq, x);
        assert !(Alike(leq, last, x) && Alike(leq, y, x));
      }
    }
  }

  /** Rows that rank alike keep the order they came in. */
  lemma {:induction false} SortKeepsRanked<T(!new)>(s: seq<T>, leq: (T, T) -> bool, x: T)
    requires TotalPreorder(leq)
    ensures RankedWith(Sort(s, leq), leq, x) == RankedWith(s, leq, x)
  {
    if s != [] {
      var rest, y := s[..|s| - 1], s[|s| - 1];
      SortKeepsRanked(rest, leq, x);
      InsertKeepsRanked(Sort(rest, leq), y, leq, x);
      RankedWithAppend(Sort(rest, leq), y, leq, x);
    }
  }
}
