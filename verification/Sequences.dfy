/** Sums over table rows and searches through them. */
module Sequences {
  import opened Wrappers

  /** The sum of a measure over all rows. Rows are appended at the end, so the sum unrolls there. */
  function Sum<T>(s: seq<T>, f: T -> int): int {
    if s == [] then 0 else Sum(s[..|s| - 1], f) + f(s[|s| - 1])
  }

  lemma SumAppend<T>(s: seq<T>, x: T, f: T -> int)
    ensures Sum(s + [x], f) == Sum(s, f) + f(x)
  {
    assert (s + [x])[..|s|] == s;
  }

  lemma {:induction false} SumConcat<T>(s: seq<T>, u: seq<T>, f: T -> int)
    ensures Sum(s + u, f) == Sum(s, f) + Sum(u, f)
  {
    if u == [] {
      assert s + u == s;
    } else {
      assert (s + u)[..|s + u| - 1] == s + u[..|u| - 1];
      SumConcat(s, u[..|u| - 1], f);
    }
  }

  lemma SumFromHead<T>(s: seq<T>, f: T -> int)
    requires s != []
    ensures Sum(s, f) == f(s[0]) + Sum(s[1..], f)
  {
    assert s == [s[0]] + s[1..];
    SumConcat([s[0]], s[1..], f);
    assert [s[0]][..0] == [];
  }

  lemma {:induction false} SumUpdate<T>(s: seq<T>, i: nat, x: T, f: T -> int)
    requires i < |s|
    ensures Sum(s[i := x], f) == Sum(s, f) - f(s[i]) + f(x)
  {
    var n := |s| - 1;
    if i == n {
      assert s[i := x][..n] == s[..n];
    } else {
      assert s[i := x][..n] == s[..n][i := x];
      SumUpdate(s[..n], i, x, f);
    }
  }

  lemma {:induction false} SumAgree<T>(s: seq<T>, f: T -> int, g: T -> int)
    requires forall x :: x in s ==> f(x) == g(x)
    ensures Sum(s, f) == Sum(s, g)
  {
    if s != [] {
      SumAgree(s[..|s| - 1], f, g);
    }
  }

  lemma {:induction false} SumZero<T>(s: seq<T>, f: T -> int)
    requires forall x :: x in s ==> f(x) == 0
    ensures Sum(s, f) == 0
  {
    if s != [] {
      SumZero(s[..|s| - 1], f);
    }
  }

  lemma {:induction false} SumNonNegative<T>(s: seq<T>, f: T -> int)
    requires forall x :: x in s ==> f(x) >= 0
    ensures Sum(s, f) >= 0
    ensures forall i :: 0 <= i < |s| ==> f(s[i]) <= Sum(s, f)
  {
    if s != [] {
      SumNonNegative(s[..|s| - 1], f);
      forall i | 0 <= i < |s| - 1 ensures f(s[i]) <= Sum(s, f) {
        assert s[i] == s[..|s| - 1][i];
      }
    }
  }

  lemma {:induction false} SumOrdered<T>(s: seq<T>, f: T -> int, g: T -> int)
    requires forall x :: x in s ==> f(x) <= g(x)
    ensures Sum(s, f) <= Sum(s, g)
  {
    if s != [] {
      SumOrdered(s[..|s| - 1], f, g);
    }
  }

  /** Two different rows never count for more than the whole. */
  lemma {:induction false} SumOfTwo<T>(s: seq<T>, f: T -> int, a: nat, b: nat)
    requires forall x :: x in s ==> f(x) >= 0
    requires a < b < |s|
    ensures f(s[a]) + f(s[b]) <= Sum(s, f)
  {
    var n := |s| - 1;
    if b == n {
      SumNonNegative(s[..n], f);
      assert s[..n][a] == s[a];
    } else {
      SumOfTwo(s[..n], f, a, b);
    }
  }

  /** If at most one row counts, and for no more than a bound, the sum keeps the bound. */
  lemma {:induction false} SumOfOne<T>(s: seq<T>, f: T -> int, p: T -> bool, bound: int)
    requires bound >= 0
    requires forall x :: x in s ==> f(x) <= (if p(x) then bound else 0)
    requires forall a, b :: 0 <= a < b < |s| ==> !(p(s[a]) && p(s[b]))
    ensures Sum(s, f) <= bound
  {
    if s != [] {
      var n := |s| - 1;
      if p(s[n]) {
        forall x | x in s[..n] ensures f(x) <= 0 {
          var a :| 0 <= a < n && s[a] == x;
        }
        SumOrdered(s[..n], f, _ => 0);
        SumZero(s[..n], _ => 0);
      } else {
        SumOfOne(s[..n], f, p, bound);
      }
    }
  }

  /** The positions of the rows a query selects, oldest row first. */
  function Matching<T>(s: seq<T>, p: T -> bool): (rows: seq<nat>)
    ensures forall i :: i in rows <==> 0 <= i < |s| && p(s[i])
    ensures forall a :: 0 <= a < |rows| ==> rows[a] < |s|
    ensures forall a, b :: 0 <= a < b < |rows| ==> rows[a] < rows[b]
  {
    if s == [] then []
    else
      var n := |s| - 1;
      var rest := Matching(s[..n], p);
      if p(s[n]) then rest + [n] else rest
  }

  /** The first row a query selects. */
  function FindFirst<T>(s: seq<T>, p: T -> bool): (row: Option<nat>)
    ensures row.Some? ==> row.value < |s| && p(s[row.value]) && forall i :: 0 <= i < row.value ==> !p(s[i])
    ensures row.None? ==> forall i :: 0 <= i < |s| ==> !p(s[i])
  {
    var rows := Matching(s, p);
    if rows == [] then None
    else
      assert rows[0] in rows;
      Some(rows[0])
  }

  // ------------------------------------------------------------- chosen rows

  predicate InTable<T>(s: seq<T>, rows: seq<nat>) {
    forall n :: 0 <= n < |rows| ==> rows[n] < |s|
  }

  /** A measure summed over chosen rows of a table. */
  function SumRows<T>(s: seq<T>, rows: seq<nat>, f: T -> int): int
    requires InTable(s, rows)
    decreases rows
  {
    if rows == [] then 0 else f(s[rows[0]]) + SumRows(s, rows[1..], f)
  }

  lemma {:induction false} SumRowsAppend<T>(s: seq<T>, rows: seq<nat>, row: nat, f: T -> int)
    requires InTable(s, rows) && row < |s|
    ensures SumRows(s, rows + [row], f) == SumRows(s, rows, f) + f(s[row])
    decreases rows
  {
    if rows == [] {
      assert (rows + [row])[1..] == [];
    } else {
      assert (rows + [row])[1..] == rows[1..] + [row];
      SumRowsAppend(s, rows[1..], row, f);
    }
  }

  lemma {:induction false} SumRowsOfLonger<T>(s: seq<T>, longer: seq<T>, rows: seq<nat>, f: T -> int)
    requires InTable(s, rows) && s <= longer
    ensures SumRows(longer, rows, f) == SumRows(s, rows, f)
    decreases rows
  {
    if rows != [] {
      SumRowsOfLonger(s, longer, rows[1..], f);
    }
  }

  /** Summing over the rows a query finds is summing over the whole table, if nothing else counts. */
  lemma {:induction false} SumOfMatching<T(!new)>(s: seq<T>, p: T -> bool, f: T -> int)
    requires forall x :: !p(x) ==> f(x) == 0
    ensures SumRows(s, Matching(s, p), f) == Sum(s, f)
  {
    if s != [] {
      var n := |s| - 1;
      var rest := Matching(s[..n], p);
      SumOfMatching(s[..n], p, f);
      SumRowsOfLonger(s[..n], s, rest, f);
      if p(s[n]) {
        SumRowsAppend(s, rest, n, f);
      }
    }
  }
}
