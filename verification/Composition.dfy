/**
 Composition lines of an order and recipe lines of a bouquet: totals per item, their comparison, and what is
 short in stock. Quantities are exact thousandths, so the comparison's tolerance of a millionth never matters.
 */
module Composition {
  import opened Wrappers
  import opened Sorting

  datatype Line = Line(item: string, name: string, quantity: int)

  datatype Shortage = Shortage(item: string, name: string, needed: int, available: int, missing: int)

  // ------------------------------------------------------------ specification

  /** What the lines ask of an item: lines without a positive quantity ask for nothing. */
  function TotalOf(lines: seq<Line>, item: string): (total: nat) {
    if lines == [] then 0
    else
      var last := lines[|lines| - 1];
      TotalOf(lines[..|lines| - 1], item) + if last.item == item && last.quantity > 0 then last.quantity else 0
  }

  /** The name on the item's first line that counts. */
  function NameOf(lines: seq<Line>, item: string): string {
    if lines == [] then ""
    else if TotalOf(lines[..|lines| - 1], item) > 0 then NameOf(lines[..|lines| - 1], item)
    else lines[|lines| - 1].name
  }

  /** The items asked for, each once, in the order they are first met. */
  function Items(lines: seq<Line>): (items: seq<string>)
    ensures forall i, j :: 0 <= i < j < |items| ==> items[i] != items[j]
    ensures forall item :: item in items <==> TotalOf(lines, item) > 0
  {
    if lines == [] then []
    else
      var earlier, last := Items(lines[..|lines| - 1]), lines[|lines| - 1];
      if last.quantity > 0 && last.item !in earlier then earlier + [last.item] else earlier
  }

  function Needs(lines: seq<Line>): (needs: seq<Line>)
    ensures |needs| == |Items(lines)|
  {
    var items := Items(lines);
    seq(|items|, i requires 0 <= i < |items| => Line(items[i], NameOf(lines, items[i]), TotalOf(lines, items[i])))
  }

  lemma TotalOfAppend(lines: seq<Line>, line: Line, item: string)
    ensures TotalOf(lines + [line], item) == TotalOf(lines, item) + if line.item == item && line.quantity > 0 then line.quantity else 0
  {
    assert (lines + [line])[..|lines|] == lines;
  }

  predicate Asks(line: Line, item: string) {
    line.item == item && line.quantity > 0
  }

  /** The first line that asks for something of the item. */
  predicate FirstAsk(lines: seq<Line>, item: string, i: nat) {
    i < |lines| && Asks(lines[i], item) && forall j :: 0 <= j < i ==> !Asks(lines[j], item)
  }

  lemma {:induction false} TotalIsPositiveIff(lines: seq<Line>, item: string)
    ensures TotalOf(lines, item) > 0 <==> exists i :: 0 <= i < |lines| && Asks(lines[i], item)
  {
    if lines != [] {
      var rest := lines[..|lines| - 1];
      TotalIsPositiveIff(rest, item);
      if i :| 0 <= i < |rest| && Asks(rest[i], item) {
        assert Asks(lines[i], item);
      }
      if i :| 0 <= i < |lines| && Asks(lines[i], item) {
        assert i < |rest| ==> Asks(rest[i], item);
      }
    }
  }

  /** The name listed is that of the first line that asks for the item. */
  lemma {:induction false} NameIsOfTheFirstAsk(lines: seq<Line>, item: string, i: nat)
    requires FirstAsk(lines, item, i)
    ensures NameOf(lines, item) == lines[i].name
  {
    var rest := lines[..|lines| - 1];
    TotalIsPositiveIff(rest, item);
    if i < |rest| {
      assert FirstAsk(rest, item, i) && Asks(rest[i], item);
      NameIsOfTheFirstAsk(rest, item, i);
    } else {
      assert forall j :: 0 <= j < |rest| ==> rest[j] == lines[j];
    }
  }

  /** Items are listed in the order of the lines that first ask for them. */
  lemma {:induction false} ItemsComeInOrder(lines: seq<Line>, a: nat, b: nat, i: nat, j: nat)
    requires a < b < |Items(lines)| && FirstAsk(lines, Items(lines)[a], i) && FirstAsk(lines, Items(lines)[b], j)
    ensures i < j
  {
    var rest, n := lines[..|lines| - 1], |lines| - 1;
    var earlier := Items(rest);
    if b < |earlier| {
      assert TotalOf(rest, earlier[a]) > 0 && TotalOf(rest, earlier[b]) > 0 by {
        assert earlier[a] in earlier && earlier[b] in earlier;
      }
      TotalIsPositiveIff(rest, earlier[a]);
      TotalIsPositiveIff(rest, earlier[b]);
      var x :| 0 <= x < |rest| && Asks(rest[x], earlier[a]);
      var y :| 0 <= y < |rest| && Asks(rest[y], earlier[b]);
      assert i <= x && j <= y by {
        assert Asks(lines[x], earlier[a]) && Asks(lines[y], earlier[b]);
      }
      assert FirstAsk(rest, earlier[a], i) && FirstAsk(rest, earlier[b], j);
      ItemsComeInOrder(rest, a, b, i, j);
    } else {
      assert earlier[a] in earlier;
      TotalIsPositiveIff(rest, earlier[a]);
      var x :| 0 <= x < |rest| && Asks(rest[x], earlier[a]);
      assert Asks(lines[x], earlier[a]);
      assert Items(lines)[b] !in earlier;
      TotalIsPositiveIff(rest, Items(lines)[b]);
      assert forall y :: 0 <= y < n ==> (Asks(rest[y], Items(lines)[b]) <==> Asks(lines[y], Items(lines)[b]));
    }
  }

  // ------------------------------------------------------------- aggregation

  /** The insertion-ordered Map the loop builds: its keys in order, and the entry under each. */
  datatype Entries = Entries(keys: seq<string>, at: map<string, (string, int)>)

  /** It holds what the lines seen so far ask for. */
  ghost predicate Holds(e: Entries, lines: seq<Line>) {
    && e.keys == Items(lines)
    && (forall item :: item in e.at <==> item in e.keys)
    && (forall item :: item in e.at ==> e.at[item] == (NameOf(lines, item), TotalOf(lines, item)))
  }

  /** One turn of the loop. */
  function Enter(e: Entries, line: Line): Entries {
    if line.quantity <= 0 then e
    else if line.item in e.at then
      e.(at := e.at[line.item := (e.at[line.item].0, e.at[line.item].1 + line.quantity)])
    else Entries(e.keys + [line.item], e.at[line.item := (line.name, line.quantity)])
  }

  lemma EnterHolds(e: Entries, lines: seq<Line>, line: Line)
    requires Holds(e, lines)
    ensures Holds(Enter(e, line), lines + [line])
  {
    assert (lines + [line])[..|lines|] == lines;
    forall item | item in Enter(e, line).at
      ensures Enter(e, line).at[item] == (NameOf(lines + [line], item), TotalOf(lines + [line], item))
    {
      TotalOfAppend(lines, line, item);
    }
  }

  lemma EntriesAreNeeds(e: Entries, lines: seq<Line>)
    requires Holds(e, lines)
    ensures |e.keys| == |Needs(lines)|
    ensures forall i :: 0 <= i < |e.keys| ==>
      e.keys[i] in e.at && Needs(lines)[i] == Line(e.keys[i], e.at[e.keys[i]].0, e.at[e.keys[i]].1)
  {
  }

  lemma NothingHeld()
    ensures Holds(Entries([], map[]), [])
  {
  }

  method AggregateCompositionNeeds(lines: seq<Line>) returns (needs: seq<Line>)
    ensures needs == Needs(lines)
  {
    hide Items, TotalOf, NameOf, Holds, Needs;
    var entries := Entries([], map[]);
    NothingHeld();
    assert lines[..0] == [];
    for i := 0 to |lines|
      invariant Holds(entries, lines[..i])
    {
      EnterHolds(entries, lines[..i], lines[i]);
      assert lines[..i + 1] == lines[..i] + [lines[i]];
      var line := lines[i];
      if line.quantity > 0 {
        if line.item in entries.at {
          var prev := entries.at[line.item];
          entries := entries.(at := entries.at[line.item := (prev.0, prev.1 + line.quantity)]);
        } else {
          entries := Entries(entries.keys + [line.item], entries.at[line.item := (line.name, line.quantity)]);
        }
      }
    }
    assert lines[..|lines|] == lines;
    EntriesAreNeeds(entries, lines);
    needs := [];
    for i := 0 to |entries.keys|
      invariant |needs| == i && forall x :: 0 <= x < i ==> needs[x] == Needs(lines)[x]
    {
      var item := entries.keys[i];
      needs := needs + [Line(item, entries.at[item].0, entries.at[item].1)];
    }
  }

  /** compositionLinesToMap and recipeLinesToMap: one loop over two row shapes. */
  method LinesToMap(lines: seq<Line>) returns (m: map<string, int>)
    ensures forall item :: item in m <==> TotalOf(lines, item) > 0
    ensures forall item :: item in m ==> m[item] == TotalOf(lines, item)
  {
    m := map[];
    for i := 0 to |lines|
      invariant forall item :: item in m <==> TotalOf(lines[..i], item) > 0
      invariant forall item :: item in m ==> m[item] == TotalOf(lines[..i], item)
    {
      var line := lines[i];
      assert lines[..i + 1][..i] == lines[..i];
      if line.quantity > 0 {
        m := m[line.item := (if line.item in m then m[line.item] else 0) + line.quantity];
      }
    }
    assert lines[..|lines|] == lines;
  }

  // --------------------------------------------------------------- comparison

  /** A key set inside another of the same size is all of it. */
  lemma SameSizeSubset(a: set<string>, b: set<string>)
    requires a <= b && |a| == |b|
    ensures a == b
  {
    assert b == a + (b - a);
    assert |b| == |a| + |b - a|;
  }

  /** Sizes first, then each entry of the first map: enough to tell the maps equal. */
  method CompositionMapsEqual(a: map<string, int>, b: map<string, int>) returns (equal: bool)
    ensures equal <==> a == b
  {
    if |a| != |b| {
      return false;
    }
    var left := a.Keys;
    while left != {}
      invariant left <= a.Keys
      invariant forall item :: item in a.Keys - left ==> item in b && a[item] == b[item]
      decreases |left|
    {
      var item :| item in left;
      if item !in b || a[item] != b[item] {
        return false;
      }
      left := left - {item};
    }
    assert forall item :: item in a.Keys ==> item in a.Keys - left;
    SameSizeSubset(a.Keys, b.Keys);
    return true;
  }

  /** Two line lists match exactly when they ask the same total of every item, however ordered or split. */
  method CompositionsMatch(composition: seq<Line>, recipe: seq<Line>) returns (equal: bool)
    ensures equal <==> SameTotals(composition, recipe)
  {
    var a := LinesToMap(composition);
    var b := LinesToMap(recipe);
    equal := CompositionMapsEqual(a, b);
    MapsAgreeIff(a, b, composition, recipe);
  }

  ghost predicate Totals(m: map<string, int>, lines: seq<Line>) {
    && (forall item :: item in m <==> TotalOf(lines, item) > 0)
    && forall item :: item in m ==> m[item] == TotalOf(lines, item)
  }

  ghost predicate SameTotals(composition: seq<Line>, recipe: seq<Line>) {
    forall item :: TotalOf(composition, item) == TotalOf(recipe, item)
  }

  lemma MapsAgreeIff(a: map<string, int>, b: map<string, int>, composition: seq<Line>, recipe: seq<Line>)
    requires Totals(a, composition) && Totals(b, recipe)
    ensures a == b <==> SameTotals(composition, recipe)
  {
    if a == b {
      forall item ensures TotalOf(composition, item) == TotalOf(recipe, item) {
        assert item in a <==> item in b;
      }
    }
    if SameTotals(composition, recipe) {
      assert a.Keys == b.Keys;
    }
  }

  /** Order and grouping do not matter: a rearranged list asks for the same. */
  lemma {:induction false} TotalOfConcat(a: seq<Line>, b: seq<Line>, item: string)
    ensures TotalOf(a + b, item) == TotalOf(a, item) + TotalOf(b, item)
  {
    if b == [] {
      assert a + b == a;
    } else {
      var b', line := b[..|b| - 1], b[|b| - 1];
      TotalOfConcat(a, b', item);
      assert a + b == (a + b') + [line];
      TotalOfAppend(a + b', line, item);
    }
  }

  lemma WithoutOne<T>(a: seq<T>, b: seq<T>, k: nat)
    requires a != [] && multiset(a) == multiset(b) && k < |b| && b[k] == a[|a| - 1]
    ensures multiset(a[..|a| - 1]) == multiset(b[..k] + b[k + 1..])
  {
    var x, b' := b[k], b[..k] + b[k + 1..];
    assert a == a[..|a| - 1] + [x];
    assert b == b[..k] + [x] + b[k + 1..];
    assert multiset(a) == multiset(a[..|a| - 1]) + multiset{x};
    assert multiset(b) == multiset(b') + multiset{x};
    assert multiset(a[..|a| - 1]) == multiset(a) - multiset{x} == multiset(b) - multiset{x} == multiset(b');
  }

  lemma {:induction false} TotalOfPermutation(a: seq<Line>, b: seq<Line>, item: string)
    requires multiset(a) == multiset(b)
    ensures TotalOf(a, item) == TotalOf(b, item)
    decreases |a|
  {
    if a == [] {
      assert |multiset(b)| == |b|;
    } else {
      var line := a[|a| - 1];
      assert line in multiset(b);
      var k :| 0 <= k < |b| && b[k] == line;
      var b' := b[..k] + b[k + 1..];
      assert b == b[..k] + [line] + b[k + 1..];
      WithoutOne(a, b, k);
      TotalOfPermutation(a[..|a| - 1], b', item);
      TotalOfConcat(b[..k], b[k + 1..], item);
      TotalOfConcat(b[..k] + [line], b[k + 1..], item);
      TotalOfAppend(b[..k], line, item);
    }
  }

  /** Aggregating what is aggregated changes no total. */
  lemma AggregationKeepsTotals(lines: seq<Line>, item: string)
    ensures TotalOf(Needs(lines), item) == TotalOf(lines, item)
  {
    SumOverDistinct(Needs(lines), Items(lines), lines, item);
  }

  lemma {:induction false} SumOverDistinct(needs: seq<Line>, items: seq<string>, lines: seq<Line>, item: string)
    requires |needs| == |items| && forall i, j :: 0 <= i < j < |items| ==> items[i] != items[j]
    requires forall i :: 0 <= i < |needs| ==> needs[i].item == items[i] && needs[i].quantity == TotalOf(lines, items[i]) > 0
    ensures TotalOf(needs, item) == if item in items then TotalOf(lines, item) else 0
    decreases |needs|
  {
    if needs != [] {
      var n := |needs| - 1;
      SumOverDistinct(needs[..n], items[..n], lines, item);
      assert items == items[..n] + [items[n]];
    }
  }

  // ------------------------------------------------------------------ scaling

  /** For a whole number of bouquets. */
  function ScaleRecipeLines(lines: seq<Line>, multiplier: int): (scaled: seq<Line>)
    ensures |scaled| == if multiplier <= 0 then 0 else |lines|
  {
    if multiplier <= 0 then []
    else seq(|lines|, i requires 0 <= i < |lines| => lines[i].(quantity := lines[i].quantity * multiplier))
  }

  lemma ScaledSign(quantity: int, multiplier: int)
    requires multiplier > 0
    ensures quantity * multiplier > 0 <==> quantity > 0
  {
  }

  lemma Distribute(a: int, b: int, k: int)
    ensures (a + b) * k == a * k + b * k
  {
  }

  lemma {:induction false} ScalingMultipliesTotals(lines: seq<Line>, multiplier: nat, item: string)
    ensures TotalOf(ScaleRecipeLines(lines, multiplier), item) == TotalOf(lines, item) * multiplier
  {
    if multiplier > 0 && lines != [] {
      var rest, last := lines[..|lines| - 1], lines[|lines| - 1];
      ScalingMultipliesTotals(rest, multiplier, item);
      var scaled := ScaleRecipeLines(lines, multiplier);
      assert scaled[..|scaled| - 1] == ScaleRecipeLines(rest, multiplier);
      ScaledSign(last.quantity, multiplier);
      Distribute(TotalOf(rest, item), if last.item == item && last.quantity > 0 then last.quantity else 0, multiplier);
    }
  }

  // ---------------------------------------------------------------- shortages

  function AvailableOf(stock: map<string, int>, item: string): int {
    if item in stock then stock[item] else 0
  }

  predicate Short(line: Line, stock: map<string, int>) {
    line.quantity > AvailableOf(stock, line.item)
  }

  function ShortageOf(line: Line, stock: map<string, int>): Shortage {
    var available := AvailableOf(stock, line.item);
    Shortage(line.item, line.name, line.quantity, available, line.quantity - available)
  }

  function ShortagesOf(needs: seq<Line>, stock: map<string, int>): seq<Shortage> {
    if needs == [] then []
    else
      var last := needs[|needs| - 1];
      ShortagesOf(needs[..|needs| - 1], stock) + if Short(last, stock) then [ShortageOf(last, stock)] else []
  }

  function ByName(nameLeq: (string, string) -> bool): (Shortage, Shortage) -> bool {
    (a: Shortage, b: Shortage) => nameLeq(a.name, b.name)
  }

  method KeepShortages(needs: seq<Line>, stock: map<string, int>) returns (rows: seq<Shortage>)
    ensures rows == ShortagesOf(needs, stock)
  {
    rows := [];
    for i := 0 to |needs|
      invariant rows == ShortagesOf(needs[..i], stock)
    {
      assert needs[..i + 1][..i] == needs[..i];
      var needed, available := needs[i].quantity, AvailableOf(stock, needs[i].item);
      if needed > available {
        rows := rows + [Shortage(needs[i].item, needs[i].name, needed, available, needed - available)];
      }
    }
    assert needs[..|needs|] == needs;
  }

  method ComputeStockShortages(lines: seq<Line>, stock: map<string, int>, nameLeq: (string, string) -> bool)
    returns (shortages: seq<Shortage>)
    ensures shortages == Sort(ShortagesOf(Needs(lines), stock), ByName(nameLeq))
  {
    var needs := AggregateCompositionNeeds(lines);
    var rows := KeepShortages(needs, stock);
    shortages := Sort(rows, ByName(nameLeq));
  }

  lemma {:induction false} ShortageRows(needs: seq<Line>, stock: map<string, int>, s: Shortage)
    ensures s in ShortagesOf(needs, stock) <==> exists i :: 0 <= i < |needs| && Short(needs[i], stock) && s == ShortageOf(needs[i], stock)
  {
    if needs != [] {
      var rest, last := needs[..|needs| - 1], needs[|needs| - 1];
      ShortageRows(rest, stock, s);
      if i :| 0 <= i < |needs| && Short(needs[i], stock) && s == ShortageOf(needs[i], stock) {
        if i < |rest| {
          assert Short(rest[i], stock) && s == ShortageOf(rest[i], stock);
        }
      }
      if i :| 0 <= i < |rest| && Short(rest[i], stock) && s == ShortageOf(rest[i], stock) {
        assert Short(needs[i], stock) && s == ShortageOf(needs[i], stock);
      }
      if Short(last, stock) && s == ShortageOf(last, stock) {
        assert Short(needs[|needs| - 1], stock) && s == ShortageOf(needs[|needs| - 1], stock);
      }
    }
  }

  lemma NeedOf(lines: seq<Line>, i: nat)
    requires i < |Items(lines)|
    ensures Needs(lines)[i] == Line(Items(lines)[i], NameOf(lines, Items(lines)[i]), TotalOf(lines, Items(lines)[i]))
    ensures TotalOf(lines, Items(lines)[i]) > 0
  {
    assert Items(lines)[i] in Items(lines);
  }

  /** What the preview should say of an item. */
  function ExpectedShortage(lines: seq<Line>, stock: map<string, int>, item: string): Shortage {
    var needed, available := TotalOf(lines, item), if item in stock then stock[item] else 0;
    Shortage(item, NameOf(lines, item), needed, available, needed - available)
  }

  lemma ShortNeedsAreExact(lines: seq<Line>, stock: map<string, int>, s: Shortage)
    ensures s in ShortagesOf(Needs(lines), stock)
      <==> TotalOf(lines, s.item) > 0 && s.missing > 0 && s == ExpectedShortage(lines, stock, s.item)
  {
    var needs, items := Needs(lines), Items(lines);
    ShortageRows(needs, stock, s);
    if i :| 0 <= i < |needs| && Short(needs[i], stock) && s == ShortageOf(needs[i], stock) {
      NeedOf(lines, i);
    }
    if TotalOf(lines, s.item) > 0 {
      var i :| 0 <= i < |items| && items[i] == s.item;
      NeedOf(lines, i);
    }
  }

  /** The preview lists exactly the items whose total need exceeds the stock, with what is missing of each. */
  lemma ShortagesAreExact(lines: seq<Line>, stock: map<string, int>, nameLeq: (string, string) -> bool, s: Shortage)
    ensures s in Sort(ShortagesOf(Needs(lines), stock), ByName(nameLeq))
      <==> TotalOf(lines, s.item) > 0 && s.missing > 0 && s == ExpectedShortage(lines, stock, s.item)
  {
    var rows := ShortagesOf(Needs(lines), stock);
    assert s in multiset(Sort(rows, ByName(nameLeq))) <==> s in multiset(rows);
    ShortNeedsAreExact(lines, stock, s);
  }

  /** The preview is in the order of the names. */
  lemma ShortagesAreByName(lines: seq<Line>, stock: map<string, int>, nameLeq: (string, string) -> bool, i: nat, j: nat)
    requires TotalPreorder(nameLeq) && i < j < |Sort(ShortagesOf(Needs(lines), stock), ByName(nameLeq))|
    ensures var sorted := Sort(ShortagesOf(Needs(lines), stock), ByName(nameLeq)); nameLeq(sorted[i].name, sorted[j].name)
  {
    hide Sort, TotalPreorder, ShortagesOf, Needs;
    SortedByName(ShortagesOf(Needs(lines), stock), nameLeq, i, j);
  }

  lemma NamesOrderRows(nameLeq: (string, string) -> bool)
    requires TotalPreorder(nameLeq)
    ensures TotalPreorder(ByName(nameLeq))
  {
    forall a, b ensures ByName(nameLeq)(a, b) || ByName(nameLeq)(b, a) {
      assert nameLeq(a.name, b.name) || nameLeq(b.name, a.name);
    }
    forall a, b, c | ByName(nameLeq)(a, b) && ByName(nameLeq)(b, c) ensures ByName(nameLeq)(a, c) {
      assert nameLeq(a.name, b.name) && nameLeq(b.name, c.name);
    }
  }

  lemma SortedByName(rows: seq<Shortage>, nameLeq: (string, string) -> bool, i: nat, j: nat)
    requires TotalPreorder(nameLeq) && i < j < |Sort(rows, ByName(nameLeq))|
    ensures nameLeq(Sort(rows, ByName(nameLeq))[i].name, Sort(rows, ByName(nameLeq))[j].name)
  {
    hide Sort, TotalPreorder;
    NamesOrderRows(nameLeq);
    SortIsOrdered(rows, ByName(nameLeq));
    assert ByName(nameLeq)(Sort(rows, ByName(nameLeq))[i], Sort(rows, ByName(nameLeq))[j]);
  }

  lemma {:induction false} ShortageRowsDistinct(needs: seq<Line>, stock: map<string, int>, item: string)
    requires forall i, j :: 0 <= i < j < |needs| ==> needs[i].item != needs[j].item
    ensures CountItem(ShortagesOf(needs, stock), item) <= CountNeeds(needs, item) <= 1
  {
    if needs != [] {
      var rest, last := needs[..|needs| - 1], needs[|needs| - 1];
      ShortageRowsDistinct(rest, stock, item);
      var rows := ShortagesOf(rest, stock);
      if Short(last, stock) {
        assert (rows + [ShortageOf(last, stock)])[..|rows|] == rows;
      } else {
        assert ShortagesOf(needs, stock) == rows;
      }
      if last.item == item {
        NoNeeds(rest, item);
      }
    }
  }

  function CountItem(rows: seq<Shortage>, item: string): nat {
    if rows == [] then 0 else CountItem(rows[..|rows| - 1], item) + if rows[|rows| - 1].item == item then 1 else 0
  }

  function CountNeeds(needs: seq<Line>, item: string): nat {
    if needs == [] then 0 else CountNeeds(needs[..|needs| - 1], item) + if needs[|needs| - 1].item == item then 1 else 0
  }

  lemma {:induction false} NoNeeds(needs: seq<Line>, item: string)
    requires forall i :: 0 <= i < |needs| ==> needs[i].item != item
    ensures CountNeeds(needs, item) == 0
  {
    if needs != [] {
      NoNeeds(needs[..|needs| - 1], item);
    }
  }

  /** No item is listed twice. */
  lemma EachShortageOnce(lines: seq<Line>, stock: map<string, int>, item: string)
    ensures CountItem(ShortagesOf(Needs(lines), stock), item) <= 1
  {
    ShortageRowsDistinct(Needs(lines), stock, item);
  }
}
