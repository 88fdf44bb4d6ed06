/**
 When a write-off succeeds. With every hold covered, a line goes through exactly when nobody holds what it asks
 for and its own identifier has not been written off before: its first slice carries it.
 */
module InventoryWasted {
  import opened Wrappers
  import opened Sequences
  import opened InventoryTables
  import opened InventoryInvariant
  import opened InventoryIssue
  import opened InventoryIssueProofs
  import opened InventoryWriteOff
  import opened InventoryCoverage
  import opened InventoryConsumption
  import opened InventoryTotals
  import opened InventoryIssuable

  /** A movement that carries a write-off item's identifier. */
  predicate Carries(m: Movement, org: nat, writeOffItem: nat) {
    m.key.scope.org == org && m.kind == WriteOff && m.sourceType == WriteOffItem && m.sourceItem == Given(writeOffItem)
  }

  predicate Unwasted(t: Tables, org: nat, writeOffItem: nat) {
    forall j :: 0 <= j < |t.movements| ==> !Carries(t.movements[j], org, writeOffItem)
  }

  // ------------------------------------------------------------- one slice

  /** The row of a slice can be written unless it is a line's first and the line has been written off before. */
  lemma SliceRowIsFreeIff(t: Tables, cmd: WriteOffCommand, line: WriteOffLine, i: nat, take: int, needed: int)
    requires Inv(t) && i < |t.batches|
    ensures SourceFree(t.movements, WriteOffMovement(t, cmd, line, i, take, needed))
      <==> (needed == line.quantity ==> Unwasted(t, cmd.scope.org, line.writeOffItem))
  {
    var m := WriteOffMovement(t, cmd, line, i, take, needed);
    forall j | 0 <= j < |t.movements|
      ensures SameSource(t.movements[j], m) <==> needed == line.quantity && Carries(t.movements[j], cmd.scope.org, line.writeOffItem)
    {
      assert MovementRowOk(t, j);
    }
  }

  lemma WasteSliceIsWritten(t: Tables, cmd: WriteOffCommand, line: WriteOffLine, i: nat, needed: int)
    requires Inv(t) && Covered(t) && i < |t.batches| && t.batches[i].key == StockKey(cmd.scope, line.item) && needed > 0
    requires needed == line.quantity ==> Unwasted(t, cmd.scope.org, line.writeOffItem)
    ensures WriteOffSlice(t, cmd, line, i, needed).Ok?
  {
    var k := StockKey(cmd.scope, line.item);
    if FreeOn(t, i) > 0 {
      var take := Min(FreeOn(t, i), needed);
      FreeOnOneBatch(t, k, |t.batches|, i);
      FreeLiesOnBatches(t, k);
      HeldIsNonNegative(t, i);
      assert BatchShapeOk(t.batches[i]);
      SliceRowIsFreeIff(t, cmd, line, i, take, needed);
      assert ReservedAgrees(t, k) && Reserved(t, k) >= 0;
    }
  }

  lemma WasteSliceEffect(t: Tables, cmd: WriteOffCommand, line: WriteOffLine, i: nat, needed: int)
    requires Covered(t) && i < |t.batches| && needed > 0 && WriteOffSlice(t, cmd, line, i, needed).Ok?
    ensures var p := WriteOffSlice(t, cmd, line, i, needed).value;
      && Covered(p.tables) && |p.tables.batches| == |t.batches| && p.tables.reservations == t.reservations
      && (forall x :: 0 <= x < |t.batches| && x != i ==> p.tables.batches[x] == t.batches[x])
      && p.tables.batches[i].key == t.batches[i].key
      && (p.remaining > 0 ==> FreeOn(p.tables, i) <= 0) && 0 <= p.remaining
      && (p.remaining == needed ==> p.tables == t)
  {
    var p := WriteOffSlice(t, cmd, line, i, needed).value;
    forall x | 0 <= x < |t.batches| ensures Held(p.tables, x) <= p.tables.batches[x].remaining {
      assert Held(t, x) <= t.batches[x].remaining;
    }
  }

  // ------------------------------------------------------------- the walk

  lemma {:induction false} WasteWalkGoesThrough(t: Tables, cmd: WriteOffCommand, line: WriteOffLine, order: seq<nat>, needed: int)
    requires Inv(t) && Covered(t) && needed <= line.quantity
    requires needed == line.quantity ==> Unwasted(t, cmd.scope.org, line.writeOffItem)
    requires forall n :: 0 <= n < |order| ==> order[n] < |t.batches|
    requires forall n :: 0 <= n < |order| ==> t.batches[order[n]].key == StockKey(cmd.scope, line.item)
    requires Distinct(order)
    ensures WriteOffSlices(t, cmd, line, order, needed).Ok?
    ensures var p := WriteOffSlices(t, cmd, line, order, needed).value;
      && Inv(p.tables) && Covered(p.tables) && |p.tables.batches| == |t.batches| && p.tables.reservations == t.reservations
      && (forall i :: 0 <= i < |t.batches| ==> p.tables.batches[i].key == t.batches[i].key)
      && (forall i :: 0 <= i < |t.batches| && i !in order ==> FreeOn(p.tables, i) == FreeOn(t, i))
      && (p.remaining > 0 ==> forall i :: i in order ==> FreeOn(p.tables, i) <= 0)
    decreases order
  {
    if order != [] && needed > 0 {
      hide Inv, Covered, WriteOffSlice;
      WasteSliceIsWritten(t, cmd, line, order[0], needed);
      var p := WriteOffSlice(t, cmd, line, order[0], needed).value;
      WriteOffSliceKeepsInv(t, cmd, line, order[0], needed);
      WasteSliceEffect(t, cmd, line, order[0], needed);
      WasteSliceMoves(t, cmd, line, order[0], needed);
      assert order[0] !in order[1..];
      WasteWalkGoesThrough(p.tables, cmd, line, order[1..], p.remaining);
      assert forall i :: i in order <==> i == order[0] || i in order[1..];
    }
  }

  lemma WasteSliceMoves(t: Tables, cmd: WriteOffCommand, line: WriteOffLine, i: nat, needed: int)
    requires i < |t.batches| && needed > 0 && WriteOffSlice(t, cmd, line, i, needed).Ok?
    ensures WriteOffSlice(t, cmd, line, i, needed).value.remaining <= needed
  {
  }

  /** A line written off before takes nothing: its first slice would repeat its row. */
  lemma {:induction false} WasteWalkStops(t: Tables, cmd: WriteOffCommand, line: WriteOffLine, order: seq<nat>)
    requires Inv(t) && !Unwasted(t, cmd.scope.org, line.writeOffItem) && line.quantity > 0
    requires forall n :: 0 <= n < |order| ==> order[n] < |t.batches|
    requires WriteOffSlices(t, cmd, line, order, line.quantity).Ok?
    ensures WriteOffSlices(t, cmd, line, order, line.quantity).value.remaining == line.quantity
    decreases order
  {
    if order != [] {
      var i := order[0];
      if FreeOn(t, i) > 0 {
        SliceRowIsFreeIff(t, cmd, line, i, Min(FreeOn(t, i), line.quantity), line.quantity);
        assert false;
      }
      WasteWalkStops(t, cmd, line, order[1..]);
    }
  }

  // ------------------------------------------------------------- one line

  lemma OrderIsOfTheItem(t: Tables, k: StockKey)
    ensures forall n :: 0 <= n < |ConsumptionOrder(t, k)| ==> t.batches[ConsumptionOrder(t, k)[n]].key == k
  {
    var order := ConsumptionOrder(t, k);
    forall n | 0 <= n < |order| ensures t.batches[order[n]].key == k {
      assert order[n] in order;
    }
  }

  /** Not enough found means nothing free is left of the item. */
  lemma NothingLeft(t: Tables, t': Tables, k: StockKey)
    requires Inv(t) && Inv(t') && |t'.batches| == |t.batches|
    requires forall i :: 0 <= i < |t.batches| ==> t'.batches[i].key == t.batches[i].key
    requires forall i :: 0 <= i < |t.batches| && i !in ConsumptionOrder(t, k) ==> FreeOn(t', i) == FreeOn(t, i)
    requires forall i :: i in ConsumptionOrder(t, k) ==> FreeOn(t', i) <= 0
    ensures Free(t', k) <= 0
  {
    forall i | 0 <= i < |t'.batches| && t'.batches[i].key == k ensures FreeOn(t', i) <= 0 {
      if i !in ConsumptionOrder(t, k) {
        assert BatchShapeOk(t.batches[i]);
        HeldIsNonNegative(t, i);
      }
    }
    NothingFree(t', k, |t'.batches|);
    FreeLiesOnBatches(t', k);
  }

  lemma FreeIsNatural(t: Tables, k: StockKey)
    requires Inv(t) && Covered(t)
    ensures Free(t, k) >= 0
  {
    FreeLiesOnBatches(t, k);
    FreeUpToIsNatural(t, k, |t.batches|);
  }

  /** What of a line's quantity can be had from free stock is what the balance calls free. */
  lemma FreeStockWastesIff(t: Tables, cmd: WriteOffCommand, line: WriteOffLine)
    requires Inv(t) && Covered(t) && line.quantity > 0 && Unwasted(t, cmd.scope.org, line.writeOffItem)
    ensures PostWriteOffLine(t, cmd, line).Ok? <==> line.quantity <= Free(t, StockKey(cmd.scope, line.item))
  {
    hide Inv, Covered, WriteOffSlices, Unwasted, FreeOn;
    var k := StockKey(cmd.scope, line.item);
    var order := ConsumptionOrder(t, k);
    OrderIsOfTheItem(t, k);
    WasteWalkGoesThrough(t, cmd, line, order, line.quantity);
    WriteOffSlicesMove(t, cmd, line, order, line.quantity, k);
    var p := WriteOffSlices(t, cmd, line, order, line.quantity).value;
    ReservedIsOfTheHolds(t, p.tables, k);
    FreeIsNatural(p.tables, k);
    if p.remaining > 0 {
      NothingLeft(t, p.tables, k);
    }
  }

  lemma ReservedIsOfTheHolds(t: Tables, t': Tables, k: StockKey)
    requires Inv(t) && Inv(t') && t'.reservations == t.reservations
    ensures Reserved(t', k) == Reserved(t, k)
  {
    assert ReservedAgrees(t, k) && ReservedAgrees(t', k);
  }

  /**
   With holds covered, a line is written off exactly when it asks for nothing, or for no more than nobody holds
   and under an identifier that has not been written off.
   */
  lemma LineWastesIff(t: Tables, cmd: WriteOffCommand, line: WriteOffLine)
    requires Inv(t) && Covered(t)
    ensures PostWriteOffLine(t, cmd, line).Ok?
      <==> (line.quantity > 0 ==>
              line.quantity <= Free(t, StockKey(cmd.scope, line.item)) && Unwasted(t, cmd.scope.org, line.writeOffItem))
  {
    hide Inv, Covered, Unwasted, Free;
    if line.quantity > 0 {
      if Unwasted(t, cmd.scope.org, line.writeOffItem) {
        FreeStockWastesIff(t, cmd, line);
      } else if PostWriteOffLine(t, cmd, line).Ok? {
        WasteWalkStops(t, cmd, line, ConsumptionOrder(t, StockKey(cmd.scope, line.item)));
      }
    }
  }

  // -------------------------------------------------------- the rows it writes

  /** The first new row carries the line's identifier, the others have one made up for them. */
  predicate NamedOnce(before: seq<Movement>, after: seq<Movement>, org: nat, writeOffItem: nat, started: bool) {
    && before <= after
    && forall j :: |before| <= j < |after| ==>
         if j == |before| && !started then Carries(after[j], org, writeOffItem) else after[j].sourceItem.Minted?
  }

  lemma {:induction false} WasteRowsAreNamed(t: Tables, cmd: WriteOffCommand, line: WriteOffLine, order: seq<nat>, needed: int)
    requires needed <= line.quantity && forall n :: 0 <= n < |order| ==> order[n] < |t.batches|
    requires WriteOffSlices(t, cmd, line, order, needed).Ok?
    ensures var p := WriteOffSlices(t, cmd, line, order, needed).value;
      && NamedOnce(t.movements, p.tables.movements, cmd.scope.org, line.writeOffItem, needed < line.quantity)
      && (p.remaining < needed ==> |t.movements| < |p.tables.movements|)
    decreases order
  {
    if order != [] && needed > 0 {
      var p := WriteOffSlice(t, cmd, line, order[0], needed).value;
      OneWasteRow(t, cmd, line, order[0], needed);
      hide WriteOffSlice;
      WasteRowsAreNamed(p.tables, cmd, line, order[1..], p.remaining);
    }
  }

  lemma OneWasteRow(t: Tables, cmd: WriteOffCommand, line: WriteOffLine, i: nat, needed: int)
    requires i < |t.batches| && needed > 0 && needed <= line.quantity && WriteOffSlice(t, cmd, line, i, needed).Ok?
    ensures var p := WriteOffSlice(t, cmd, line, i, needed).value;
      if p.remaining == needed then p.tables == t
      else && p.remaining < needed && |p.tables.movements| == |t.movements| + 1
           && NamedOnce(t.movements, p.tables.movements, cmd.scope.org, line.writeOffItem, needed < line.quantity)
  {
  }

  /** What a line leaves for the others. */
  lemma AfterOneWaste(t: Tables, cmd: WriteOffCommand, line: WriteOffLine, x: StockKey, id: nat)
    requires Inv(t) && Covered(t) && PostWriteOffLine(t, cmd, line).Ok?
    ensures var t' := PostWriteOffLine(t, cmd, line).value;
      && Inv(t') && Covered(t')
      && Free(t', x) == Free(t, x) - WastedFor(cmd.scope, x)(line)
      && (Unwasted(t', cmd.scope.org, id) <==> Unwasted(t, cmd.scope.org, id) && !(line.quantity > 0 && line.writeOffItem == id))
  {
    hide Inv, Covered, WriteOffSlices;
    var t' := PostWriteOffLine(t, cmd, line).value;
    var k := StockKey(cmd.scope, line.item);
    var order := ConsumptionOrder(t, k);
    if line.quantity <= 0 {
      NothingWasted(t, cmd, line, order);
    } else {
      LineWastesIff(t, cmd, line);
      OrderIsOfTheItem(t, k);
      WasteWalkGoesThrough(t, cmd, line, order, line.quantity);
      WriteOffLineMoves(t, cmd, line, x);
      ReservedIsOfTheHolds(t, t', x);
      WriteOffSlicesMove(t, cmd, line, order, line.quantity, x);
      WasteRowsAreNamed(t, cmd, line, order, line.quantity);
      UnwastedAfter(t, t', cmd.scope.org, line.writeOffItem, id);
    }
  }

  lemma NothingWasted(t: Tables, cmd: WriteOffCommand, line: WriteOffLine, order: seq<nat>)
    requires line.quantity <= 0 && order == ConsumptionOrder(t, StockKey(cmd.scope, line.item))
    ensures PostWriteOffLine(t, cmd, line) == Ok(t)
  {
  }

  lemma UnwastedAfter(t: Tables, t': Tables, org: nat, writeOffItem: nat, id: nat)
    requires |t.movements| < |t'.movements| && NamedOnce(t.movements, t'.movements, org, writeOffItem, false)
    ensures Unwasted(t', org, id) <==> Unwasted(t, org, id) && writeOffItem != id
  {
    var n := |t.movements|;
    assert Carries(t'.movements[n], org, writeOffItem);
    if Unwasted(t', org, id) {
      forall j | 0 <= j < n ensures !Carries(t.movements[j], org, id) {
        assert t'.movements[j] == t.movements[j];
      }
    }
    if Unwasted(t, org, id) && writeOffItem != id {
      forall j | 0 <= j < |t'.movements| ensures !Carries(t'.movements[j], org, id) {
        assert j < n ==> t'.movements[j] == t.movements[j];
      }
    }
  }

  // ------------------------------------------------------------- all lines

  /** Up to and with its n-th line, what is asked of the item is free, and the line's identifier is new. */
  predicate CanWasteLine(t: Tables, scope: Scope, lines: seq<WriteOffLine>, n: nat)
    requires n < |lines|
  {
    lines[n].quantity > 0 ==>
      && Sum(lines[..n + 1], WastedFor(scope, StockKey(scope, lines[n].item))) <= Free(t, StockKey(scope, lines[n].item))
      && Unwasted(t, scope.org, lines[n].writeOffItem)
      && forall m :: 0 <= m < n && lines[m].quantity > 0 ==> lines[m].writeOffItem != lines[n].writeOffItem
  }

  predicate CanWaste(t: Tables, scope: Scope, lines: seq<WriteOffLine>) {
    forall n :: 0 <= n < |lines| ==> CanWasteLine(t, scope, lines, n)
  }

  lemma FirstLineWastesIff(t: Tables, cmd: WriteOffCommand, lines: seq<WriteOffLine>)
    requires Inv(t) && Covered(t) && lines != []
    ensures PostWriteOffLine(t, cmd, lines[0]).Ok? <==> CanWasteLine(t, cmd.scope, lines, 0)
  {
    LineWastesIff(t, cmd, lines[0]);
    assert lines[..1] == [lines[0]] && [lines[0]][1..] == [];
    SumFromHead([lines[0]], WastedFor(cmd.scope, StockKey(cmd.scope, lines[0].item)));
  }

  lemma RestWastesAlike(t: Tables, cmd: WriteOffCommand, lines: seq<WriteOffLine>, n: nat)
    requires Inv(t) && Covered(t) && lines != [] && PostWriteOffLine(t, cmd, lines[0]).Ok? && n < |lines| - 1
    ensures CanWasteLine(PostWriteOffLine(t, cmd, lines[0]).value, cmd.scope, lines[1..], n)
       <==> CanWasteLine(t, cmd.scope, lines, n + 1)
  {
    hide Inv, Covered, PostWriteOffLine, Free, Unwasted;
    var t' := PostWriteOffLine(t, cmd, lines[0]).value;
    var line := lines[n + 1];
    var k := StockKey(cmd.scope, line.item);
    AfterOneWaste(t, cmd, lines[0], k, line.writeOffItem);
    assert lines[1..][n] == line && lines[..n + 2][1..] == lines[1..][..n + 1] && lines[..n + 2][0] == lines[0];
    SumFromHead(lines[..n + 2], WastedFor(cmd.scope, k));
    NamesShift(lines, n);
  }

  lemma NamesShift(lines: seq<WriteOffLine>, n: nat)
    requires n < |lines| - 1
    ensures (forall m :: 0 <= m < n + 1 && lines[m].quantity > 0 ==> lines[m].writeOffItem != lines[n + 1].writeOffItem)
      <==> && !(lines[0].quantity > 0 && lines[0].writeOffItem == lines[n + 1].writeOffItem)
           && forall m :: 0 <= m < n && lines[1..][m].quantity > 0 ==> lines[1..][m].writeOffItem != lines[1..][n].writeOffItem
  {
    if forall m :: 0 <= m < n && lines[1..][m].quantity > 0 ==> lines[1..][m].writeOffItem != lines[1..][n].writeOffItem {
      forall m | 0 < m < n + 1 && lines[m].quantity > 0 ensures lines[m].writeOffItem != lines[n + 1].writeOffItem {
        assert lines[m] == lines[1..][m - 1];
      }
    }
  }

  lemma {:induction false} LinesWasteIff(t: Tables, cmd: WriteOffCommand, lines: seq<WriteOffLine>)
    requires Inv(t) && Covered(t)
    ensures PostWriteOffLines(t, cmd, lines).Ok? <==> CanWaste(t, cmd.scope, lines)
    decreases lines
  {
    hide Inv, Covered, CanWasteLine, PostWriteOffLine;
    if lines != [] {
      FirstLineWastesIff(t, cmd, lines);
      if PostWriteOffLine(t, cmd, lines[0]).Ok? {
        var t' := PostWriteOffLine(t, cmd, lines[0]).value;
        AfterOneWaste(t, cmd, lines[0], StockKey(cmd.scope, 0), 0);
        LinesWasteIff(t', cmd, lines[1..]);
        forall n | 0 <= n < |lines| - 1
          ensures CanWasteLine(t', cmd.scope, lines[1..], n) <==> CanWasteLine(t, cmd.scope, lines, n + 1)
        {
          RestWastesAlike(t, cmd, lines, n);
        }
        CanWasteShifts(t, t', cmd.scope, lines);
      }
    }
  }

  lemma CanWasteShifts(t: Tables, t': Tables, scope: Scope, lines: seq<WriteOffLine>)
    requires lines != [] && CanWasteLine(t, scope, lines, 0)
    requires forall n :: 0 <= n < |lines| - 1 ==> (CanWasteLine(t', scope, lines[1..], n) <==> CanWasteLine(t, scope, lines, n + 1))
    ensures CanWaste(t', scope, lines[1..]) <==> CanWaste(t, scope, lines)
  {
    hide CanWasteLine;
    if CanWaste(t', scope, lines[1..]) {
      forall n | 0 <= n < |lines| ensures CanWasteLine(t, scope, lines, n) {
        if n > 0 {
          assert CanWasteLine(t', scope, lines[1..], n - 1);
        }
      }
    }
    if CanWaste(t, scope, lines) {
      forall n | 0 <= n < |lines[1..]| ensures CanWasteLine(t', scope, lines[1..], n) {
        assert CanWasteLine(t, scope, lines, n + 1);
      }
    }
  }

  /**
   While holds are covered, a write-off under a fresh key commits exactly when its lines, item by item and in
   their order, ask for no more than nobody holds, each under an identifier of its own that was not written off.
   */
  lemma WriteOffSucceedsIff(t: Tables, cmd: WriteOffCommand)
    requires Inv(t) && Covered(t)
    requires IdempotencyKey(cmd.scope.org, InventoryTables.PostingScope.WriteOffPost, cmd.key) !in t.keys
    ensures PostWriteOff(t, cmd).Ok? <==> CanWaste(t, cmd.scope, cmd.lines)
  {
    LinesWasteIff(t, cmd, cmd.lines);
  }

  /** The rows of a line that asks for something: the first carries the line's identifier, no other does. */
  lemma LineRowsAreNamed(t: Tables, cmd: WriteOffCommand, line: WriteOffLine)
    requires PostWriteOffLine(t, cmd, line).Ok? && line.quantity > 0
    ensures var t' := PostWriteOffLine(t, cmd, line).value;
      |t.movements| < |t'.movements| && NamedOnce(t.movements, t'.movements, cmd.scope.org, line.writeOffItem, false)
  {
    var order := ConsumptionOrder(t, StockKey(cmd.scope, line.item));
    WasteRowsAreNamed(t, cmd, line, order, line.quantity);
  }
}
