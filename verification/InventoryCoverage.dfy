/**
 Whether active holds fit the batches they were allocated on. Posting, issuing, writing off and releasing
 keep that; reversing or correcting a receipt looks only at the balance and can strand a hold.
 */
module InventoryCoverage {
  import opened Wrappers
  import opened Sequences
  import opened InventoryTables
  import opened InventoryInvariant
  import opened InventoryPosting
  import opened InventoryIssue
  import opened InventoryIssueProofs
  import opened InventoryWriteOff
  import opened InventoryReservation
  import opened InventoryRuns
  import opened InventoryScope
  import opened InventoryUndo

  function Held(t: Tables, i: nat): int {
    Sum(t.reservations, HeldOnBatch(i))
  }

  /** Every batch still holds what is reserved on it. */
  ghost predicate Covered(t: Tables) {
    forall i :: 0 <= i < |t.batches| ==> Held(t, i) <= t.batches[i].remaining
  }

  /** No batch has less room for its holds than before. */
  ghost predicate NoTighter(t: Tables, t': Tables) {
    && |t'.batches| == |t.batches|
    && forall i :: 0 <= i < |t.batches| ==> FreeOn(t', i) >= FreeOn(t, i)
  }

  // -------------------------------------------------------------- receipts

  lemma PostKeepsCovered(t: Tables, p: PostCommand)
    requires Inv(t) && Covered(t) && PostGoodsReceipt(t, p).Ok?
    ensures Covered(PostGoodsReceipt(t, p).value)
  {
    if ClaimKey(t, p.scope.org, GoodsReceiptPost, p.key, p.goodsReceipt).Fresh? {
      PostAppends(t, p);
      PostKeepsInv(t, p);
      var t' := PostGoodsReceipt(t, p).value;
      forall i | 0 <= i < |t'.batches| ensures Held(t', i) <= t'.batches[i].remaining {
        assert BatchShapeOk(t'.batches[i]);
        if i >= |t.batches| {
          forall r | r in t.reservations ensures HeldOnBatch(i)(r) == 0 {
            var j :| 0 <= j < |t.reservations| && t.reservations[j] == r;
            assert ReservationRowOk(t, t.reservations[j]);
          }
          SumZero(t.reservations, HeldOnBatch(i));
        } else {
          assert t'.batches[i] == t.batches[i];
        }
      }
    }
  }

  /** The guard reversal lacks: nothing is reserved on the batches it empties. */
  ghost predicate Unreserved(t: Tables, r: ReverseCommand) {
    forall i :: 0 <= i < |t.batches| && InReceipt(r)(t.batches[i]) ==> Held(t, i) == 0
  }

  /** A committed reversal leaves every hold covered exactly when nothing was reserved on its batches. */
  lemma ReversalCoversIffUnreserved(t: Tables, r: ReverseCommand)
    requires Inv(t) && Covered(t) && ReverseGoodsReceipt(t, r).Ok? && FreshReversal(t, r)
    ensures Covered(ReverseGoodsReceipt(t, r).value) <==> Unreserved(t, r)
  {
    var t' := ReverseGoodsReceipt(t, r).value;
    ReversalEmptiesItsBatches(t, r);
    forall i | 0 <= i < |t.batches|
      ensures Held(t', i) <= t'.batches[i].remaining <==> (InReceipt(r)(t.batches[i]) ==> Held(t, i) == 0)
    {
      HeldIsNonNegative(t, i);
    }
  }

  /** The guard a correction lacks: what stays in the batch still covers what is reserved on it. */
  predicate RoomForHolds(t: Tables, a: AdjustCommand) {
    var row := FindFirst(t.batches, Corrected(a));
    row.Some? ==> Held(t, row.value) <= CorrectedBatch(a, t.batches[row.value]).remaining
  }

  /** A committed correction leaves every hold covered exactly when the corrected batch has room for its holds. */
  lemma CorrectionCoversIffRoom(t: Tables, a: AdjustCommand)
    requires Covered(t) && AdjustGoodsReceiptItem(t, a).Ok?
    ensures Covered(AdjustGoodsReceiptItem(t, a).value) <==> RoomForHolds(t, a)
  {
    var i := FindFirst(t.batches, Corrected(a)).value;
    var t' := AdjustGoodsReceiptItem(t, a).value;
    assert t'.batches == t.batches[i := CorrectedBatch(a, t.batches[i])];
    assert t'.reservations == t.reservations;
    forall x | 0 <= x < |t.batches| && x != i ensures Held(t', x) <= t'.batches[x].remaining {
      assert Held(t, x) <= t.batches[x].remaining;
    }
  }

  // ---------------------------------------------------------------- issues

  lemma ConsumeHoldNoTighter(t: Tables, cmd: IssueCommand, k: StockKey, row: nat, remaining: int)
    requires row < |t.reservations| && t.reservations[row].status.ActiveHold?
    requires ConsumeHold(t, cmd, k, row, remaining).Ok?
    ensures NoTighter(t, ConsumeHold(t, cmd, k, row, remaining).value.tables)
  {
    var t' := ConsumeHold(t, cmd, k, row, remaining).value.tables;
    var hold := t.reservations[row];
    var take := Min(hold.quantity, remaining);
    if take > 0 {
      forall i | 0 <= i < |t.batches| ensures FreeOn(t', i) >= FreeOn(t, i) {
        SumUpdate(t.reservations, row, t'.reservations[row], HeldOnBatch(i));
      }
    }
  }

  lemma {:induction false} ConsumeHoldsNoTighter(t: Tables, cmd: IssueCommand, k: StockKey, rows: seq<nat>, remaining: int)
    requires Inv(t)
    requires forall n :: 0 <= n < |rows| ==> rows[n] < |t.reservations|
    requires forall n :: 0 <= n < |rows| ==> t.reservations[rows[n]].key == k && t.reservations[rows[n]].status.ActiveHold?
    requires forall a, b :: 0 <= a < b < |rows| ==> rows[a] < rows[b]
    requires ConsumeHolds(t, cmd, k, rows, remaining).Ok?
    ensures NoTighter(t, ConsumeHolds(t, cmd, k, rows, remaining).value.tables)
    decreases rows
  {
    if rows != [] && remaining > 0 {
      ConsumeHoldKeepsInv(t, cmd, k, rows[0], remaining);
      ConsumeHoldNoTighter(t, cmd, k, rows[0], remaining);
      var p := ConsumeHold(t, cmd, k, rows[0], remaining).value;
      ConsumeHoldsNoTighter(p.tables, cmd, k, rows[1..], p.remaining);
    }
  }

  lemma {:induction false} ReleasedHoldsShrink(rs: seq<Reservation>, p: Reservation -> bool, i: nat)
    requires forall r :: r in rs ==> r.quantity > 0
    ensures Sum(ReleaseRows(rs, p), HeldOnBatch(i)) <= Sum(rs, HeldOnBatch(i))
  {
    if rs != [] {
      var n := |rs| - 1;
      assert ReleaseRows(rs, p)[..n] == ReleaseRows(rs[..n], p);
      ReleasedHoldsShrink(rs[..n], p, i);
    }
  }

  lemma ReleaseNoTighter(t: Tables, t': Tables, p: Reservation -> bool)
    requires HoldInv(t) && t'.batches == t.batches && t'.reservations == ReleaseRows(t.reservations, p)
    ensures NoTighter(t, t')
  {
    forall r | r in t.reservations ensures r.quantity > 0 {
      var j :| 0 <= j < |t.reservations| && t.reservations[j] == r;
      assert ReservationRowOk(t, t.reservations[j]);
    }
    forall i | 0 <= i < |t.batches| ensures FreeOn(t', i) >= FreeOn(t, i) {
      ReleasedHoldsShrink(t.reservations, p, i);
    }
  }

  lemma {:induction false} TakeFreeStockKeepsCovered(t: Tables, cmd: IssueCommand, k: StockKey, order: seq<nat>, remaining: int)
    requires Covered(t) && forall n :: 0 <= n < |order| ==> order[n] < |t.batches|
    requires TakeFreeStock(t, cmd, k, order, remaining).Ok?
    ensures Covered(TakeFreeStock(t, cmd, k, order, remaining).value.tables)
    decreases order
  {
    if order != [] && remaining > 0 {
      var p := TakeFree(t, cmd, k, order[0], remaining).value;
      assert Covered(p.tables) by {
        forall i | 0 <= i < |t.batches| ensures Held(p.tables, i) <= p.tables.batches[i].remaining {
          assert Held(t, i) <= t.batches[i].remaining;
        }
      }
      TakeFreeStockKeepsCovered(p.tables, cmd, k, order[1..], p.remaining);
    }
  }

  lemma IssueOneLineKeepsCovered(t: Tables, cmd: IssueCommand, line: IssueLine)
    requires Inv(t) && Covered(t) && IssueOneLine(t, cmd, line).Ok?
    ensures Covered(IssueOneLine(t, cmd, line).value)
  {
    var k := StockKey(cmd.scope, line.item);
    IssueReservedKeepsCovered(t, cmd, k, line);
    var p := IssueReserved(t, cmd, k, line).value;
    if p.remaining > 0 {
      TakeFreeStockKeepsCovered(p.tables, cmd, k, ConsumptionOrder(p.tables, k), p.remaining);
    }
  }

  lemma IssueReservedKeepsCovered(t: Tables, cmd: IssueCommand, k: StockKey, line: IssueLine)
    requires Inv(t) && Covered(t) && IssueReserved(t, cmd, k, line).Ok?
    ensures Covered(IssueReserved(t, cmd, k, line).value.tables)
  {
    if line.sources != [] {
      var rows := Matching(t.reservations, HeldFor(k, line.sources));
      forall n | 0 <= n < |rows|
        ensures t.reservations[rows[n]].key == k && t.reservations[rows[n]].status.ActiveHold?
      {
        assert rows[n] in rows;
      }
      ConsumeHoldsKeepsInv(t, cmd, k, rows, line.quantity);
      ConsumeHoldsNoTighter(t, cmd, k, rows, line.quantity);
      var t1 := ConsumeHolds(t, cmd, k, rows, line.quantity).value.tables;
      ReleaseNoTighter(t1, ReleaseExcess(t1, k, line.sources).value, HeldFor(k, line.sources));
      NoTighterKeepsCovered(t, t1);
      NoTighterKeepsCovered(t1, ReleaseExcess(t1, k, line.sources).value);
    }
  }

  lemma NoTighterKeepsCovered(t: Tables, t': Tables)
    requires Covered(t) && NoTighter(t, t')
    ensures Covered(t')
  {
    forall i | 0 <= i < |t'.batches| ensures Held(t', i) <= t'.batches[i].remaining {
      assert Held(t, i) <= t.batches[i].remaining;
      assert FreeOn(t', i) >= FreeOn(t, i);
    }
  }

  lemma {:induction false} IssueLinesKeepsCovered(t: Tables, cmd: IssueCommand, lines: seq<IssueLine>)
    requires Inv(t) && Covered(t) && IssueLines(t, cmd, lines).Ok?
    ensures Covered(IssueLines(t, cmd, lines).value)
    decreases lines
  {
    if lines != [] {
      IssueOneLineKeepsInv(t, cmd, lines[0]);
      IssueOneLineKeepsCovered(t, cmd, lines[0]);
      IssueLinesKeepsCovered(IssueOneLine(t, cmd, lines[0]).value, cmd, lines[1..]);
    }
  }

  lemma IssueKeepsCovered(t: Tables, cmd: IssueCommand)
    requires Inv(t) && Covered(t) && IssueStock(t, cmd).Ok?
    ensures Covered(IssueStock(t, cmd).value)
  {
    if IdempotencyKey(cmd.scope.org, cmd.keyScope, cmd.key) !in t.keys {
      IssueLinesKeepsCovered(t, cmd, cmd.lines);
      var t1 := IssueLines(t, cmd, cmd.lines).value;
      NoTighterKeepsCovered(t1, IssueStock(t, cmd).value);
    }
  }

  lemma {:induction false} ReverseSlicesNoTighter(t: Tables, cmd: ReverseIssueCommand, rows: seq<nat>)
    requires DrawRows(t, rows)
    requires ReverseSlices(t, cmd, rows).Ok?
    ensures NoTighter(t, ReverseSlices(t, cmd, rows).value)
    decreases rows
  {
    if rows != [] {
      var t1 := ReverseSlice(t, cmd, rows[0]).value;
      assert NoTighter(t, t1);
      ReverseSlicesNoTighter(t1, cmd, rows[1..]);
    }
  }

  lemma ReverseIssueKeepsCovered(t: Tables, cmd: ReverseIssueCommand)
    requires Inv(t) && Covered(t) && ReverseIssue(t, cmd).Ok?
    ensures Covered(ReverseIssue(t, cmd).value)
  {
    var t' := ReverseIssue(t, cmd).value;
    if IdempotencyKey(cmd.scope.org, SaleIssueReverse, cmd.key) in t.keys
       || FindFirst(t.movements, OfDocument(cmd.scope.org, Sale, cmd.sale, IssueReversal)).Some? {
      NoTighterKeepsCovered(t, t');
    } else {
      DocumentRows(t, cmd.scope.org, Sale, cmd.sale, Issue);
      ReverseSlicesNoTighter(t, cmd, Matching(t.movements, OfDocument(cmd.scope.org, Sale, cmd.sale, Issue)));
      NoTighterKeepsCovered(t, t');
    }
  }

  // ------------------------------------------------------------- write-offs

  lemma {:induction false} WriteOffSlicesKeepsCovered(t: Tables, cmd: WriteOffCommand, line: WriteOffLine, order: seq<nat>, remaining: int)
    requires Covered(t) && forall n :: 0 <= n < |order| ==> order[n] < |t.batches|
    requires WriteOffSlices(t, cmd, line, order, remaining).Ok?
    ensures Covered(WriteOffSlices(t, cmd, line, order, remaining).value.tables)
    decreases order
  {
    if order != [] && remaining > 0 {
      var p := WriteOffSlice(t, cmd, line, order[0], remaining).value;
      assert Covered(p.tables) by {
        forall i | 0 <= i < |t.batches| ensures Held(p.tables, i) <= p.tables.batches[i].remaining {
          assert Held(t, i) <= t.batches[i].remaining;
        }
      }
      WriteOffSlicesKeepsCovered(p.tables, cmd, line, order[1..], p.remaining);
    }
  }

  lemma {:induction false} PostWriteOffLinesKeepsCovered(t: Tables, cmd: WriteOffCommand, lines: seq<WriteOffLine>)
    requires Covered(t) && PostWriteOffLines(t, cmd, lines).Ok?
    ensures Covered(PostWriteOffLines(t, cmd, lines).value)
    decreases lines
  {
    if lines != [] {
      WriteOffSlicesKeepsCovered(t, cmd, lines[0], ConsumptionOrder(t, StockKey(cmd.scope, lines[0].item)), lines[0].quantity);
      PostWriteOffLinesKeepsCovered(PostWriteOffLine(t, cmd, lines[0]).value, cmd, lines[1..]);
    }
  }

  lemma PostWriteOffKeepsCovered(t: Tables, cmd: WriteOffCommand)
    requires Covered(t) && PostWriteOff(t, cmd).Ok?
    ensures Covered(PostWriteOff(t, cmd).value)
  {
    if IdempotencyKey(cmd.scope.org, InventoryTables.PostingScope.WriteOffPost, cmd.key) !in t.keys {
      PostWriteOffLinesKeepsCovered(t, cmd, cmd.lines);
      NoTighterKeepsCovered(PostWriteOffLines(t, cmd, cmd.lines).value, PostWriteOff(t, cmd).value);
    }
  }

  lemma {:induction false} ReverseWriteOffSlicesNoTighter(t: Tables, cmd: ReverseWriteOffCommand, rows: seq<nat>)
    requires DrawRows(t, rows)
    requires ReverseWriteOffSlices(t, cmd, rows).Ok?
    ensures NoTighter(t, ReverseWriteOffSlices(t, cmd, rows).value)
    decreases rows
  {
    if rows != [] {
      var t1 := ReverseWriteOffSlice(t, cmd, rows[0]).value;
      assert NoTighter(t, t1);
      ReverseWriteOffSlicesNoTighter(t1, cmd, rows[1..]);
    }
  }

  lemma ReverseWriteOffKeepsCovered(t: Tables, cmd: ReverseWriteOffCommand)
    requires Inv(t) && Covered(t) && ReverseWriteOff(t, cmd).Ok?
    ensures Covered(ReverseWriteOff(t, cmd).value)
  {
    if IdempotencyKey(cmd.scope.org, InventoryTables.PostingScope.WriteOffReverse, cmd.key) !in t.keys {
      DocumentRows(t, cmd.scope.org, WriteOffItem, cmd.writeOff, WriteOff);
      ReverseWriteOffSlicesNoTighter(t, cmd,
        Matching(t.movements, OfDocument(cmd.scope.org, WriteOffItem, cmd.writeOff, WriteOff)));
      NoTighterKeepsCovered(t, ReverseWriteOff(t, cmd).value);
    }
  }
}
