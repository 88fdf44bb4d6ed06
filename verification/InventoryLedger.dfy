/**
 Every stock command keeps batches and movements in step, also where its caller names an item or a scope the
 batch does not belong to: only the balances depend on that.
 */
module InventoryLedger {
  import opened Wrappers
  import opened Sequences
  import opened InventoryTables
  import opened InventoryInvariant
  import opened InventoryPosting
  import opened InventoryIssue
  import opened InventoryIssueProofs
  import opened InventoryWriteOff
  import opened InventoryReservation

  /** The ledger, and holds that lie on batches of their own key. */
  ghost predicate Sound(t: Tables) {
    LedgerInv(t) && HoldRowsOk(t)
  }

  /** Batches keep their keys, so holds stay where they belong. */
  lemma SameHoldRows(t: Tables, t': Tables)
    requires HoldRowsOk(t) && t'.reservations == t.reservations && SameBatches(t, t')
    ensures HoldRowsOk(t')
  {
    forall i | 0 <= i < |t'.reservations| ensures ReservationRowOk(t', t'.reservations[i]) {
      assert ReservationRowOk(t, t.reservations[i]);
    }
  }

  lemma OneStep(t: Tables, t': Tables, i: nat, b: Batch, m: Movement)
    requires Sound(t) && LedgerStep(t, t', i, b, m) && StepExplained(t, i, b, m)
    requires t'.reservations == t.reservations
    ensures Sound(t')
  {
    StepKeepsLedger(t, t', i, b, m);
    SameHoldRows(t, t');
  }

  // -------------------------------------------------------------- receipts

  lemma PostLineStaysSound(t: Tables, cmd: PostCommand, line: ReceiptLine)
    requires Sound(t) && PostLine(t, cmd, line).Ok?
    ensures Sound(PostLine(t, cmd, line).value)
  {
    if line.acceptedQuantity > 0 {
      var t' := PostLine(t, cmd, line).value;
      ReceiptKeepsLedger(t, t', NewBatch(cmd, line), ReceiptMovement(cmd, line, |t.batches|));
      SameHoldRows(t, t');
    }
  }

  lemma {:induction false} PostLinesStaySound(t: Tables, cmd: PostCommand, lines: seq<ReceiptLine>)
    requires Sound(t) && PostLines(t, cmd, lines).Ok?
    ensures Sound(PostLines(t, cmd, lines).value)
    decreases lines
  {
    if lines != [] {
      PostLineStaysSound(t, cmd, lines[0]);
      PostLinesStaySound(PostLine(t, cmd, lines[0]).value, cmd, lines[1..]);
    }
  }

  lemma PostStaysSound(t: Tables, cmd: PostCommand)
    requires Sound(t) && PostGoodsReceipt(t, cmd).Ok?
    ensures Sound(PostGoodsReceipt(t, cmd).value)
  {
    var claim := ClaimKey(t, cmd.scope.org, GoodsReceiptPost, cmd.key, cmd.goodsReceipt);
    if claim.Fresh? {
      SameLedger(t, claim.tables);
      PostLinesStaySound(claim.tables, cmd, cmd.lines);
    }
  }

  lemma ReverseBatchStaysSound(t: Tables, cmd: ReverseCommand, i: nat)
    requires Sound(t) && i < |t.batches| && t.batches[i].key.scope == cmd.scope
    requires ReverseBatch(t, cmd, i).Ok?
    ensures Sound(ReverseBatch(t, cmd, i).value)
  {
    var b := t.batches[i];
    assert BatchHistoryOk(t, i);
    var receipt := FindFirst(t.movements, ReceiptOfBatch(cmd.scope.org, i));
    assert LedgerRowOk(t, receipt.value);
    var b' := b.(remaining := 0, status := ReversedBatch);
    OneStep(t, ReverseBatch(t, cmd, i).value, i, b', ReversalMovement(cmd, i, b, receipt.value));
  }

  lemma {:induction false} ReverseBatchesStaySound(t: Tables, cmd: ReverseCommand, rows: seq<nat>)
    requires Sound(t) && RowsExist(t, rows)
    requires forall n :: 0 <= n < |rows| ==> t.batches[rows[n]].key.scope == cmd.scope
    requires ReverseBatches(t, cmd, rows).Ok?
    ensures Sound(ReverseBatches(t, cmd, rows).value)
    decreases rows
  {
    if rows != [] {
      ReverseBatchStaysSound(t, cmd, rows[0]);
      ReverseBatchesStaySound(ReverseBatch(t, cmd, rows[0]).value, cmd, rows[1..]);
    }
  }

  lemma ReverseStaysSound(t: Tables, cmd: ReverseCommand)
    requires Sound(t) && ReverseGoodsReceipt(t, cmd).Ok?
    ensures Sound(ReverseGoodsReceipt(t, cmd).value)
  {
    var claim := ClaimKey(t, cmd.scope.org, GoodsReceiptReverse, cmd.key, cmd.goodsReceipt);
    if claim.Fresh? {
      SameLedger(t, claim.tables);
      var rows := Matching(claim.tables.batches, InReceipt(cmd));
      forall n | 0 <= n < |rows| ensures claim.tables.batches[rows[n]].key.scope == cmd.scope {
        assert rows[n] in rows;
      }
      ReverseBatchesStaySound(claim.tables, cmd, rows);
    }
  }

  lemma AdjustStaysSound(t: Tables, cmd: AdjustCommand)
    requires Sound(t) && AdjustGoodsReceiptItem(t, cmd).Ok?
    ensures Sound(AdjustGoodsReceiptItem(t, cmd).value)
  {
    var i := FindFirst(t.batches, Corrected(cmd)).value;
    var b := t.batches[i];
    var delta := cmd.acceptedQuantity - b.initial;
    var t' := AdjustGoodsReceiptItem(t, cmd).value;
    if delta == 0 {
      RepricingKeepsLedger(t, t', i, CorrectedBatch(cmd, b));
      SameHoldRows(t, t');
    } else {
      OneStep(t, t', i, CorrectedBatch(cmd, b), CorrectionMovement(t, cmd, i, delta));
    }
  }

  // ---------------------------------------------------------------- issues

  lemma BookSliceStaysSound(t: Tables, cmd: IssueCommand, k: StockKey, i: nat, take: int, reserved: int, source: SourceItem)
    requires Sound(t) && i < |t.batches| && t.batches[i].key == k && take > 0
    requires source.Minted? ==> source.serial <= |t.movements|
    requires BookSlice(t, cmd, k, i, take, reserved, source).Ok?
    ensures var t' := BookSlice(t, cmd, k, i, take, reserved, source).value;
      Sound(t') && t'.reservations == t.reservations && |t'.batches| == |t.batches|
  {
    var t' := BookSlice(t, cmd, k, i, take, reserved, source).value;
    OneStep(t, t', i, Take(t.batches[i], take), SliceMovement(cmd, k, i, t.batches[i], take, source));
  }

  lemma ConsumeHoldStaysSound(t: Tables, cmd: IssueCommand, k: StockKey, row: nat, remaining: int)
    requires Sound(t) && row < |t.reservations| && t.reservations[row].key == k
    requires ConsumeHold(t, cmd, k, row, remaining).Ok?
    ensures var t' := ConsumeHold(t, cmd, k, row, remaining).value.tables;
      Sound(t') && forall x :: 0 <= x < |t.reservations| && x != row ==> t'.reservations[x] == t.reservations[x]
  {
    var hold := t.reservations[row];
    var take := Min(hold.quantity, remaining);
    assert ReservationRowOk(t, hold);
    if take > 0 {
      BookSliceStaysSound(t, cmd, k, hold.batch, take, take, Given(row));
      var t1 := BookSlice(t, cmd, k, hold.batch, take, take, Given(row)).value;
      var t' := ConsumeHold(t, cmd, k, row, remaining).value.tables;
      SameLedger(t1, t');
      forall i | 0 <= i < |t'.reservations| ensures ReservationRowOk(t', t'.reservations[i]) {
        assert ReservationRowOk(t1, t1.reservations[i]);
      }
    }
  }

  lemma {:induction false} ConsumeHoldsStaySound(t: Tables, cmd: IssueCommand, k: StockKey, rows: seq<nat>, remaining: int)
    requires Sound(t)
    requires forall n :: 0 <= n < |rows| ==> rows[n] < |t.reservations|
    requires forall n :: 0 <= n < |rows| ==> t.reservations[rows[n]].key == k
    requires forall a, b :: 0 <= a < b < |rows| ==> rows[a] < rows[b]
    requires ConsumeHolds(t, cmd, k, rows, remaining).Ok?
    ensures Sound(ConsumeHolds(t, cmd, k, rows, remaining).value.tables)
    decreases rows
  {
    if rows != [] && remaining > 0 {
      ConsumeHoldStaysSound(t, cmd, k, rows[0], remaining);
      var p := ConsumeHold(t, cmd, k, rows[0], remaining).value;
      ConsumeHoldsStaySound(p.tables, cmd, k, rows[1..], p.remaining);
    }
  }

  lemma ReleaseStaysSound(t: Tables, t': Tables, p: Reservation -> bool)
    requires Sound(t) && t'.batches == t.batches && t'.movements == t.movements
    requires t'.reservations == ReleaseRows(t.reservations, p)
    ensures Sound(t')
  {
    SameLedger(t, t');
    forall i | 0 <= i < |t'.reservations| ensures ReservationRowOk(t', t'.reservations[i]) {
      assert ReservationRowOk(t, t.reservations[i]);
    }
  }

  lemma {:induction false} TakeFreeStockStaysSound(t: Tables, cmd: IssueCommand, k: StockKey, order: seq<nat>, remaining: int)
    requires Sound(t)
    requires forall n :: 0 <= n < |order| ==> order[n] < |t.batches|
    requires forall n :: 0 <= n < |order| ==> t.batches[order[n]].key == k
    requires TakeFreeStock(t, cmd, k, order, remaining).Ok?
    ensures Sound(TakeFreeStock(t, cmd, k, order, remaining).value.tables)
    decreases order
  {
    if order != [] && remaining > 0 {
      var free := FreeOn(t, order[0]);
      if free > 0 {
        BookSliceStaysSound(t, cmd, k, order[0], Min(free, remaining), 0, Minted(|t.movements|));
      }
      var p := TakeFree(t, cmd, k, order[0], remaining).value;
      TakeFreeStockStaysSound(p.tables, cmd, k, order[1..], p.remaining);
    }
  }

  lemma ReleaseExcessStaysSound(t: Tables, k: StockKey, sources: seq<nat>)
    requires Sound(t) && ReleaseExcess(t, k, sources).Ok?
    ensures Sound(ReleaseExcess(t, k, sources).value)
  {
    hide Sound;
    ReleaseStaysSound(t, ReleaseExcess(t, k, sources).value, HeldFor(k, sources));
  }

  lemma IssueReservedStaysSound(t: Tables, cmd: IssueCommand, k: StockKey, line: IssueLine)
    requires Sound(t) && IssueReserved(t, cmd, k, line).Ok?
    ensures Sound(IssueReserved(t, cmd, k, line).value.tables)
  {
    hide Sound, ReleaseExcess, ConsumeHolds;
    if line.sources != [] {
      var rows := Matching(t.reservations, HeldFor(k, line.sources));
      forall n | 0 <= n < |rows| ensures t.reservations[rows[n]].key == k {
        assert rows[n] in rows;
      }
      ConsumeHoldsStaySound(t, cmd, k, rows, line.quantity);
      var t1 := ConsumeHolds(t, cmd, k, rows, line.quantity).value.tables;
      ReleaseExcessStaysSound(t1, k, line.sources);
    }
  }

  lemma IssueOneLineStaysSound(t: Tables, cmd: IssueCommand, line: IssueLine)
    requires Sound(t) && IssueOneLine(t, cmd, line).Ok?
    ensures Sound(IssueOneLine(t, cmd, line).value)
  {
    var k := StockKey(cmd.scope, line.item);
    IssueReservedStaysSound(t, cmd, k, line);
    var p := IssueReserved(t, cmd, k, line).value;
    if p.remaining > 0 {
      OrderIsOfKey(p.tables, k);
      TakeFreeStockStaysSound(p.tables, cmd, k, ConsumptionOrder(p.tables, k), p.remaining);
    }
  }

  lemma OrderIsOfKey(t: Tables, k: StockKey)
    ensures var order := ConsumptionOrder(t, k); forall n :: 0 <= n < |order| ==> t.batches[order[n]].key == k
  {
    var order := ConsumptionOrder(t, k);
    forall n | 0 <= n < |order| ensures t.batches[order[n]].key == k {
      assert order[n] in order;
    }
  }

  lemma {:induction false} IssueLinesStaySound(t: Tables, cmd: IssueCommand, lines: seq<IssueLine>)
    requires Sound(t) && IssueLines(t, cmd, lines).Ok?
    ensures Sound(IssueLines(t, cmd, lines).value)
    decreases lines
  {
    if lines != [] {
      IssueOneLineStaysSound(t, cmd, lines[0]);
      IssueLinesStaySound(IssueOneLine(t, cmd, lines[0]).value, cmd, lines[1..]);
    }
  }

  lemma IssueStaysSound(t: Tables, cmd: IssueCommand)
    requires Sound(t) && IssueStock(t, cmd).Ok?
    ensures Sound(IssueStock(t, cmd).value)
  {
    if IdempotencyKey(cmd.scope.org, cmd.keyScope, cmd.key) !in t.keys {
      IssueLinesStaySound(t, cmd, cmd.lines);
      SameLedger(IssueLines(t, cmd, cmd.lines).value, IssueStock(t, cmd).value);
    }
  }

  // ------------------------------------------------------------- reversals

  /** A draw given back in its organization: its source line was free, so the batch still misses the quantity. */
  lemma GivingBackStaysSound(t: Tables, t': Tables, row: nat, c: Movement)
    requires Sound(t) && row < |t.movements| && IsDraw(t.movements[row]) && t.movements[row].batch < |t.batches|
    requires var m := t.movements[row];
      && Reverses(c.kind) == m.kind && IsReversal(c.kind) && c.key.scope.org == m.key.scope.org
      && c.batch == m.batch && c.quantity == -m.quantity && c.reversalOf == Some(row)
      && c.sourceType == m.sourceType && c.document == m.document && c.sourceItem == m.sourceItem && SourceFree(t.movements, c)
      && t'.batches == t.batches[m.batch := GiveBack(t.batches[m.batch], m.quantity)]
    requires t'.movements == t.movements + [c] && t'.reservations == t.reservations
    ensures Sound(t')
  {
    var i := t.movements[row].batch;
    assert LedgerRowOk(t, row) && BatchShapeOk(t.batches[i]);
    CompensatedRowIsOpen(t, row, c);
    OpenDrawIsMissing(t, row);
    OneStep(t, t', i, GiveBack(t.batches[i], t.movements[row].quantity), c);
  }

  /** The rows a reversal finds: draws of its organization. */
  ghost predicate OwnDraws(t: Tables, org: nat, kind: MovementType, rows: seq<nat>) {
    forall n :: 0 <= n < |rows| ==>
      rows[n] < |t.movements| && t.movements[rows[n]].kind == kind && t.movements[rows[n]].key.scope.org == org
  }

  lemma FoundDraws(t: Tables, org: nat, sourceType: SourceType, document: nat, kind: MovementType)
    ensures OwnDraws(t, org, kind, Matching(t.movements, OfDocument(org, sourceType, document, kind)))
  {
    var rows := Matching(t.movements, OfDocument(org, sourceType, document, kind));
    forall n | 0 <= n < |rows| ensures OfDocument(org, sourceType, document, kind)(t.movements[rows[n]]) {
      assert rows[n] in rows;
    }
  }

  lemma {:induction false} ReverseSlicesStaySound(t: Tables, cmd: ReverseIssueCommand, rows: seq<nat>)
    requires Sound(t) && OwnDraws(t, cmd.scope.org, Issue, rows) && ReverseSlices(t, cmd, rows).Ok?
    ensures Sound(ReverseSlices(t, cmd, rows).value)
    decreases rows
  {
    if rows != [] {
      var c := Compensation(cmd.scope, rows[0], t.movements[rows[0]], IssueReversal, cmd.occurredAt);
      GivingBackStaysSound(t, ReverseSlice(t, cmd, rows[0]).value, rows[0], c);
      ReverseSlicesStaySound(ReverseSlice(t, cmd, rows[0]).value, cmd, rows[1..]);
    }
  }

  lemma ReverseIssueStaysSound(t: Tables, cmd: ReverseIssueCommand)
    requires Sound(t) && ReverseIssue(t, cmd).Ok?
    ensures Sound(ReverseIssue(t, cmd).value)
  {
    var t' := ReverseIssue(t, cmd).value;
    if IdempotencyKey(cmd.scope.org, SaleIssueReverse, cmd.key) !in t.keys {
      if FindFirst(t.movements, OfDocument(cmd.scope.org, Sale, cmd.sale, IssueReversal)).Some? {
        SameLedger(t, t');
      } else {
        var rows := Matching(t.movements, OfDocument(cmd.scope.org, Sale, cmd.sale, Issue));
        FoundDraws(t, cmd.scope.org, Sale, cmd.sale, Issue);
        ReverseSlicesStaySound(t, cmd, rows);
        SameLedger(ReverseSlices(t, cmd, rows).value, t');
      }
    }
  }

  // ------------------------------------------------------------ write-offs

  lemma WriteOffSliceStaysSound(t: Tables, cmd: WriteOffCommand, line: WriteOffLine, i: nat, remaining: int)
    requires Sound(t) && i < |t.batches| && t.batches[i].key == StockKey(cmd.scope, line.item) && remaining > 0
    requires WriteOffSlice(t, cmd, line, i, remaining).Ok?
    ensures Sound(WriteOffSlice(t, cmd, line, i, remaining).value.tables)
  {
    var free := FreeOn(t, i);
    if free > 0 {
      var take := Min(free, remaining);
      OneStep(t, WriteOffSlice(t, cmd, line, i, remaining).value.tables, i, Take(t.batches[i], take),
              WriteOffMovement(t, cmd, line, i, take, remaining));
    }
  }

  lemma {:induction false} WriteOffSlicesStaySound(t: Tables, cmd: WriteOffCommand, line: WriteOffLine, order: seq<nat>, remaining: int)
    requires Sound(t)
    requires forall n :: 0 <= n < |order| ==> order[n] < |t.batches|
    requires forall n :: 0 <= n < |order| ==> t.batches[order[n]].key == StockKey(cmd.scope, line.item)
    requires WriteOffSlices(t, cmd, line, order, remaining).Ok?
    ensures Sound(WriteOffSlices(t, cmd, line, order, remaining).value.tables)
    decreases order
  {
    if order != [] && remaining > 0 {
      WriteOffSliceStaysSound(t, cmd, line, order[0], remaining);
      var p := WriteOffSlice(t, cmd, line, order[0], remaining).value;
      WriteOffSlicesStaySound(p.tables, cmd, line, order[1..], p.remaining);
    }
  }

  lemma {:induction false} PostWriteOffLinesStaySound(t: Tables, cmd: WriteOffCommand, lines: seq<WriteOffLine>)
    requires Sound(t) && PostWriteOffLines(t, cmd, lines).Ok?
    ensures Sound(PostWriteOffLines(t, cmd, lines).value)
    decreases lines
  {
    if lines != [] {
      var k := StockKey(cmd.scope, lines[0].item);
      OrderIsOfKey(t, k);
      WriteOffSlicesStaySound(t, cmd, lines[0], ConsumptionOrder(t, k), lines[0].quantity);
      PostWriteOffLinesStaySound(PostWriteOffLine(t, cmd, lines[0]).value, cmd, lines[1..]);
    }
  }

  lemma PostWriteOffStaysSound(t: Tables, cmd: WriteOffCommand)
    requires Sound(t) && PostWriteOff(t, cmd).Ok?
    ensures Sound(PostWriteOff(t, cmd).value)
  {
    if IdempotencyKey(cmd.scope.org, InventoryTables.PostingScope.WriteOffPost, cmd.key) !in t.keys {
      PostWriteOffLinesStaySound(t, cmd, cmd.lines);
      SameLedger(PostWriteOffLines(t, cmd, cmd.lines).value, PostWriteOff(t, cmd).value);
    }
  }

  lemma {:induction false} ReverseWriteOffSlicesStaySound(t: Tables, cmd: ReverseWriteOffCommand, rows: seq<nat>)
    requires Sound(t) && OwnDraws(t, cmd.scope.org, WriteOff, rows) && ReverseWriteOffSlices(t, cmd, rows).Ok?
    ensures Sound(ReverseWriteOffSlices(t, cmd, rows).value)
    decreases rows
  {
    if rows != [] {
      var c := Compensation(cmd.scope, rows[0], t.movements[rows[0]], WriteOffReversal, cmd.occurredAt);
      GivingBackStaysSound(t, ReverseWriteOffSlice(t, cmd, rows[0]).value, rows[0], c);
      ReverseWriteOffSlicesStaySound(ReverseWriteOffSlice(t, cmd, rows[0]).value, cmd, rows[1..]);
    }
  }

  lemma ReverseWriteOffStaysSound(t: Tables, cmd: ReverseWriteOffCommand)
    requires Sound(t) && ReverseWriteOff(t, cmd).Ok?
    ensures Sound(ReverseWriteOff(t, cmd).value)
  {
    if IdempotencyKey(cmd.scope.org, InventoryTables.PostingScope.WriteOffReverse, cmd.key) !in t.keys {
      var rows := Matching(t.movements, OfDocument(cmd.scope.org, WriteOffItem, cmd.writeOff, WriteOff));
      FoundDraws(t, cmd.scope.org, WriteOffItem, cmd.writeOff, WriteOff);
      ReverseWriteOffSlicesStaySound(t, cmd, rows);
      SameLedger(ReverseWriteOffSlices(t, cmd, rows).value, ReverseWriteOff(t, cmd).value);
    }
  }

  // ---------------------------------------------------------- reservations

  lemma {:induction false} AdjustEachMovesBalances(
    t: Tables, scope: Scope, items: seq<nat>, rs: seq<Reservation>, p: Reservation -> bool, sign: int)
    requires AdjustEach(t, scope, items, rs, p, sign).Ok?
    ensures var t' := AdjustEach(t, scope, items, rs, p, sign).value; t' == t.(balances := t'.balances)
    decreases items
  {
    if items != [] {
      var k := StockKey(scope, items[0]);
      var t1 := AdjustReserved(t, k, sign * Sum(rs, QuantityOf(p, k))).value;
      AdjustEachMovesBalances(t1, scope, items[1..], rs, p, sign);
    }
  }

  lemma ReleaseActiveStaysSound(t: Tables, scope: Scope, compositionItems: seq<nat>)
    requires Sound(t) && ReleaseActive(t, scope, compositionItems).Ok?
    ensures Sound(ReleaseActive(t, scope, compositionItems).value)
  {
    var active := HeldIn(scope, compositionItems);
    var t1 := t.(reservations := ReleaseRows(t.reservations, active));
    AdjustEachMovesBalances(t1, scope, ItemsOf(t.reservations, active), t.reservations, active, -1);
    ReleaseStaysSound(t, ReleaseActive(t, scope, compositionItems).value, active);
  }

  lemma ReserveStaysSound(t: Tables, cmd: ReserveCommand)
    requires Sound(t) && ReserveComposition(t, cmd).Ok?
    ensures Sound(ReserveComposition(t, cmd).value)
  {
    var ids := CompositionItems(cmd.lines);
    ReleaseActiveStaysSound(t, cmd.scope, ids);
    var t1 := ReleaseActive(t, cmd.scope, ids).value;
    var plan := Plan(t1, cmd.scope, cmd.lines).value;
    PlanRows(t1, cmd.scope, cmd.lines);
    var t2 := t1.(reservations := t1.reservations + plan);
    AdjustEachMovesBalances(t2, cmd.scope, ItemsOf(plan, IsHeld()), plan, IsHeld(), 1);
    var t' := ReserveComposition(t, cmd).value;
    SameLedger(t1, t');
    forall i | 0 <= i < |t'.reservations| ensures ReservationRowOk(t', t'.reservations[i]) {
      if i < |t1.reservations| {
        assert ReservationRowOk(t1, t1.reservations[i]);
      } else {
        assert t'.reservations[i] in plan;
      }
    }
  }
}
