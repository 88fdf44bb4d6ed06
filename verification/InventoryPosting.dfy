/** Goods-receipt posting, reversal and correction, as transactions on the stock tables. */
module InventoryPosting {
  import opened Wrappers
  import opened Sequences
  import opened InventoryTables
  import opened InventoryInvariant

  datatype ItemType = Flower | Material

  datatype ReceiptLine = ReceiptLine(
    receiptLine: nat, item: nat, acceptedQuantity: int, actualUnitPrice: int,
    receivedAt: int, itemType: ItemType, shelfLifeDays: Option<int>)

  datatype PostCommand = PostCommand(scope: Scope, goodsReceipt: nat, key: Option<string>, lines: seq<ReceiptLine>)

  datatype ReverseCommand = ReverseCommand(
    scope: Scope, goodsReceipt: nat, receiptLines: seq<nat>, key: Option<string>, now: int)

  datatype AdjustCommand = AdjustCommand(
    scope: Scope, goodsReceipt: nat, receiptLine: nat, item: nat,
    acceptedQuantity: int, actualUnitPrice: int, occurredAt: int)

  const DAY_MS := 86_400_000

  /** Creates the balance row on first use; refuses a change that leaves less than is reserved. */
  function AdjustBalance(t: Tables, k: StockKey, delta: int): Result<Tables, Error> {
    if k !in t.balances then
      if delta < 0 then Rejected(NegativeBalance) else PutBalance(t, k, delta, 0)
    else
      var onHand := t.balances[k].onHand + delta;
      if onHand < 0 || onHand - t.balances[k].reserved < 0 then Rejected(NegativeBalance)
      else PutBalance(t, k, onHand, t.balances[k].reserved)
  }

  lemma AdjustBalanceEffect(t: Tables, k: StockKey, delta: int)
    requires BalanceInv(t)
    requires AdjustBalance(t, k, delta).Ok?
    ensures var t' := AdjustBalance(t, k, delta).value;
      && t' == t.(balances := t'.balances)
      && BalanceInv(t')
      && (forall x :: OnHand(t', x) == OnHand(t, x) + (if x == k then delta else 0))
      && (forall x :: Reserved(t', x) == Reserved(t, x))
  {
  }

  // ------------------------------------------------------------------ post

  function Expiry(line: ReceiptLine): Option<int> {
    if line.itemType.Flower? && line.shelfLifeDays.Some? && line.shelfLifeDays.value != 0
    then Some(line.receivedAt + line.shelfLifeDays.value * DAY_MS)
    else None
  }

  function NewBatch(cmd: PostCommand, line: ReceiptLine): Batch {
    Batch(StockKey(cmd.scope, line.item), line.receiptLine, line.receivedAt, Expiry(line),
          line.acceptedQuantity, line.acceptedQuantity, line.actualUnitPrice, ActiveBatch)
  }

  function ReceiptMovement(cmd: PostCommand, line: ReceiptLine, batch: nat): Movement {
    Movement(StockKey(cmd.scope, line.item), batch, Receipt, line.acceptedQuantity, line.actualUnitPrice,
             GoodsReceiptItem, cmd.goodsReceipt, Given(line.receiptLine), None, line.receivedAt)
  }

  function ReceiptFor(org: nat, line: nat): Movement -> bool {
    (m: Movement) =>
      m.key.scope.org == org && m.sourceType.GoodsReceiptItem? && m.sourceItem == Given(line) && m.kind.Receipt?
  }

  function PostLine(t: Tables, cmd: PostCommand, line: ReceiptLine): (r: Result<Tables, Error>)
    ensures r.Ok? ==> Extends(t, r.value)
  {
    if line.acceptedQuantity <= 0 then Ok(t)
    else if FindFirst(t.movements, ReceiptFor(cmd.scope.org, line.receiptLine)).Some? then
      Rejected(GoodsReceiptAlreadyPosted)
    else
      var t1 :- AddBatch(t, NewBatch(cmd, line));
      var t2 :- AddMovement(t1, ReceiptMovement(cmd, line, |t.batches|));
      AdjustBalance(t2, StockKey(cmd.scope, line.item), line.acceptedQuantity)
  }

  function PostLines(t: Tables, cmd: PostCommand, lines: seq<ReceiptLine>): (r: Result<Tables, Error>)
    ensures r.Ok? ==> Extends(t, r.value)
    decreases lines
  {
    if lines == [] then Ok(t)
    else
      var t1 :- PostLine(t, cmd, lines[0]);
      PostLines(t1, cmd, lines[1..])
  }

  function PostGoodsReceipt(t: Tables, cmd: PostCommand): (r: Result<Tables, Error>)
    ensures r.Ok? ==> Extends(t, r.value)
  {
    match ClaimKey(t, cmd.scope.org, GoodsReceiptPost, cmd.key, cmd.goodsReceipt)
    case Replay => Ok(t)
    case Reused => Rejected(IdempotencyKeyReused)
    case Fresh(t1) => PostLines(t1, cmd, cmd.lines)
  }

  lemma PostLineKeepsInv(t: Tables, cmd: PostCommand, line: ReceiptLine)
    requires Inv(t) && PostLine(t, cmd, line).Ok?
    ensures Inv(PostLine(t, cmd, line).value)
  {
    if line.acceptedQuantity > 0 {
      var b, m := NewBatch(cmd, line), ReceiptMovement(cmd, line, |t.batches|);
      var t2 := AddMovement(AddBatch(t, b).value, m).value;
      AdjustBalanceEffect(t2, b.key, line.acceptedQuantity);
      var t' := PostLine(t, cmd, line).value;
      ReceiptKeepsStock(t, t', b, m);
      StepKeepsHolds(t, t');
    }
  }

  lemma {:induction false} PostLinesKeepsInv(t: Tables, cmd: PostCommand, lines: seq<ReceiptLine>)
    requires Inv(t) && PostLines(t, cmd, lines).Ok?
    ensures Inv(PostLines(t, cmd, lines).value)
    decreases lines
  {
    if lines != [] {
      PostLineKeepsInv(t, cmd, lines[0]);
      PostLinesKeepsInv(PostLine(t, cmd, lines[0]).value, cmd, lines[1..]);
    }
  }

  lemma InvIgnoresKeys(t: Tables, keys: map<IdempotencyKey, nat>)
    requires Inv(t)
    ensures Inv(t.(keys := keys))
  {
    SameStock(t, t.(keys := keys));
    StepKeepsHolds(t, t.(keys := keys));
  }

  lemma PostKeepsInv(t: Tables, cmd: PostCommand)
    requires Inv(t) && PostGoodsReceipt(t, cmd).Ok?
    ensures Inv(PostGoodsReceipt(t, cmd).value)
  {
    var claim := ClaimKey(t, cmd.scope.org, GoodsReceiptPost, cmd.key, cmd.goodsReceipt);
    if claim.Fresh? {
      InvIgnoresKeys(t, claim.tables.keys);
      PostLinesKeepsInv(claim.tables, cmd, cmd.lines);
    }
  }

  // --------------------------------------------------------------- reverse

  function InReceipt(cmd: ReverseCommand): Batch -> bool {
    (b: Batch) => b.key.scope == cmd.scope && b.receiptLine in cmd.receiptLines
  }

  function ReceiptOfBatch(org: nat, i: nat): Movement -> bool {
    (m: Movement) => m.key.scope.org == org && m.batch == i && m.kind.Receipt?
  }

  function ReversalFor(org: nat, line: nat): Movement -> bool {
    (m: Movement) =>
      m.key.scope.org == org && m.sourceType.GoodsReceiptItem? && m.sourceItem == Given(line) && m.kind.ReceiptReversal?
  }

  function ReversalMovement(cmd: ReverseCommand, i: nat, b: Batch, receipt: nat): Movement {
    Movement(StockKey(cmd.scope, b.key.item), i, ReceiptReversal, -b.initial, b.unitCost,
             GoodsReceiptItem, cmd.goodsReceipt, Given(b.receiptLine), Some(receipt), cmd.now)
  }

  predicate RowsExist(t: Tables, rows: seq<nat>) {
    forall n :: 0 <= n < |rows| ==> rows[n] < |t.batches|
  }

  /** The loop rereads each batch; it is the only row its turn changes, so this is the row first fetched. */
  function ReverseBatch(t: Tables, cmd: ReverseCommand, i: nat): (r: Result<Tables, Error>)
    requires i < |t.batches|
    ensures r.Ok? ==> Extends(t, r.value)
  {
    var b := t.batches[i];
    if b.remaining != b.initial then Rejected(BatchAlreadyUsed)
    else
      var receipt := FindFirst(t.movements, ReceiptOfBatch(cmd.scope.org, i));
      if receipt.None? then Rejected(ReceiptMovementMissing)
      else if FindFirst(t.movements, ReversalFor(cmd.scope.org, b.receiptLine)).Some? then
        Rejected(GoodsReceiptAlreadyReversed)
      else
        var t1 :- AdjustBalance(t, StockKey(cmd.scope, b.key.item), -b.initial);
        var t2 :- AddMovement(t1, ReversalMovement(cmd, i, b, receipt.value));
        PutBatch(t2, i, b.(remaining := 0, status := ReversedBatch))
  }

  function ReverseBatches(t: Tables, cmd: ReverseCommand, rows: seq<nat>): (r: Result<Tables, Error>)
    requires RowsExist(t, rows)
    ensures r.Ok? ==> Extends(t, r.value)
    decreases rows
  {
    hide ReverseBatch;
    if rows == [] then Ok(t)
    else
      var t1 :- ReverseBatch(t, cmd, rows[0]);
      ReverseBatches(t1, cmd, rows[1..])
  }

  function ReverseGoodsReceipt(t: Tables, cmd: ReverseCommand): (r: Result<Tables, Error>)
    ensures r.Ok? ==> Extends(t, r.value)
  {
    hide ReverseBatches, ReverseBatch;
    match ClaimKey(t, cmd.scope.org, GoodsReceiptReverse, cmd.key, cmd.goodsReceipt)
    case Replay => Ok(t)
    case Reused => Rejected(IdempotencyKeyReused)
    case Fresh(t1) => ReverseBatches(t1, cmd, Matching(t1.batches, InReceipt(cmd)))
  }

  lemma ReverseBatchKeepsInv(t: Tables, cmd: ReverseCommand, i: nat)
    requires Inv(t) && i < |t.batches| && t.batches[i].key.scope == cmd.scope
    requires ReverseBatch(t, cmd, i).Ok?
    ensures Inv(ReverseBatch(t, cmd, i).value)
  {
    var b := t.batches[i];
    assert BatchHistoryOk(t, i);
    var receipt := FindFirst(t.movements, ReceiptOfBatch(cmd.scope.org, i));
    assert MovementRowOk(t, receipt.value);
    var m := ReversalMovement(cmd, i, b, receipt.value);
    AdjustBalanceEffect(t, b.key, -b.initial);
    var t' := ReverseBatch(t, cmd, i).value;
    var b' := b.(remaining := 0, status := ReversedBatch);
    StepKeepsStock(t, t', i, b', m);
    StepKeepsHolds(t, t');
  }

  lemma {:induction false} ReverseBatchesKeepsInv(t: Tables, cmd: ReverseCommand, rows: seq<nat>)
    requires Inv(t) && RowsExist(t, rows)
    requires forall n :: 0 <= n < |rows| ==> t.batches[rows[n]].key.scope == cmd.scope
    requires ReverseBatches(t, cmd, rows).Ok?
    ensures Inv(ReverseBatches(t, cmd, rows).value)
    decreases rows
  {
    if rows != [] {
      ReverseBatchKeepsInv(t, cmd, rows[0]);
      ReverseBatchesKeepsInv(ReverseBatch(t, cmd, rows[0]).value, cmd, rows[1..]);
    }
  }

  lemma ReverseKeepsInv(t: Tables, cmd: ReverseCommand)
    requires Inv(t) && ReverseGoodsReceipt(t, cmd).Ok?
    ensures Inv(ReverseGoodsReceipt(t, cmd).value)
  {
    var claim := ClaimKey(t, cmd.scope.org, GoodsReceiptReverse, cmd.key, cmd.goodsReceipt);
    if claim.Fresh? {
      InvIgnoresKeys(t, claim.tables.keys);
      ReverseBatchesKeepsInv(claim.tables, cmd, Matching(claim.tables.batches, InReceipt(cmd)));
    }
  }

  // ---------------------------------------------------------------- adjust

  function Corrected(cmd: AdjustCommand): Batch -> bool {
    (b: Batch) => b.key.scope == cmd.scope && b.receiptLine == cmd.receiptLine
  }

  /** The correction movement is booked on the item the command names, not on the batch's item. */
  function CorrectionMovement(t: Tables, cmd: AdjustCommand, i: nat, delta: int): Movement {
    Movement(StockKey(cmd.scope, cmd.item), i, if delta > 0 then CountAdjustmentIn else CountAdjustmentOut,
             Abs(delta), cmd.actualUnitPrice, GoodsReceiptItem, cmd.goodsReceipt,
             Minted(|t.movements|), None, cmd.occurredAt)
  }

  function CorrectedBatch(cmd: AdjustCommand, b: Batch): Batch {
    var remaining := b.remaining + (cmd.acceptedQuantity - b.initial);
    b.(initial := cmd.acceptedQuantity, remaining := remaining, unitCost := cmd.actualUnitPrice,
       status := if remaining > 0 then ActiveBatch else DepletedBatch)
  }

  function AdjustGoodsReceiptItem(t: Tables, cmd: AdjustCommand): (r: Result<Tables, Error>)
    ensures r.Ok? ==> Extends(t, r.value)
  {
    var row := FindFirst(t.batches, Corrected(cmd));
    if row.None? then Rejected(BatchNotFound)
    else
      var i := row.value;
      var b := t.batches[i];
      if b.status.ReversedBatch? then Rejected(BatchIsReversed)
      else if cmd.acceptedQuantity <= 0 then Rejected(InvalidReceiptQuantity)
      else if cmd.actualUnitPrice < 0 then Rejected(InvalidUnitPrice)
      else
        var delta := cmd.acceptedQuantity - b.initial;
        if b.remaining + delta < 0 then Rejected(BatchAlreadyUsed)
        else
          var t1 :- if delta == 0 then Ok(t) else AddMovement(t, CorrectionMovement(t, cmd, i, delta));
          var t2 :- if delta == 0 then Ok(t1) else AdjustBalance(t1, StockKey(cmd.scope, cmd.item), delta);
          PutBatch(t2, i, CorrectedBatch(cmd, b))
  }

  /** The caller's part: a correction that moves stock names the item its batch holds. */
  predicate AdjustAddressed(t: Tables, cmd: AdjustCommand) {
    var row := FindFirst(t.batches, Corrected(cmd));
    row.Some? ==>
      t.batches[row.value].key.item == cmd.item || t.batches[row.value].initial == cmd.acceptedQuantity
  }

  lemma MovingCorrectionKeepsInv(t: Tables, t': Tables, cmd: AdjustCommand, i: nat)
    requires Inv(t) && i < |t.batches| && Corrected(cmd)(t.batches[i]) && t.batches[i].key.item == cmd.item
    requires !t.batches[i].status.ReversedBatch? && 0 < cmd.acceptedQuantity != t.batches[i].initial
    requires var delta := cmd.acceptedQuantity - t.batches[i].initial;
      && t.batches[i].remaining + delta >= 0
      && var t1 := t.(movements := t.movements + [CorrectionMovement(t, cmd, i, delta)]);
      && AdjustBalance(t1, t.batches[i].key, delta).Ok?
      && t' == AdjustBalance(t1, t.batches[i].key, delta).value.(batches := t.batches[i := CorrectedBatch(cmd, t.batches[i])])
      && SourceFree(t.movements, CorrectionMovement(t, cmd, i, delta))
    ensures Inv(t')
  {
    var delta := cmd.acceptedQuantity - t.batches[i].initial;
    var m := CorrectionMovement(t, cmd, i, delta);
    assert BatchShapeOk(t.batches[i]);
    AdjustBalanceEffect(t.(movements := t.movements + [m]), t.batches[i].key, delta);
    assert StockInv(t') by {
      hide HoldInv, BalanceInv, AdjustBalance;
      StepKeepsStock(t, t', i, CorrectedBatch(cmd, t.batches[i]), m);
    }
    assert HoldInv(t') && BalanceInv(t') by {
      hide StockInv;
      StepKeepsHolds(t, t');
    }
  }

  lemma AdjustKeepsInv(t: Tables, cmd: AdjustCommand)
    requires Inv(t) && AdjustGoodsReceiptItem(t, cmd).Ok? && AdjustAddressed(t, cmd)
    ensures Inv(AdjustGoodsReceiptItem(t, cmd).value)
  {
    var i := FindFirst(t.batches, Corrected(cmd)).value;
    var t' := AdjustGoodsReceiptItem(t, cmd).value;
    if cmd.acceptedQuantity == t.batches[i].initial {
      RepricingKeepsInv(t, t', i, CorrectedBatch(cmd, t.batches[i]));
    } else {
      MovingCorrectionKeepsInv(t, t', cmd, i);
    }
  }

  /** A correction that changes only the price (and restates the status) leaves the ledger as it was. */
  lemma RepricingKeepsInv(t: Tables, t': Tables, i: nat, b: Batch)
    requires Inv(t) && i < |t.batches|
    requires t' == t.(batches := t.batches[i := b])
    requires BatchShapeOk(b) && ReversedCount(b) == ReversedCount(t.batches[i]) == 0
    requires b.key == t.batches[i].key && b.receiptLine == t.batches[i].receiptLine
    requires b.initial == t.batches[i].initial && b.remaining == t.batches[i].remaining
    ensures Inv(t')
  {
    RepricingKeepsLedger(t, t', i, b);
    forall j | 0 <= j < |t'.movements| ensures MovementRowOk(t', j) {
      assert MovementRowOk(t, j) && LedgerRowOk(t', j);
    }
    forall k ensures OnHandAgrees(t', k) {
      assert OnHandAgrees(t, k);
      SumUpdate(t.batches, i, b, RemainingOf(k));
    }
    StepKeepsHolds(t, t');
  }
}
