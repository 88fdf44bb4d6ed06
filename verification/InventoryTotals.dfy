/** What a posting, an issue and a write-off move in all: on-hand changes by exactly the quantities of their lines. */
module InventoryTotals {
  import opened Wrappers
  import opened Sequences
  import opened InventoryTables
  import opened InventoryInvariant
  import opened InventoryPosting
  import opened InventoryIssue
  import opened InventoryWriteOff

  // --------------------------------------------------------------- posting

  function AcceptedFor(scope: Scope, k: StockKey): ReceiptLine -> int {
    (l: ReceiptLine) => if StockKey(scope, l.item) == k && l.acceptedQuantity > 0 then l.acceptedQuantity else 0
  }

  lemma PostLineMoves(t: Tables, cmd: PostCommand, line: ReceiptLine, k: StockKey)
    requires PostLine(t, cmd, line).Ok?
    ensures OnHand(PostLine(t, cmd, line).value, k) == OnHand(t, k) + AcceptedFor(cmd.scope, k)(line)
    ensures Reserved(PostLine(t, cmd, line).value, k) == Reserved(t, k)
  {
  }

  lemma {:induction false} PostLinesMove(t: Tables, cmd: PostCommand, lines: seq<ReceiptLine>, k: StockKey)
    requires PostLines(t, cmd, lines).Ok?
    ensures OnHand(PostLines(t, cmd, lines).value, k) == OnHand(t, k) + Sum(lines, AcceptedFor(cmd.scope, k))
    ensures Reserved(PostLines(t, cmd, lines).value, k) == Reserved(t, k)
    decreases lines
  {
    if lines != [] {
      PostLineMoves(t, cmd, lines[0], k);
      PostLinesMove(PostLine(t, cmd, lines[0]).value, cmd, lines[1..], k);
      SumFromHead(lines, AcceptedFor(cmd.scope, k));
    }
  }

  /** A fresh posting raises on-hand by the accepted quantities of the item's lines, the positive ones, and reserves nothing. */
  lemma PostingAddsWhatWasAccepted(t: Tables, cmd: PostCommand, k: StockKey)
    requires PostGoodsReceipt(t, cmd).Ok? && ClaimKey(t, cmd.scope.org, GoodsReceiptPost, cmd.key, cmd.goodsReceipt).Fresh?
    ensures OnHand(PostGoodsReceipt(t, cmd).value, k) == OnHand(t, k) + Sum(cmd.lines, AcceptedFor(cmd.scope, k))
    ensures Reserved(PostGoodsReceipt(t, cmd).value, k) == Reserved(t, k)
  {
    PostLinesMove(ClaimKey(t, cmd.scope.org, GoodsReceiptPost, cmd.key, cmd.goodsReceipt).tables, cmd, cmd.lines, k);
  }

  // --------------------------------------------------------------- issuing

  function AskedFor(scope: Scope, k: StockKey): IssueLine -> int {
    (l: IssueLine) => if StockKey(scope, l.item) == k then l.quantity else 0
  }

  /** On-hand of one key falls by what was found of the quantity needed; other keys keep theirs. */
  predicate Fell(t: Tables, p: Progress, k: StockKey, needed: int, x: StockKey) {
    OnHand(p.tables, x) == OnHand(t, x) - (if x == k then needed - p.remaining else 0)
  }

  lemma {:induction false} ConsumeHoldsMove(t: Tables, cmd: IssueCommand, k: StockKey, rows: seq<nat>, needed: int, x: StockKey)
    requires forall n :: 0 <= n < |rows| ==> rows[n] < |t.reservations|
    requires needed >= 0 && ConsumeHolds(t, cmd, k, rows, needed).Ok?
    ensures var p := ConsumeHolds(t, cmd, k, rows, needed).value; 0 <= p.remaining && Fell(t, p, k, needed, x)
    decreases rows
  {
    if rows != [] && needed > 0 {
      var p := ConsumeHold(t, cmd, k, rows[0], needed).value;
      assert Fell(t, p, k, needed, x) && p.remaining >= 0;
      ConsumeHoldsMove(p.tables, cmd, k, rows[1..], p.remaining, x);
    }
  }

  lemma ReleaseExcessMovesNothing(t: Tables, k: StockKey, sources: seq<nat>, x: StockKey)
    requires ReleaseExcess(t, k, sources).Ok?
    ensures OnHand(ReleaseExcess(t, k, sources).value, x) == OnHand(t, x)
  {
  }

  lemma {:induction false} TakeFreeStockMoves(t: Tables, cmd: IssueCommand, k: StockKey, order: seq<nat>, needed: int, x: StockKey)
    requires forall n :: 0 <= n < |order| ==> order[n] < |t.batches|
    requires needed >= 0 && TakeFreeStock(t, cmd, k, order, needed).Ok?
    ensures var p := TakeFreeStock(t, cmd, k, order, needed).value; 0 <= p.remaining && Fell(t, p, k, needed, x)
    decreases order
  {
    if order != [] && needed > 0 {
      var p := TakeFree(t, cmd, k, order[0], needed).value;
      assert Fell(t, p, k, needed, x) && p.remaining >= 0;
      TakeFreeStockMoves(p.tables, cmd, k, order[1..], p.remaining, x);
    }
  }

  lemma IssueReservedMoves(t: Tables, cmd: IssueCommand, k: StockKey, line: IssueLine, x: StockKey)
    requires line.quantity >= 0 && IssueReserved(t, cmd, k, line).Ok?
    ensures var p := IssueReserved(t, cmd, k, line).value; 0 <= p.remaining && Fell(t, p, k, line.quantity, x)
  {
    if line.sources != [] {
      var rows := Matching(t.reservations, HeldFor(k, line.sources));
      ConsumeHoldsMove(t, cmd, k, rows, line.quantity, x);
      ReleaseExcessMovesNothing(ConsumeHolds(t, cmd, k, rows, line.quantity).value.tables, k, line.sources, x);
    }
  }

  lemma IssueOneLineMoves(t: Tables, cmd: IssueCommand, line: IssueLine, x: StockKey)
    requires IssueOneLine(t, cmd, line).Ok?
    ensures OnHand(IssueOneLine(t, cmd, line).value, x) == OnHand(t, x) - AskedFor(cmd.scope, x)(line)
  {
    var k := StockKey(cmd.scope, line.item);
    IssueReservedMoves(t, cmd, k, line, x);
    var p := IssueReserved(t, cmd, k, line).value;
    if p.remaining > 0 {
      TakeFreeStockMoves(p.tables, cmd, k, ConsumptionOrder(p.tables, k), p.remaining, x);
    }
  }

  lemma {:induction false} IssueLinesMove(t: Tables, cmd: IssueCommand, lines: seq<IssueLine>, x: StockKey)
    requires IssueLines(t, cmd, lines).Ok?
    ensures OnHand(IssueLines(t, cmd, lines).value, x) == OnHand(t, x) - Sum(lines, AskedFor(cmd.scope, x))
    decreases lines
  {
    if lines != [] {
      IssueOneLineMoves(t, cmd, lines[0], x);
      IssueLinesMove(IssueOneLine(t, cmd, lines[0]).value, cmd, lines[1..], x);
      SumFromHead(lines, AskedFor(cmd.scope, x));
    }
  }

  /** A fresh issue lowers on-hand by exactly what its lines ask for, whatever part of it was reserved. */
  lemma IssueTakesWhatWasAsked(t: Tables, cmd: IssueCommand, x: StockKey)
    requires IssueStock(t, cmd).Ok? && IdempotencyKey(cmd.scope.org, cmd.keyScope, cmd.key) !in t.keys
    ensures OnHand(IssueStock(t, cmd).value, x) == OnHand(t, x) - Sum(cmd.lines, AskedFor(cmd.scope, x))
  {
    IssueLinesMove(t, cmd, cmd.lines, x);
  }

  // ------------------------------------------------------------ writing off

  function WastedFor(scope: Scope, k: StockKey): WriteOffLine -> int {
    (l: WriteOffLine) => if StockKey(scope, l.item) == k && l.quantity > 0 then l.quantity else 0
  }

  lemma {:induction false} WriteOffSlicesMove(t: Tables, cmd: WriteOffCommand, line: WriteOffLine, order: seq<nat>, needed: int, x: StockKey)
    requires forall n :: 0 <= n < |order| ==> order[n] < |t.batches|
    requires needed >= 0 && WriteOffSlices(t, cmd, line, order, needed).Ok?
    ensures var p := WriteOffSlices(t, cmd, line, order, needed).value;
      0 <= p.remaining && Fell(t, p, StockKey(cmd.scope, line.item), needed, x)
    decreases order
  {
    if order != [] && needed > 0 {
      var p := WriteOffSlice(t, cmd, line, order[0], needed).value;
      assert Fell(t, p, StockKey(cmd.scope, line.item), needed, x) && p.remaining >= 0;
      WriteOffSlicesMove(p.tables, cmd, line, order[1..], p.remaining, x);
    }
  }

  lemma WriteOffLineMoves(t: Tables, cmd: WriteOffCommand, line: WriteOffLine, x: StockKey)
    requires PostWriteOffLine(t, cmd, line).Ok?
    ensures OnHand(PostWriteOffLine(t, cmd, line).value, x) == OnHand(t, x) - WastedFor(cmd.scope, x)(line)
  {
    if line.quantity > 0 {
      WriteOffSlicesMove(t, cmd, line, ConsumptionOrder(t, StockKey(cmd.scope, line.item)), line.quantity, x);
    }
  }

  lemma {:induction false} WriteOffLinesMove(t: Tables, cmd: WriteOffCommand, lines: seq<WriteOffLine>, x: StockKey)
    requires PostWriteOffLines(t, cmd, lines).Ok?
    ensures OnHand(PostWriteOffLines(t, cmd, lines).value, x) == OnHand(t, x) - Sum(lines, WastedFor(cmd.scope, x))
    decreases lines
  {
    if lines != [] {
      WriteOffLineMoves(t, cmd, lines[0], x);
      WriteOffLinesMove(PostWriteOffLine(t, cmd, lines[0]).value, cmd, lines[1..], x);
      SumFromHead(lines, WastedFor(cmd.scope, x));
    }
  }

  /** A fresh write-off lowers on-hand by exactly the positive quantities of its lines. */
  lemma WriteOffTakesWhatWasAsked(t: Tables, cmd: WriteOffCommand, x: StockKey)
    requires PostWriteOff(t, cmd).Ok?
    requires IdempotencyKey(cmd.scope.org, InventoryTables.PostingScope.WriteOffPost, cmd.key) !in t.keys
    ensures OnHand(PostWriteOff(t, cmd).value, x) == OnHand(t, x) - Sum(cmd.lines, WastedFor(cmd.scope, x))
  {
    WriteOffLinesMove(t, cmd, cmd.lines, x);
  }
}
