/**
 A reversed sale or write-off gives back everything its document ever took and nothing else, so a sale or a
 write-off that is reversed leaves every batch and every on-hand quantity as it found them.
 */
module InventoryGiveBack {
  import opened Wrappers
  import opened Sequences
  import opened InventoryTables
  import opened InventoryInvariant
  import opened InventoryIssue
  import opened InventoryIssueProofs
  import opened InventoryWriteOff
  import opened InventoryScope

  // ------------------------------------------------- what is given back

  /** What the document's rows took from one batch. */
  function TakenFrom(doc: Movement -> bool, i: nat): Movement -> int {
    (m: Movement) => if doc(m) && m.batch == i then m.quantity else 0
  }

  /** What the document's rows took of one item, counted in the scope that is named for giving it back. */
  function TakenOf(doc: Movement -> bool, scope: Scope, k: StockKey): Movement -> int {
    (m: Movement) => if doc(m) && StockKey(scope, m.key.item) == k then m.quantity else 0
  }

  /** Everything about a batch but what is left in it. */
  function Label(b: Batch): Batch {
    b.(remaining := 0, status := ActiveBatch)
  }

  predicate SameLabels(t: Tables, t': Tables) {
    |t'.batches| == |t.batches| && forall i :: 0 <= i < |t.batches| ==> Label(t'.batches[i]) == Label(t.batches[i])
  }

  ghost predicate GivesBack(t: Tables, t': Tables, rows: seq<nat>, doc: Movement -> bool, scope: Scope)
    requires InTable(t.movements, rows)
  {
    && SameLabels(t, t') && t'.reservations == t.reservations && t.movements <= t'.movements
    && (forall i :: 0 <= i < |t.batches| ==>
          t'.batches[i].remaining == t.batches[i].remaining + SumRows(t.movements, rows, TakenFrom(doc, i)))
    && (forall k :: OnHand(t', k) == OnHand(t, k) + SumRows(t.movements, rows, TakenOf(doc, scope, k)))
  }

  /** One row given back, as both adapters write it. */
  ghost predicate SliceBack(t: Tables, t': Tables, row: nat, scope: Scope) {
    && row < |t.movements| && t.movements[row].batch < |t.batches|
    && var m := t.movements[row];
    && t'.batches == t.batches[m.batch := GiveBack(t.batches[m.batch], m.quantity)]
    && t'.reservations == t.reservations && t.movements <= t'.movements
    && forall k :: OnHand(t', k) == OnHand(t, k) + (if k == StockKey(scope, m.key.item) then m.quantity else 0)
  }

  lemma GiveBackOneMore(t: Tables, t1: Tables, t2: Tables, rows: seq<nat>, doc: Movement -> bool, scope: Scope)
    requires InTable(t.movements, rows) && rows != [] && doc(t.movements[rows[0]])
    requires SliceBack(t, t1, rows[0], scope) && GivesBack(t1, t2, rows[1..], doc, scope)
    ensures GivesBack(t, t2, rows, doc, scope)
  {
    forall i | 0 <= i < |t.batches|
      ensures t2.batches[i].remaining == t.batches[i].remaining + SumRows(t.movements, rows, TakenFrom(doc, i))
    {
      SumRowsOfLonger(t.movements, t1.movements, rows[1..], TakenFrom(doc, i));
    }
    forall k ensures OnHand(t2, k) == OnHand(t, k) + SumRows(t.movements, rows, TakenOf(doc, scope, k)) {
      SumRowsOfLonger(t.movements, t1.movements, rows[1..], TakenOf(doc, scope, k));
    }
  }

  predicate AllOf(ms: seq<Movement>, rows: seq<nat>, doc: Movement -> bool) {
    InTable(ms, rows) && forall n :: 0 <= n < |rows| ==> doc(ms[rows[n]])
  }

  lemma {:induction false} ReverseSlicesGiveBack(t: Tables, cmd: ReverseIssueCommand, rows: seq<nat>, doc: Movement -> bool)
    requires AllOf(t.movements, rows, doc) && ReverseSlices(t, cmd, rows).Ok?
    ensures GivesBack(t, ReverseSlices(t, cmd, rows).value, rows, doc, cmd.scope)
    decreases rows
  {
    if rows != [] {
      var t1 := ReverseSlice(t, cmd, rows[0]).value;
      assert SliceBack(t, t1, rows[0], cmd.scope);
      ReverseSlicesGiveBack(t1, cmd, rows[1..], doc);
      GiveBackOneMore(t, t1, ReverseSlices(t, cmd, rows).value, rows, doc, cmd.scope);
    }
  }

  lemma {:induction false} ReverseWriteOffSlicesGiveBack(t: Tables, cmd: ReverseWriteOffCommand, rows: seq<nat>, doc: Movement -> bool)
    requires AllOf(t.movements, rows, doc) && ReverseWriteOffSlices(t, cmd, rows).Ok?
    ensures GivesBack(t, ReverseWriteOffSlices(t, cmd, rows).value, rows, doc, cmd.scope)
    decreases rows
  {
    if rows != [] {
      var t1 := ReverseWriteOffSlice(t, cmd, rows[0]).value;
      assert SliceBack(t, t1, rows[0], cmd.scope);
      ReverseWriteOffSlicesGiveBack(t1, cmd, rows[1..], doc);
      GiveBackOneMore(t, t1, ReverseWriteOffSlices(t, cmd, rows).value, rows, doc, cmd.scope);
    }
  }

  /** All the document's rows taken together, whenever they were written. */
  ghost predicate GivesBackAll(t: Tables, t': Tables, doc: Movement -> bool, scope: Scope) {
    && SameLabels(t, t') && t'.reservations == t.reservations
    && (forall i :: 0 <= i < |t.batches| ==>
          t'.batches[i].remaining == t.batches[i].remaining + Sum(t.movements, TakenFrom(doc, i)))
    && (forall k :: OnHand(t', k) == OnHand(t, k) + Sum(t.movements, TakenOf(doc, scope, k)))
  }

  lemma FoundRowsAreAll(t: Tables, t': Tables, doc: Movement -> bool, scope: Scope)
    requires GivesBack(t, t', Matching(t.movements, doc), doc, scope)
    ensures GivesBackAll(t, t', doc, scope)
  {
    forall i | 0 <= i < |t.batches|
      ensures t'.batches[i].remaining == t.batches[i].remaining + Sum(t.movements, TakenFrom(doc, i))
    {
      SumOfMatching(t.movements, doc, TakenFrom(doc, i));
    }
    forall k ensures OnHand(t', k) == OnHand(t, k) + Sum(t.movements, TakenOf(doc, scope, k)) {
      SumOfMatching(t.movements, doc, TakenOf(doc, scope, k));
    }
  }

  lemma MatchingAreAllOf(ms: seq<Movement>, doc: Movement -> bool)
    ensures AllOf(ms, Matching(ms, doc), doc)
  {
    var rows := Matching(ms, doc);
    forall n | 0 <= n < |rows| ensures doc(ms[rows[n]]) {
      assert rows[n] in rows;
    }
  }

  function SaleIssues(org: nat, sale: nat): Movement -> bool {
    OfDocument(org, Sale, sale, Issue)
  }

  function Wasted(org: nat, writeOff: nat): Movement -> bool {
    OfDocument(org, WriteOffItem, writeOff, WriteOff)
  }

  predicate FreshWriteOffReversal(t: Tables, cmd: ReverseWriteOffCommand) {
    IdempotencyKey(cmd.scope.org, InventoryTables.PostingScope.WriteOffReverse, cmd.key) !in t.keys
  }

  /**
   The first reversal of a sale gives every batch exactly what all the sale's issues ever took from it, and
   the named scope exactly what they took of each item; nothing else moves and no hold comes back.
   */
  lemma SaleReversalGivesBackAll(t: Tables, cmd: ReverseIssueCommand)
    requires ReverseIssue(t, cmd).Ok? && FreshSaleReversal(t, cmd)
    ensures GivesBackAll(t, ReverseIssue(t, cmd).value, SaleIssues(cmd.scope.org, cmd.sale), cmd.scope)
  {
    var doc := SaleIssues(cmd.scope.org, cmd.sale);
    var rows := Matching(t.movements, doc);
    MatchingAreAllOf(t.movements, doc);
    ReverseSlicesGiveBack(t, cmd, rows, doc);
    FoundRowsAreAll(t, ReverseSlices(t, cmd, rows).value, doc, cmd.scope);
  }

  /** The same for a write-off. */
  lemma WriteOffReversalGivesBackAll(t: Tables, cmd: ReverseWriteOffCommand)
    requires ReverseWriteOff(t, cmd).Ok? && FreshWriteOffReversal(t, cmd)
    ensures GivesBackAll(t, ReverseWriteOff(t, cmd).value, Wasted(cmd.scope.org, cmd.writeOff), cmd.scope)
  {
    hide GivesBack, ReverseWriteOffSlices, AllOf;
    var doc := Wasted(cmd.scope.org, cmd.writeOff);
    var rows := Matching(t.movements, doc);
    MatchingAreAllOf(t.movements, doc);
    ReverseWriteOffSlicesGiveBack(t, cmd, rows, doc);
    FoundRowsAreAll(t, ReverseWriteOffSlices(t, cmd, rows).value, doc, cmd.scope);
  }

  // --------------------------------------------------- what a document took

  /** A row of a draw: in the command's scope, at its batch's cost and the command's time, reversing nothing. */
  predicate DrawRow(t: Tables, scope: Scope, at: int, m: Movement) {
    && m.key.scope == scope && m.quantity > 0 && m.batch < |t.batches| && m.unitCost == t.batches[m.batch].unitCost
    && m.reversalOf.None? && m.occurredAt == at
  }

  /** Every row the command appended is such a draw, and the document's. */
  ghost predicate OnlyDraws(t: Tables, t': Tables, scope: Scope, doc: Movement -> bool, at: int) {
    && SameLabels(t, t') && t.movements <= t'.movements
    && forall j :: |t.movements| <= j < |t'.movements| ==> doc(t'.movements[j]) && DrawRow(t, scope, at, t'.movements[j])
  }

  function Issued(cmd: IssueCommand): Movement -> bool {
    OfDocument(cmd.scope.org, cmd.sourceType, cmd.document, Issue)
  }

  lemma ConsumeHoldDraws(t: Tables, cmd: IssueCommand, k: StockKey, row: nat, remaining: int)
    requires k.scope == cmd.scope && row < |t.reservations| && ConsumeHold(t, cmd, k, row, remaining).Ok?
    ensures OnlyDraws(t, ConsumeHold(t, cmd, k, row, remaining).value.tables, cmd.scope, Issued(cmd), cmd.occurredAt)
  {
  }

  lemma {:induction false} ConsumeHoldsDraw(t: Tables, cmd: IssueCommand, k: StockKey, rows: seq<nat>, remaining: int)
    requires k.scope == cmd.scope && forall n :: 0 <= n < |rows| ==> rows[n] < |t.reservations|
    requires ConsumeHolds(t, cmd, k, rows, remaining).Ok?
    ensures OnlyDraws(t, ConsumeHolds(t, cmd, k, rows, remaining).value.tables, cmd.scope, Issued(cmd), cmd.occurredAt)
    decreases rows
  {
    if rows != [] && remaining > 0 {
      ConsumeHoldDraws(t, cmd, k, rows[0], remaining);
      var p := ConsumeHold(t, cmd, k, rows[0], remaining).value;
      ConsumeHoldsDraw(p.tables, cmd, k, rows[1..], p.remaining);
    }
  }

  lemma TakeFreeDraws(t: Tables, cmd: IssueCommand, k: StockKey, i: nat, remaining: int)
    requires k.scope == cmd.scope && i < |t.batches| && TakeFree(t, cmd, k, i, remaining).Ok?
    requires remaining > 0
    ensures OnlyDraws(t, TakeFree(t, cmd, k, i, remaining).value.tables, cmd.scope, Issued(cmd), cmd.occurredAt)
  {
  }

  lemma {:induction false} TakeFreeStockDraws(t: Tables, cmd: IssueCommand, k: StockKey, order: seq<nat>, remaining: int)
    requires k.scope == cmd.scope && forall n :: 0 <= n < |order| ==> order[n] < |t.batches|
    requires TakeFreeStock(t, cmd, k, order, remaining).Ok?
    ensures OnlyDraws(t, TakeFreeStock(t, cmd, k, order, remaining).value.tables, cmd.scope, Issued(cmd), cmd.occurredAt)
    decreases order
  {
    if order != [] && remaining > 0 {
      TakeFreeDraws(t, cmd, k, order[0], remaining);
      var p := TakeFree(t, cmd, k, order[0], remaining).value;
      TakeFreeStockDraws(p.tables, cmd, k, order[1..], p.remaining);
    }
  }

  lemma ReleaseExcessDrawsNothing(t: Tables, k: StockKey, sources: seq<nat>)
    requires ReleaseExcess(t, k, sources).Ok?
    ensures var t' := ReleaseExcess(t, k, sources).value;
      t'.batches == t.batches && t'.movements == t.movements && t.balances.Keys <= t'.balances.Keys
  {
  }

  lemma IssueReservedDraws(t: Tables, cmd: IssueCommand, k: StockKey, line: IssueLine)
    requires k.scope == cmd.scope && IssueReserved(t, cmd, k, line).Ok?
    ensures OnlyDraws(t, IssueReserved(t, cmd, k, line).value.tables, cmd.scope, Issued(cmd), cmd.occurredAt)
  {
    if line.sources != [] {
      var rows := Matching(t.reservations, HeldFor(k, line.sources));
      ConsumeHoldsDraw(t, cmd, k, rows, line.quantity);
      ReleaseExcessDrawsNothing(ConsumeHolds(t, cmd, k, rows, line.quantity).value.tables, k, line.sources);
    }
  }

  lemma IssueOneLineDraws(t: Tables, cmd: IssueCommand, line: IssueLine)
    requires IssueOneLine(t, cmd, line).Ok?
    ensures OnlyDraws(t, IssueOneLine(t, cmd, line).value, cmd.scope, Issued(cmd), cmd.occurredAt)
  {
    var k := StockKey(cmd.scope, line.item);
    IssueReservedDraws(t, cmd, k, line);
    var p := IssueReserved(t, cmd, k, line).value;
    if p.remaining > 0 {
      TakeFreeStockDraws(p.tables, cmd, k, ConsumptionOrder(p.tables, k), p.remaining);
    }
  }

  lemma {:induction false} IssueLinesDraw(t: Tables, cmd: IssueCommand, lines: seq<IssueLine>)
    requires IssueLines(t, cmd, lines).Ok?
    ensures OnlyDraws(t, IssueLines(t, cmd, lines).value, cmd.scope, Issued(cmd), cmd.occurredAt)
    decreases lines
  {
    if lines != [] {
      IssueOneLineDraws(t, cmd, lines[0]);
      IssueLinesDraw(IssueOneLine(t, cmd, lines[0]).value, cmd, lines[1..]);
    }
  }

  lemma WriteOffSliceDraws(t: Tables, cmd: WriteOffCommand, line: WriteOffLine, i: nat, remaining: int)
    requires i < |t.batches| && WriteOffSlice(t, cmd, line, i, remaining).Ok?
    requires remaining > 0
    ensures OnlyDraws(t, WriteOffSlice(t, cmd, line, i, remaining).value.tables, cmd.scope, Wasted(cmd.scope.org, cmd.writeOff), cmd.occurredAt)
    ensures WriteOffSlice(t, cmd, line, i, remaining).value.tables.reservations == t.reservations
  {
  }

  lemma {:induction false} WriteOffSlicesDraw(t: Tables, cmd: WriteOffCommand, line: WriteOffLine, order: seq<nat>, remaining: int)
    requires forall n :: 0 <= n < |order| ==> order[n] < |t.batches|
    requires WriteOffSlices(t, cmd, line, order, remaining).Ok?
    ensures OnlyDraws(t, WriteOffSlices(t, cmd, line, order, remaining).value.tables, cmd.scope, Wasted(cmd.scope.org, cmd.writeOff), cmd.occurredAt)
    ensures WriteOffSlices(t, cmd, line, order, remaining).value.tables.reservations == t.reservations
    decreases order
  {
    if order != [] && remaining > 0 {
      WriteOffSliceDraws(t, cmd, line, order[0], remaining);
      var p := WriteOffSlice(t, cmd, line, order[0], remaining).value;
      WriteOffSlicesDraw(p.tables, cmd, line, order[1..], p.remaining);
    }
  }

  lemma {:induction false} WriteOffLinesDraw(t: Tables, cmd: WriteOffCommand, lines: seq<WriteOffLine>)
    requires PostWriteOffLines(t, cmd, lines).Ok?
    ensures OnlyDraws(t, PostWriteOffLines(t, cmd, lines).value, cmd.scope, Wasted(cmd.scope.org, cmd.writeOff), cmd.occurredAt)
    ensures PostWriteOffLines(t, cmd, lines).value.reservations == t.reservations
    decreases lines
  {
    if lines != [] {
      var order := ConsumptionOrder(t, StockKey(cmd.scope, lines[0].item));
      WriteOffSlicesDraw(t, cmd, lines[0], order, lines[0].quantity);
      WriteOffLinesDraw(PostWriteOffLine(t, cmd, lines[0]).value, cmd, lines[1..]);
    }
  }

  /** The rows found for a document: its own, of the kind asked for, and no other's. */
  lemma RowsOfADocument(ms: seq<Movement>, org: nat, sourceType: SourceType, document: nat, kind: MovementType, i: nat)
    ensures i in Matching(ms, OfDocument(org, sourceType, document, kind))
      <==> && i < |ms| && ms[i].key.scope.org == org && ms[i].sourceType == sourceType
           && ms[i].document == document && ms[i].kind == kind
  {
  }

  /** Every row a fresh issue writes is a draw for its document, at its batch's cost and the command's time. */
  lemma IssueWrites(t: Tables, cmd: IssueCommand)
    requires IssueStock(t, cmd).Ok? && IdempotencyKey(cmd.scope.org, cmd.keyScope, cmd.key) !in t.keys
    ensures OnlyDraws(t, IssueStock(t, cmd).value, cmd.scope, Issued(cmd), cmd.occurredAt)
    ensures forall m :: m in IssueStock(t, cmd).value.movements[|t.movements|..] ==>
      m.kind == Issue && m.sourceType == cmd.sourceType && m.document == cmd.document
  {
    IssueLinesDraw(t, cmd, cmd.lines);
  }

  /** The same for a write-off, which also leaves the holds alone. */
  lemma WriteOffWrites(t: Tables, cmd: WriteOffCommand)
    requires PostWriteOff(t, cmd).Ok?
    requires IdempotencyKey(cmd.scope.org, InventoryTables.PostingScope.WriteOffPost, cmd.key) !in t.keys
    ensures OnlyDraws(t, PostWriteOff(t, cmd).value, cmd.scope, Wasted(cmd.scope.org, cmd.writeOff), cmd.occurredAt)
    ensures forall m :: m in PostWriteOff(t, cmd).value.movements[|t.movements|..] ==>
      m.kind == WriteOff && m.sourceType == WriteOffItem && m.document == cmd.writeOff
    ensures PostWriteOff(t, cmd).value.reservations == t.reservations
  {
    WriteOffLinesDraw(t, cmd, cmd.lines);
  }

  // -------------------------------------------------- the reversal commits

  /** A reversal on a draw's source line can only be the reversal of that draw. */
  lemma ReversalOnTheLineIsItsOwn(t: Tables, row: nat, j: nat)
    requires StockInv(t) && row < |t.movements| && IsDraw(t.movements[row])
    requires j < |t.movements| && IsReversal(t.movements[j].kind)
    requires Reverses(t.movements[j].kind) == t.movements[row].kind
    requires t.movements[j].key.scope.org == t.movements[row].key.scope.org
    requires t.movements[j].sourceType == t.movements[row].sourceType
    requires t.movements[j].sourceItem == t.movements[row].sourceItem
    ensures t.movements[j].reversalOf == Some(row)
  {
    assert MovementRowOk(t, j) && MovementRowOk(t, row);
    var o := t.movements[j].reversalOf.value;
    assert MovementRowOk(t, o);
    assert t.movements[..j][o] == t.movements[o];
    assert SameSource(t.movements[o], t.movements[row]) && SameSource(t.movements[row], t.movements[o]);
  }

  /** A row nothing has given back yet still has its source line free for the row that gives it back. */
  lemma OpenRowHasFreeSource(t: Tables, row: nat, c: Movement)
    requires StockInv(t) && row < |t.movements| && IsDraw(t.movements[row])
    requires c.key == t.movements[row].key && Reverses(c.kind) == t.movements[row].kind && IsReversal(c.kind)
    requires c.sourceType == t.movements[row].sourceType && c.sourceItem == t.movements[row].sourceItem
    ensures Open(t.movements, row) ==> SourceFree(t.movements, c)
  {
    forall j | 0 <= j < |t.movements| && SameSource(t.movements[j], c) ensures t.movements[j].reversalOf == Some(row) {
      ReversalOnTheLineIsItsOwn(t, row, j);
    }
  }

  /** Draws of one scope, none of them given back. */
  ghost predicate OpenRows(t: Tables, scope: Scope, rows: seq<nat>) {
    && (forall n :: 0 <= n < |rows| ==>
          && rows[n] < |t.movements| && IsDraw(t.movements[rows[n]]) && Open(t.movements, rows[n])
          && t.movements[rows[n]].key.scope == scope)
    && (forall a, b :: 0 <= a < b < |rows| ==> rows[a] < rows[b])
  }

  lemma OpenSliceFits(t: Tables, row: nat)
    requires Inv(t) && row < |t.movements| && IsDraw(t.movements[row]) && Open(t.movements, row)
    ensures var m := t.movements[row];
      && m.batch < |t.batches| && m.quantity > 0 && m.key in t.balances
      && BatchQuantitiesValid(GiveBack(t.batches[m.batch], m.quantity))
  {
    OpenDrawIsMissing(t, row);
    assert MovementRowOk(t, row);
    assert BatchShapeOk(t.batches[t.movements[row].batch]);
  }

  lemma RestStaysOpen(t: Tables, t1: Tables, scope: Scope, rows: seq<nat>, c: Movement)
    requires rows != [] && OpenRows(t, scope, rows)
    requires t1.movements == t.movements + [c] && c.reversalOf == Some(rows[0])
    ensures OpenRows(t1, scope, rows[1..])
  {
    forall n | 0 <= n < |rows[1..]| ensures Open(t1.movements, rows[1..][n]) {
      assert rows[1..][n] == rows[n + 1];
      assert Open(t.movements, rows[n + 1]);
    }
  }

  lemma {:induction false} OpenRowsReverse(t: Tables, cmd: ReverseIssueCommand, rows: seq<nat>)
    requires Inv(t) && OpenRows(t, cmd.scope, rows)
    requires forall n :: 0 <= n < |rows| ==> t.movements[rows[n]].kind.Issue?
    ensures ReverseSlices(t, cmd, rows).Ok?
    decreases rows
  {
    if rows != [] {
      var m := t.movements[rows[0]];
      var c := Compensation(cmd.scope, rows[0], m, IssueReversal, cmd.occurredAt);
      OpenSliceFits(t, rows[0]);
      OpenRowHasFreeSource(t, rows[0], c);
      var t1 := ReverseSlice(t, cmd, rows[0]).value;
      ReverseSliceKeepsInv(t, cmd, rows[0]);
      RestStaysOpen(t, t1, cmd.scope, rows, c);
      OpenRowsReverse(t1, cmd, rows[1..]);
    }
  }

  lemma {:induction false} OpenWasteReverses(t: Tables, cmd: ReverseWriteOffCommand, rows: seq<nat>)
    requires Inv(t) && OpenRows(t, cmd.scope, rows)
    requires forall n :: 0 <= n < |rows| ==> t.movements[rows[n]].kind.WriteOff?
    ensures ReverseWriteOffSlices(t, cmd, rows).Ok?
    decreases rows
  {
    if rows != [] {
      var m := t.movements[rows[0]];
      var c := Compensation(cmd.scope, rows[0], m, WriteOffReversal, cmd.occurredAt);
      OpenSliceFits(t, rows[0]);
      OpenRowHasFreeSource(t, rows[0], c);
      var t1 := ReverseWriteOffSlice(t, cmd, rows[0]).value;
      ReverseWriteOffSliceKeepsInv(t, cmd, rows[0]);
      RestStaysOpen(t, t1, cmd.scope, rows, c);
      OpenWasteReverses(t1, cmd, rows[1..]);
    }
  }

  /** A reversal that points to a document's row is the document's own. */
  lemma OwnReversal(t: Tables, row: nat, j: nat)
    requires StockInv(t) && row < |t.movements| && IsDraw(t.movements[row])
    requires j < |t.movements| && IsReversal(t.movements[j].kind) && t.movements[j].reversalOf == Some(row)
    ensures var m, o := t.movements[j], t.movements[row];
      Reverses(m.kind) == o.kind && m.sourceType == o.sourceType && m.document == o.document && m.key.scope.org == o.key.scope.org
  {
    assert MovementRowOk(t, j) && MovementRowOk(t, row);
    assert t.movements[..j][row] == t.movements[row];
  }

  /** While a document has no row of the reversing kind, all its draws are open. */
  lemma UnreversedRowsAreOpen(t: Tables, scope: Scope, sourceType: SourceType, document: nat, reversal: MovementType)
    requires StockInv(t) && (reversal == IssueReversal || reversal == WriteOffReversal)
    requires RowsInScope(t, scope, Matching(t.movements, OfDocument(scope.org, sourceType, document, Reverses(reversal))))
    requires forall j :: 0 <= j < |t.movements| ==> !OfDocument(scope.org, sourceType, document, reversal)(t.movements[j])
    ensures OpenRows(t, scope, Matching(t.movements, OfDocument(scope.org, sourceType, document, Reverses(reversal))))
  {
    var rows := Matching(t.movements, OfDocument(scope.org, sourceType, document, Reverses(reversal)));
    forall n | 0 <= n < |rows| ensures IsDraw(t.movements[rows[n]]) && Open(t.movements, rows[n]) {
      assert rows[n] in rows;
      forall j | 0 <= j < |t.movements| && IsReversal(t.movements[j].kind) ensures t.movements[j].reversalOf != Some(rows[n]) {
        if t.movements[j].reversalOf == Some(rows[n]) {
          OwnReversal(t, rows[n], j);
        }
      }
    }
  }

  /** The first reversal of a sale, named in its scope, always commits. */
  lemma FirstSaleReversalCommits(t: Tables, cmd: ReverseIssueCommand)
    requires Inv(t) && ReverseIssueAddressed(t, cmd) && FreshSaleReversal(t, cmd)
    ensures ReverseIssue(t, cmd).Ok?
  {
    var doc := SaleIssues(cmd.scope.org, cmd.sale);
    UnreversedRowsAreOpen(t, cmd.scope, Sale, cmd.sale, IssueReversal);
    MatchingAreAllOf(t.movements, doc);
    OpenRowsReverse(t, cmd, Matching(t.movements, doc));
  }

  predicate WriteOffReversed(t: Tables, cmd: ReverseWriteOffCommand) {
    exists j :: 0 <= j < |t.movements| && OfDocument(cmd.scope.org, WriteOffItem, cmd.writeOff, WriteOffReversal)(t.movements[j])
  }

  /** A reversed write-off has its draw behind it, which a second reversal would meet again. */
  lemma ReversedRowRefuses(t: Tables, cmd: ReverseWriteOffCommand, rows: seq<nat>, n: nat)
    requires Inv(t) && RowsInScope(t, cmd.scope, rows) && n < |rows|
    requires forall n :: 0 <= n < |rows| ==> t.movements[rows[n]].kind.WriteOff?
    requires forall a, b :: 0 <= a < b < |rows| ==> rows[a] < rows[b]
    requires !Open(t.movements, rows[n])
    ensures ReverseWriteOffSlices(t, cmd, rows).Rejected?
    decreases rows
  {
    if ReverseWriteOffSlice(t, cmd, rows[0]).Ok? {
      var t1 := ReverseWriteOffSlice(t, cmd, rows[0]).value;
      var c := Compensation(cmd.scope, rows[0], t.movements[rows[0]], WriteOffReversal, cmd.occurredAt);
      ReverseWriteOffSliceKeepsInv(t, cmd, rows[0]);
      CompensatedRowIsOpen(t, rows[0], c);
      assert n > 0 && rows[1..][n - 1] == rows[n];
      var j :| 0 <= j < |t.movements| && IsReversal(t.movements[j].kind) && t.movements[j].reversalOf == Some(rows[n]);
      assert t1.movements[j] == t.movements[j];
      ReversedRowRefuses(t1, cmd, rows[1..], n - 1);
    }
  }

  /** A reversed write-off has a draw that is no longer open. */
  lemma ReversedWriteOffHasClosedRow(t: Tables, cmd: ReverseWriteOffCommand) returns (n: nat)
    requires StockInv(t) && WriteOffReversed(t, cmd)
    ensures var rows := Matching(t.movements, Wasted(cmd.scope.org, cmd.writeOff)); n < |rows| && !Open(t.movements, rows[n])
  {
    var rows := Matching(t.movements, Wasted(cmd.scope.org, cmd.writeOff));
    var j :| 0 <= j < |t.movements| && OfDocument(cmd.scope.org, WriteOffItem, cmd.writeOff, WriteOffReversal)(t.movements[j]);
    assert MovementRowOk(t, j);
    var o := t.movements[j].reversalOf.value;
    assert t.movements[..j][o] == t.movements[o];
    assert MovementRowOk(t, o);
    assert o in rows;
    n :| 0 <= n < |rows| && rows[n] == o;
  }

  /** Under a fresh key a write-off, named in its scope, can be reversed exactly when it has not been. */
  lemma WriteOffReversalSucceedsIff(t: Tables, cmd: ReverseWriteOffCommand)
    requires Inv(t) && ReverseWriteOffAddressed(t, cmd) && FreshWriteOffReversal(t, cmd)
    ensures ReverseWriteOff(t, cmd).Ok? <==> !WriteOffReversed(t, cmd)
  {
    var doc := Wasted(cmd.scope.org, cmd.writeOff);
    var rows := Matching(t.movements, doc);
    MatchingAreAllOf(t.movements, doc);
    hide Inv, StockInv, Open;
    if WriteOffReversed(t, cmd) {
      assert StockInv(t) by { InvHasStock(t); }
      var n := ReversedWriteOffHasClosedRow(t, cmd);
      ReversedRowRefuses(t, cmd, rows, n);
    } else {
      InvHasStock(t);
      UnreversedRowsAreOpen(t, cmd.scope, WriteOffItem, cmd.writeOff, WriteOffReversal);
      OpenWasteReverses(t, cmd, rows);
    }
  }

  lemma InvHasStock(t: Tables)
    requires Inv(t)
    ensures StockInv(t)
  {
  }

  // ------------------------------------------------------------- undone

  lemma NewDraws(t: Tables, t1: Tables, scope: Scope, doc: Movement -> bool, at: int)
    requires Inv(t1) && OnlyDraws(t, t1, scope, doc, at)
    requires forall m :: doc(m) ==> IsDraw(m)
    ensures forall m :: m in t1.movements[|t.movements|..] ==> doc(m) && m.quantity > 0
  {
    var news := t1.movements[|t.movements|..];
    forall m | m in news ensures doc(m) && m.quantity > 0 {
      var j :| 0 <= j < |news| && news[j] == m;
      assert t1.movements[|t.movements| + j] == m;
      assert MovementRowOk(t1, |t.movements| + j);
    }
  }

  /** New draws explain exactly what their batches lost, and reverse none of them. */
  lemma DrawsAreMissing(t: Tables, t1: Tables, scope: Scope, doc: Movement -> bool, at: int, i: nat)
    requires Inv(t) && Inv(t1) && OnlyDraws(t, t1, scope, doc, at) && i < |t.batches|
    requires forall m :: doc(m) ==> IsDraw(m)
    requires forall j :: 0 <= j < |t.movements| ==> !doc(t.movements[j])
    ensures t1.batches[i].remaining + Sum(t1.movements, TakenFrom(doc, i)) == t.batches[i].remaining
  {
    hide LedgerInv, HoldInv, BalanceInv;
    var news := t1.movements[|t.movements|..];
    assert t1.movements == t.movements + news;
    NewDraws(t, t1, scope, doc, at);
    SumConcat(t.movements, news, TakenFrom(doc, i));
    SumConcat(t.movements, news, DeltaOnBatch(i));
    SumZero(t.movements, TakenFrom(doc, i));
    NewDrawsLower(news, doc, i);
    DeltasAreRemaining(t, i);
    DeltasAreRemaining(t1, i);
  }

  lemma DeltasAreRemaining(t: Tables, i: nat)
    requires LedgerInv(t) && i < |t.batches|
    ensures Sum(t.movements, DeltaOnBatch(i)) == t.batches[i].remaining
  {
    assert BatchHistoryOk(t, i);
  }

  lemma NewDrawsLower(news: seq<Movement>, doc: Movement -> bool, i: nat)
    requires forall m :: m in news ==> doc(m) && m.quantity > 0 && IsDraw(m)
    ensures Sum(news, TakenFrom(doc, i)) == -Sum(news, DeltaOnBatch(i))
  {
    SumNegated(news, TakenFrom(doc, i), DeltaOnBatch(i));
  }

  lemma {:induction false} SumNegated(ms: seq<Movement>, f: Movement -> int, g: Movement -> int)
    requires forall m :: m in ms ==> f(m) == -g(m)
    ensures Sum(ms, f) == -Sum(ms, g)
  {
    if ms != [] {
      SumNegated(ms[..|ms| - 1], f, g);
    }
  }

  /** Same label, same quantity, reversed or not alike: in a valid ledger that is the same batch. */
  lemma SameBatch(a: Batch, b: Batch)
    requires BatchShapeOk(a) && BatchShapeOk(b) && Label(a) == Label(b) && a.remaining == b.remaining
    requires a.status.ReversedBatch? <==> b.status.ReversedBatch?
    ensures a == b
  {
    assert a == Label(a).(remaining := a.remaining, status := a.status);
    assert b == Label(b).(remaining := b.remaining, status := b.status);
  }

  /** Rows that reverse no receipt leave a batch reversed or not reversed, as it was. */
  lemma ReversedOrNotAsBefore(t: Tables, t': Tables, i: nat)
    requires Inv(t) && Inv(t') && t.movements <= t'.movements && i < |t.batches| && i < |t'.batches|
    requires forall j :: |t.movements| <= j < |t'.movements| ==> !t'.movements[j].kind.ReceiptReversal?
    ensures t'.batches[i].status.ReversedBatch? <==> t.batches[i].status.ReversedBatch?
  {
    var news := t'.movements[|t.movements|..];
    assert t'.movements == t.movements + news;
    assert BatchHistoryOk(t, i) && BatchHistoryOk(t', i);
    SumConcat(t.movements, news, CountOnBatch(ReceiptReversal, i));
    SumZero(news, CountOnBatch(ReceiptReversal, i));
  }

  lemma AllBatchesBack(t: Tables, t1: Tables, t2: Tables, scope: Scope, doc: Movement -> bool, at: int)
    requires Inv(t) && Inv(t1) && Inv(t2) && OnlyDraws(t, t1, scope, doc, at) && GivesBackAll(t1, t2, doc, scope)
    requires t1.movements <= t2.movements
    requires forall j :: |t1.movements| <= j < |t2.movements| ==> !t2.movements[j].kind.ReceiptReversal?
    requires forall m :: doc(m) ==> IsDraw(m)
    requires forall j :: 0 <= j < |t.movements| ==> !doc(t.movements[j])
    ensures t2.batches == t.batches && forall k :: OnHand(t2, k) == OnHand(t, k)
  {
    forall i | 0 <= i < |t.batches| ensures t2.batches[i] == t.batches[i] {
      DrawsAreMissing(t, t1, scope, doc, at, i);
      ReversedOrNotAsBefore(t, t1, i);
      ReversedOrNotAsBefore(t1, t2, i);
      SameBatch(t2.batches[i], t.batches[i]);
    }
    assert t2.batches == t.batches;
    forall k ensures OnHand(t2, k) == OnHand(t, k) {
      assert OnHandAgrees(t, k) && OnHandAgrees(t2, k);
    }
  }

  /** The row that gives another back: negated, at its cost, on its batch, item, document and source line. */
  predicate GivesRowBack(ms: seq<Movement>, row: nat, c: Movement, scope: Scope, kind: MovementType, at: int) {
    && row < |ms|
    && var m := ms[row];
    && c.key.scope == scope && c.key.item == m.key.item && c.batch == m.batch && c.kind == kind
    && c.quantity == -m.quantity && c.unitCost == m.unitCost
    && c.sourceType == m.sourceType && c.document == m.document && c.sourceItem == m.sourceItem
    && c.reversalOf == Some(row) && c.occurredAt == at
  }

  /** One such row for each of those found, in their order. */
  ghost predicate RowsGivenBack(t: Tables, t': Tables, rows: seq<nat>, scope: Scope, kind: MovementType, at: int) {
    && t.movements <= t'.movements && |t'.movements| == |t.movements| + |rows|
    && forall j :: |t.movements| <= j < |t'.movements| ==>
         GivesRowBack(t.movements, rows[j - |t.movements|], t'.movements[j], scope, kind, at)
  }

  lemma RowGivenBackThen(t: Tables, t1: Tables, t2: Tables, rows: seq<nat>, scope: Scope, kind: MovementType, at: int)
    requires rows != [] && InTable(t.movements, rows)
    requires RowsGivenBack(t, t1, [rows[0]], scope, kind, at) && RowsGivenBack(t1, t2, rows[1..], scope, kind, at)
    ensures RowsGivenBack(t, t2, rows, scope, kind, at)
  {
    forall j | |t.movements| <= j < |t2.movements|
      ensures GivesRowBack(t.movements, rows[j - |t.movements|], t2.movements[j], scope, kind, at)
    {
      if j < |t1.movements| {
        assert t2.movements[j] == t1.movements[j];
      } else {
        assert GivesRowBack(t1.movements, rows[1..][j - |t1.movements|], t2.movements[j], scope, kind, at);
        assert rows[1..][j - |t1.movements|] == rows[j - |t.movements|];
      }
    }
  }

  lemma {:induction false} ReverseSlicesWrite(t: Tables, cmd: ReverseIssueCommand, rows: seq<nat>)
    requires InTable(t.movements, rows) && ReverseSlices(t, cmd, rows).Ok?
    ensures RowsGivenBack(t, ReverseSlices(t, cmd, rows).value, rows, cmd.scope, IssueReversal, cmd.occurredAt)
    decreases rows
  {
    if rows != [] {
      var t1 := ReverseSlice(t, cmd, rows[0]).value;
      assert RowsGivenBack(t, t1, [rows[0]], cmd.scope, IssueReversal, cmd.occurredAt);
      ReverseSlicesWrite(t1, cmd, rows[1..]);
      RowGivenBackThen(t, t1, ReverseSlices(t, cmd, rows).value, rows, cmd.scope, IssueReversal, cmd.occurredAt);
    }
  }

  lemma {:induction false} ReverseWriteOffSlicesWrite(t: Tables, cmd: ReverseWriteOffCommand, rows: seq<nat>)
    requires InTable(t.movements, rows) && ReverseWriteOffSlices(t, cmd, rows).Ok?
    ensures RowsGivenBack(t, ReverseWriteOffSlices(t, cmd, rows).value, rows, cmd.scope, WriteOffReversal, cmd.occurredAt)
    decreases rows
  {
    if rows != [] {
      var t1 := ReverseWriteOffSlice(t, cmd, rows[0]).value;
      assert RowsGivenBack(t, t1, [rows[0]], cmd.scope, WriteOffReversal, cmd.occurredAt);
      ReverseWriteOffSlicesWrite(t1, cmd, rows[1..]);
      RowGivenBackThen(t, t1, ReverseWriteOffSlices(t, cmd, rows).value, rows, cmd.scope, WriteOffReversal, cmd.occurredAt);
    }
  }

  /** A sale already reversed, under whatever key, is left alone: only the new key is bound. */
  lemma ReversedSaleIsLeftAlone(t: Tables, cmd: ReverseIssueCommand, j: nat)
    requires IdempotencyKey(cmd.scope.org, SaleIssueReverse, cmd.key) !in t.keys
    requires j < |t.movements| && var m := t.movements[j];
      m.key.scope.org == cmd.scope.org && m.sourceType == Sale && m.document == cmd.sale && m.kind == IssueReversal
    ensures ReverseIssue(t, cmd) == Ok(t.(keys := t.keys[IdempotencyKey(cmd.scope.org, SaleIssueReverse, cmd.key) := cmd.sale]))
  {
    assert OfDocument(cmd.scope.org, Sale, cmd.sale, IssueReversal)(t.movements[j]);
  }

  /** The first reversal of a sale writes one compensating row for each of its issue rows. */
  lemma SaleReversalWrites(t: Tables, cmd: ReverseIssueCommand)
    requires ReverseIssue(t, cmd).Ok? && FreshSaleReversal(t, cmd)
    ensures RowsGivenBack(t, ReverseIssue(t, cmd).value, Matching(t.movements, SaleIssues(cmd.scope.org, cmd.sale)),
                          cmd.scope, IssueReversal, cmd.occurredAt)
  {
    ReverseSlicesWrite(t, cmd, Matching(t.movements, SaleIssues(cmd.scope.org, cmd.sale)));
  }

  /** The same for a write-off. */
  lemma WriteOffReversalWrites(t: Tables, cmd: ReverseWriteOffCommand)
    requires ReverseWriteOff(t, cmd).Ok? && FreshWriteOffReversal(t, cmd)
    ensures RowsGivenBack(t, ReverseWriteOff(t, cmd).value, Matching(t.movements, Wasted(cmd.scope.org, cmd.writeOff)),
                          cmd.scope, WriteOffReversal, cmd.occurredAt)
  {
    ReverseWriteOffSlicesWrite(t, cmd, Matching(t.movements, Wasted(cmd.scope.org, cmd.writeOff)));
  }

  /** A document without draws has no reversals either, and drawing adds none. */
  lemma NotReversedByDrawing(t: Tables, t1: Tables, w: WriteOffCommand, r: ReverseWriteOffCommand)
    requires Inv(t) && OnlyDraws(t, t1, w.scope, Wasted(w.scope.org, w.writeOff), w.occurredAt)
    requires forall j :: 0 <= j < |t.movements| ==> !Wasted(w.scope.org, w.writeOff)(t.movements[j])
    requires r.scope == w.scope && r.writeOff == w.writeOff
    ensures !WriteOffReversed(t1, r)
  {
    var p := OfDocument(r.scope.org, WriteOffItem, r.writeOff, WriteOffReversal);
    forall j | 0 <= j < |t1.movements| ensures !p(t1.movements[j]) {
      if j < |t.movements| && p(t.movements[j]) {
        assert MovementRowOk(t, j);
        var o := t.movements[j].reversalOf.value;
        assert t.movements[..j][o] == t.movements[o];
        OwnReversal(t, o, j);
      }
      assert j < |t.movements| ==> t1.movements[j] == t.movements[j];
    }
  }

  lemma NewDocumentRows(t: Tables, t1: Tables, scope: Scope, doc: Movement -> bool, at: int)
    requires OnlyDraws(t, t1, scope, doc, at)
    requires forall j :: 0 <= j < |t.movements| ==> !doc(t.movements[j])
    ensures RowsInScope(t1, scope, Matching(t1.movements, doc))
  {
    var rows := Matching(t1.movements, doc);
    forall n | 0 <= n < |rows| ensures t1.movements[rows[n]].key.scope == scope {
      assert rows[n] in rows && doc(t1.movements[rows[n]]);
    }
  }

  /**
   From any reachable stock: a sale issued for the first time can always be reversed under a fresh key, and
   the reversal puts every batch and every on-hand quantity back. The holds the issue consumed stay consumed.
   */
  lemma ReversedSaleIsUndone(t: Tables, i: IssueCommand, r: ReverseIssueCommand)
    requires Inv(t) && IssueStock(t, i).Ok? && i.sourceType == Sale
    requires IdempotencyKey(i.scope.org, i.keyScope, i.key) !in t.keys
    requires forall j :: 0 <= j < |t.movements| ==> !Issued(i)(t.movements[j])
    requires r.scope == i.scope && r.sale == i.document && FreshSaleReversal(IssueStock(t, i).value, r)
    ensures var t1 := IssueStock(t, i).value;
      && ReverseIssue(t1, r).Ok?
      && var t2 := ReverseIssue(t1, r).value;
      t2.batches == t.batches && t2.reservations == t1.reservations && forall k :: OnHand(t2, k) == OnHand(t, k)
  {
    var t1 := IssueStock(t, i).value;
    var doc := Issued(i);
    IssueWrites(t, i);
    IssueKeepsInv(t, i);
    NewDocumentRows(t, t1, i.scope, doc, i.occurredAt);
    FirstSaleReversalCommits(t1, r);
    SaleReversalGivesBackAll(t1, r);
    ReverseIssueKeepsInv(t1, r);
    SaleReversalWrites(t1, r);
    AllBatchesBack(t, t1, ReverseIssue(t1, r).value, i.scope, doc, i.occurredAt);
  }

  /** The same for a write-off, which holds nothing and therefore also leaves every reservation alone. */
  lemma ReversedWriteOffIsUndone(t: Tables, w: WriteOffCommand, r: ReverseWriteOffCommand)
    requires Inv(t) && PostWriteOff(t, w).Ok?
    requires IdempotencyKey(w.scope.org, InventoryTables.PostingScope.WriteOffPost, w.key) !in t.keys
    requires forall j :: 0 <= j < |t.movements| ==> !Wasted(w.scope.org, w.writeOff)(t.movements[j])
    requires r.scope == w.scope && r.writeOff == w.writeOff && FreshWriteOffReversal(PostWriteOff(t, w).value, r)
    ensures var t1 := PostWriteOff(t, w).value;
      && ReverseWriteOff(t1, r).Ok?
      && var t2 := ReverseWriteOff(t1, r).value;
      t2.batches == t.batches && t2.reservations == t.reservations && forall k :: OnHand(t2, k) == OnHand(t, k)
  {
    var t1 := PostWriteOff(t, w).value;
    var doc := Wasted(w.scope.org, w.writeOff);
    WriteOffWrites(t, w);
    PostWriteOffKeepsInv(t, w);
    NewDocumentRows(t, t1, w.scope, doc, w.occurredAt);
    NotReversedByDrawing(t, t1, w, r);
    WriteOffReversalSucceedsIff(t1, r);
    WriteOffReversalGivesBackAll(t1, r);
    ReverseWriteOffKeepsInv(t1, r);
    WriteOffReversalWrites(t1, r);
    AllBatchesBack(t, t1, ReverseWriteOff(t1, r).value, w.scope, doc, w.occurredAt);
  }
}
