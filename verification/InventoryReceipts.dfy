/** What a posting, a correction and a reversal of a goods receipt write, and when each of them goes through. */
module InventoryReceipts {
  import opened Wrappers
  import opened Sequences
  import opened InventoryTables
  import opened InventoryInvariant
  import opened InventoryPosting
  import opened InventoryUndo

  // ------------------------------------------------------------------ post

  /** The lines anything was accepted of. */
  function Accepted(lines: seq<ReceiptLine>): seq<ReceiptLine> {
    if lines == [] then [] else (if lines[0].acceptedQuantity > 0 then [lines[0]] else []) + Accepted(lines[1..])
  }

  /** Flowers with a shelf life expire so many days after they came in; nothing else does. */
  predicate ExpiresAsBought(line: ReceiptLine, expiresAt: Option<int>) {
    match (line.itemType, line.shelfLifeDays)
    case (Flower, Some(days)) =>
      if days == 0 then expiresAt.None? else expiresAt == Some(line.receivedAt + days * 24 * 60 * 60 * 1000)
    case _ => expiresAt.None?
  }

  predicate BatchOfLine(cmd: PostCommand, line: ReceiptLine, b: Batch) {
    && b.key.scope == cmd.scope && b.key.item == line.item && b.receiptLine == line.receiptLine
    && b.receivedAt == line.receivedAt && ExpiresAsBought(line, b.expiresAt)
    && b.initial == b.remaining == line.acceptedQuantity && b.unitCost == line.actualUnitPrice && b.status.ActiveBatch?
  }

  predicate ReceiptOfLine(cmd: PostCommand, line: ReceiptLine, batch: nat, m: Movement) {
    && m.key.scope == cmd.scope && m.key.item == line.item && m.batch == batch && m.kind.Receipt?
    && m.quantity == line.acceptedQuantity && m.unitCost == line.actualUnitPrice
    && m.sourceType.GoodsReceiptItem? && m.document == cmd.goodsReceipt && m.sourceItem == Given(line.receiptLine)
    && m.reversalOf.None? && m.occurredAt == line.receivedAt
  }

  /** One batch and one RECEIPT for each accepted line, in their order, behind what was there. */
  ghost predicate Posted(t: Tables, t': Tables, cmd: PostCommand, lines: seq<ReceiptLine>) {
    && t.batches <= t'.batches && t.movements <= t'.movements && t'.reservations == t.reservations
    && |t'.batches| == |t.batches| + |lines| && |t'.movements| == |t.movements| + |lines|
    && forall n :: 0 <= n < |lines| ==>
         && BatchOfLine(cmd, lines[n], t'.batches[|t.batches| + n])
         && ReceiptOfLine(cmd, lines[n], |t.batches| + n, t'.movements[|t.movements| + n])
  }

  lemma OneLinePosted(t: Tables, cmd: PostCommand, line: ReceiptLine)
    requires PostLine(t, cmd, line).Ok?
    ensures Posted(t, PostLine(t, cmd, line).value, cmd, if line.acceptedQuantity > 0 then [line] else [])
  {
  }

  lemma PostedThen(t: Tables, t1: Tables, t2: Tables, cmd: PostCommand, a: seq<ReceiptLine>, b: seq<ReceiptLine>)
    requires Posted(t, t1, cmd, a) && Posted(t1, t2, cmd, b)
    ensures Posted(t, t2, cmd, a + b)
  {
    forall n | 0 <= n < |a + b|
      ensures BatchOfLine(cmd, (a + b)[n], t2.batches[|t.batches| + n])
      ensures ReceiptOfLine(cmd, (a + b)[n], |t.batches| + n, t2.movements[|t.movements| + n])
    {
      if n < |a| {
        assert t2.batches[|t.batches| + n] == t1.batches[|t.batches| + n];
        assert t2.movements[|t.movements| + n] == t1.movements[|t.movements| + n];
      } else {
        assert |t.batches| + n == |t1.batches| + (n - |a|) && |t.movements| + n == |t1.movements| + (n - |a|);
      }
    }
  }

  lemma {:induction false} LinesPosted(t: Tables, cmd: PostCommand, lines: seq<ReceiptLine>)
    requires PostLines(t, cmd, lines).Ok?
    ensures Posted(t, PostLines(t, cmd, lines).value, cmd, Accepted(lines))
    decreases lines
  {
    if lines != [] {
      hide Posted;
      var t1 := PostLine(t, cmd, lines[0]).value;
      OneLinePosted(t, cmd, lines[0]);
      LinesPosted(t1, cmd, lines[1..]);
      PostedThen(t, t1, PostLines(t, cmd, lines).value, cmd, if lines[0].acceptedQuantity > 0 then [lines[0]] else [], Accepted(lines[1..]));
    }
  }

  predicate FreshPosting(t: Tables, cmd: PostCommand) {
    cmd.key == None || cmd.key == Some("") || IdempotencyKey(cmd.scope.org, GoodsReceiptPost, cmd.key.value) !in t.keys
  }

  /** A posting under a fresh key writes its accepted lines, with their prices, dates and expiries, and nothing else. */
  lemma PostingWritesItsLines(t: Tables, cmd: PostCommand)
    requires PostGoodsReceipt(t, cmd).Ok? && FreshPosting(t, cmd)
    ensures Posted(t, PostGoodsReceipt(t, cmd).value, cmd, Accepted(cmd.lines))
  {
    hide PostLines, Accepted, Posted;
    var t1 := ClaimKey(t, cmd.scope.org, GoodsReceiptPost, cmd.key, cmd.goodsReceipt).tables;
    LinesPosted(t1, cmd, cmd.lines);
    PostedOnSameTables(t, t1, PostLines(t1, cmd, cmd.lines).value, cmd, Accepted(cmd.lines));
  }

  lemma PostedOnSameTables(t: Tables, t1: Tables, t': Tables, cmd: PostCommand, lines: seq<ReceiptLine>)
    requires t1 == t.(keys := t1.keys) && Posted(t1, t', cmd, lines)
    ensures Posted(t, t', cmd, lines)
  {
  }

  predicate LineStored(t: Tables, line: nat) {
    exists i :: 0 <= i < |t.batches| && t.batches[i].receiptLine == line
  }

  /** Accepted lines are new, and each is named once. */
  predicate NewLines(t: Tables, lines: seq<ReceiptLine>) {
    && (forall n :: 0 <= n < |lines| && lines[n].acceptedQuantity > 0 ==> !LineStored(t, lines[n].receiptLine))
    && (forall a, b :: 0 <= a < b < |lines| && lines[a].acceptedQuantity > 0 && lines[b].acceptedQuantity > 0 ==>
          lines[a].receiptLine != lines[b].receiptLine)
  }

  /** With every receipt on its own line's batch, a line without a batch has no receipt. */
  lemma NoBatchNoReceipt(t: Tables, line: nat)
    requires LedgerInv(t) && !LineStored(t, line)
    ensures forall j :: 0 <= j < |t.movements| && t.movements[j].kind.Receipt? ==> t.movements[j].sourceItem != Given(line)
  {
    forall j | 0 <= j < |t.movements| && t.movements[j].kind.Receipt? ensures t.movements[j].sourceItem != Given(line) {
      assert LedgerRowOk(t, j);
      assert t.batches[t.movements[j].batch].receiptLine != line;
    }
  }

  lemma LinePostsIff(t: Tables, cmd: PostCommand, line: ReceiptLine)
    requires LedgerInv(t) && BalanceInv(t)
    ensures PostLine(t, cmd, line).Ok? <==> (line.acceptedQuantity > 0 ==> !LineStored(t, line.receiptLine))
  {
    if line.acceptedQuantity > 0 && !LineStored(t, line.receiptLine) {
      NoBatchNoReceipt(t, line.receiptLine);
      assert FindFirst(t.movements, ReceiptFor(cmd.scope.org, line.receiptLine)).None?;
      var t1 := AddBatch(t, NewBatch(cmd, line)).value;
      assert AddMovement(t1, ReceiptMovement(cmd, line, |t.batches|)).Ok?;
    }
  }

  lemma StoredAfterLine(t: Tables, cmd: PostCommand, line: ReceiptLine, other: nat)
    requires PostLine(t, cmd, line).Ok?
    ensures LineStored(PostLine(t, cmd, line).value, other)
      <==> LineStored(t, other) || (line.acceptedQuantity > 0 && line.receiptLine == other)
  {
    hide PostLine;
    OneLinePosted(t, cmd, line);
    var t' := PostLine(t, cmd, line).value;
    if LineStored(t, other) {
      var i :| 0 <= i < |t.batches| && t.batches[i].receiptLine == other;
      assert t'.batches[i] == t.batches[i];
    }
    if line.acceptedQuantity > 0 {
      assert BatchOfLine(cmd, [line][0], t'.batches[|t.batches| + 0]);
    }
    if LineStored(t', other) {
      var i :| 0 <= i < |t'.batches| && t'.batches[i].receiptLine == other;
      assert i < |t.batches| ==> t.batches[i] == t'.batches[i];
    }
  }

  lemma {:induction false} LinesPostIff(t: Tables, cmd: PostCommand, lines: seq<ReceiptLine>)
    requires Inv(t)
    ensures PostLines(t, cmd, lines).Ok? <==> NewLines(t, lines)
    decreases lines
  {
    if lines != [] {
      LinePostsIff(t, cmd, lines[0]);
      if PostLine(t, cmd, lines[0]).Ok? {
        PostLineKeepsInv(t, cmd, lines[0]);
        var t1 := PostLine(t, cmd, lines[0]).value;
        LinesPostIff(t1, cmd, lines[1..]);
        NewLinesCons(t, t1, cmd, lines);
      }
    }
  }

  lemma NewLinesCons(t: Tables, t1: Tables, cmd: PostCommand, lines: seq<ReceiptLine>)
    requires lines != [] && PostLine(t, cmd, lines[0]) == Ok(t1)
    requires lines[0].acceptedQuantity > 0 ==> !LineStored(t, lines[0].receiptLine)
    ensures NewLines(t1, lines[1..]) <==> NewLines(t, lines)
  {
    hide PostLine, LineStored;
    forall n | 0 <= n < |lines[1..]|
      ensures lines[1..][n] == lines[n + 1]
      ensures LineStored(t1, lines[n + 1].receiptLine)
        <==> LineStored(t, lines[n + 1].receiptLine)
             || (lines[0].acceptedQuantity > 0 && lines[0].receiptLine == lines[n + 1].receiptLine)
    {
      StoredAfterLine(t, cmd, lines[0], lines[n + 1].receiptLine);
    }
    if NewLines(t1, lines[1..]) {
      forall n | 0 <= n < |lines| && lines[n].acceptedQuantity > 0 ensures !LineStored(t, lines[n].receiptLine) {
        if n > 0 { assert lines[1..][n - 1] == lines[n]; }
      }
      forall a, b | 0 <= a < b < |lines| && lines[a].acceptedQuantity > 0 && lines[b].acceptedQuantity > 0
        ensures lines[a].receiptLine != lines[b].receiptLine
      {
        assert lines[1..][b - 1] == lines[b];
        if a > 0 { assert lines[1..][a - 1] == lines[a]; }
      }
    }
  }

  /** A posting under a fresh key commits exactly when no accepted line has been posted before or is named twice. */
  lemma PostingSucceedsIff(t: Tables, cmd: PostCommand)
    requires Inv(t) && FreshPosting(t, cmd)
    ensures PostGoodsReceipt(t, cmd).Ok? <==> NewLines(t, cmd.lines)
  {
    var t1 := ClaimKey(t, cmd.scope.org, GoodsReceiptPost, cmd.key, cmd.goodsReceipt).tables;
    InvIgnoresKeys(t, t1.keys);
    LinesPostIff(t1, cmd, cmd.lines);
    assert forall line :: LineStored(t1, line) <==> LineStored(t, line);
  }

  // ------------------------------------------------------------- correction

  /** The one batch a correction is for. */
  predicate IsBatchOf(t: Tables, a: AdjustCommand, i: nat) {
    i < |t.batches| && t.batches[i].key.scope == a.scope && t.batches[i].receiptLine == a.receiptLine
  }

  lemma CorrectionFinds(t: Tables, a: AdjustCommand, i: nat)
    requires LedgerInv(t) && IsBatchOf(t, a, i)
    ensures FindFirst(t.batches, Corrected(a)) == Some(i)
  {
    assert Corrected(a)(t.batches[i]);
  }

  lemma CorrectionFindsNothing(t: Tables, a: AdjustCommand)
    requires forall i: nat :: !IsBatchOf(t, a, i)
    ensures FindFirst(t.batches, Corrected(a)).None?
  {
    forall i | 0 <= i < |t.batches| ensures !Corrected(a)(t.batches[i]) {
      assert !IsBatchOf(t, a, i);
    }
  }

  /** The balance it names can take the difference. */
  predicate BalanceTakes(t: Tables, k: StockKey, delta: int) {
    if k in t.balances then Reserved(t, k) <= OnHand(t, k) + delta else delta >= 0
  }

  /** A correction commits exactly when its batch is there, not reversed, keeps what was drawn, and the balance allows. */
  lemma CorrectionSucceedsIff(t: Tables, a: AdjustCommand)
    requires LedgerInv(t) && BalanceInv(t)
    ensures AdjustGoodsReceiptItem(t, a).Ok?
      <==> && a.acceptedQuantity > 0 && a.actualUnitPrice >= 0
           && exists i: nat :: IsBatchOf(t, a, i) && !t.batches[i].status.ReversedBatch?
                && a.acceptedQuantity >= t.batches[i].initial - t.batches[i].remaining
                && (a.acceptedQuantity == t.batches[i].initial
                    || BalanceTakes(t, StockKey(a.scope, a.item), a.acceptedQuantity - t.batches[i].initial))
  {
    if i: nat :| IsBatchOf(t, a, i) {
      CorrectionFinds(t, a, i);
      forall x: nat | IsBatchOf(t, a, x) ensures x == i {
        CorrectionFinds(t, a, x);
      }
      CorrectionOfFound(t, a, i);
    } else {
      CorrectionFindsNothing(t, a);
    }
  }

  lemma CorrectionOfFound(t: Tables, a: AdjustCommand, i: nat)
    requires LedgerInv(t) && BalanceInv(t) && i < |t.batches| && FindFirst(t.batches, Corrected(a)) == Some(i)
    ensures AdjustGoodsReceiptItem(t, a).Ok?
      <==> && a.acceptedQuantity > 0 && a.actualUnitPrice >= 0 && !t.batches[i].status.ReversedBatch?
           && a.acceptedQuantity >= t.batches[i].initial - t.batches[i].remaining
           && (a.acceptedQuantity == t.batches[i].initial
               || BalanceTakes(t, StockKey(a.scope, a.item), a.acceptedQuantity - t.batches[i].initial))
  {
    assert BatchShapeOk(t.batches[i]);
    var m := CorrectionMovement(t, a, i, a.acceptedQuantity - t.batches[i].initial);
    MintedIsFree(t, m);
  }

  /** An identifier just drawn is no movement's source yet. */
  lemma MintedIsFree(t: Tables, m: Movement)
    requires LedgerInv(t) && m.sourceItem == Minted(|t.movements|)
    ensures SourceFree(t.movements, m)
  {
    forall j | 0 <= j < |t.movements| ensures !SameSource(t.movements[j], m) {
      assert LedgerRowOk(t, j);
    }
  }

  /** What a committed correction leaves of its batch. */
  predicate CorrectedAs(a: AdjustCommand, b: Batch, b': Batch) {
    && b'.initial == a.acceptedQuantity && b'.remaining == b.remaining + (a.acceptedQuantity - b.initial)
    && b'.unitCost == a.actualUnitPrice
    && (if b'.remaining > 0 then b'.status.ActiveBatch? else b'.status.DepletedBatch?)
    && b'.key == b.key && b'.receiptLine == b.receiptLine && b'.receivedAt == b.receivedAt && b'.expiresAt == b.expiresAt
  }

  predicate CorrectionRow(a: AdjustCommand, i: nat, delta: int, m: Movement) {
    && m.key.scope == a.scope && m.key.item == a.item && m.batch == i
    && (if delta > 0 then m.kind.CountAdjustmentIn? && m.quantity == delta else m.kind.CountAdjustmentOut? && m.quantity == -delta)
    && m.unitCost == a.actualUnitPrice && m.sourceType.GoodsReceiptItem? && m.document == a.goodsReceipt
    && m.reversalOf.None? && m.occurredAt == a.occurredAt
  }

  /**
   A committed correction gives its batch the accepted quantity and the price named, keeps what was drawn from
   it, and books the difference, if there is one, as one movement and on the balance of the item it names.
   */
  lemma CorrectionWrites(t: Tables, a: AdjustCommand, i: nat)
    requires LedgerInv(t) && BalanceInv(t) && AdjustGoodsReceiptItem(t, a).Ok? && IsBatchOf(t, a, i)
    ensures var t' := AdjustGoodsReceiptItem(t, a).value; var delta := a.acceptedQuantity - t.batches[i].initial;
      && |t'.batches| == |t.batches| && CorrectedAs(a, t.batches[i], t'.batches[i])
      && (forall x :: 0 <= x < |t.batches| && x != i ==> t'.batches[x] == t.batches[x])
      && (if delta == 0 then t'.movements == t.movements
          else && |t'.movements| == |t.movements| + 1 && t.movements <= t'.movements
               && CorrectionRow(a, i, delta, t'.movements[|t.movements|]))
      && (forall k :: OnHand(t', k) == OnHand(t, k) + (if k == StockKey(a.scope, a.item) then delta else 0))
      && (forall k :: Reserved(t', k) == Reserved(t, k)) && t'.reservations == t.reservations && t'.keys == t.keys
  {
    CorrectionFinds(t, a, i);
  }

  // --------------------------------------------------------------- reversal

  /** What a reversal takes out of a key: the whole initial quantity of each batch it names. */
  function TakenBack(cmd: ReverseCommand, k: StockKey): Batch -> int {
    (b: Batch) => if b.key.scope == cmd.scope && b.receiptLine in cmd.receiptLines && b.key == k then b.initial else 0
  }

  /** Nothing has been drawn from any batch it names, and none has been reversed. */
  predicate NothingDrawn(t: Tables, cmd: ReverseCommand) {
    forall i :: 0 <= i < |t.batches| && t.batches[i].key.scope == cmd.scope && t.batches[i].receiptLine in cmd.receiptLines ==>
      t.batches[i].remaining == t.batches[i].initial
  }

  lemma ReceiptOfBatchExists(t: Tables, i: nat, org: nat)
    requires LedgerInv(t) && i < |t.batches| && t.batches[i].key.scope.org == org
    ensures FindFirst(t.movements, ReceiptOfBatch(org, i)).Some?
  {
    assert BatchHistoryOk(t, i);
    if forall m :: m in t.movements ==> CountOnBatch(Receipt, i)(m) == 0 {
      SumZero(t.movements, CountOnBatch(Receipt, i));
    } else {
      var m :| m in t.movements && CountOnBatch(Receipt, i)(m) != 0;
      var j :| 0 <= j < |t.movements| && t.movements[j] == m;
      assert LedgerRowOk(t, j);
      assert ReceiptOfBatch(org, i)(t.movements[j]);
    }
  }

  lemma {:induction false} CountedIsPositive(ms: seq<Movement>, kind: MovementType, i: nat, j: nat)
    requires j < |ms| && ms[j].kind == kind && ms[j].batch == i
    ensures Sum(ms, CountOnBatch(kind, i)) >= 1
  {
    SumNonNegative(ms, CountOnBatch(kind, i));
    assert CountOnBatch(kind, i)(ms[j]) == 1;
  }

  /** A batch that is not reversed has no reversal of its line. */
  lemma NoReversalOfLine(t: Tables, i: nat)
    requires LedgerInv(t) && i < |t.batches| && !t.batches[i].status.ReversedBatch?
    ensures forall j :: 0 <= j < |t.movements| && t.movements[j].kind.ReceiptReversal? ==>
      t.movements[j].sourceItem != Given(t.batches[i].receiptLine)
  {
    assert BatchHistoryOk(t, i);
    forall j | 0 <= j < |t.movements| && t.movements[j].kind.ReceiptReversal?
      ensures t.movements[j].sourceItem != Given(t.batches[i].receiptLine)
    {
      assert LedgerRowOk(t, j);
      if t.movements[j].batch == i {
        CountedIsPositive(t.movements, ReceiptReversal, i, j);
      }
    }
  }

  lemma BatchReversesIff(t: Tables, cmd: ReverseCommand, i: nat)
    requires Inv(t) && i < |t.batches| && t.batches[i].key.scope == cmd.scope
    ensures var b := t.batches[i];
      ReverseBatch(t, cmd, i).Ok? <==> b.remaining == b.initial <= OnHand(t, b.key) - Reserved(t, b.key)
  {
    var b := t.batches[i];
    assert BatchShapeOk(b);
    if b.remaining == b.initial {
      ReceiptOfBatchExists(t, i, cmd.scope.org);
      NoReversalOfLine(t, i);
      assert FindFirst(t.movements, ReversalFor(cmd.scope.org, b.receiptLine)).None?;
    }
  }

  /** Rows of one receipt's batches. */
  ghost predicate BatchRows(t: Tables, cmd: ReverseCommand, rows: seq<nat>) {
    && InTable(t.batches, rows)
    && (forall n :: 0 <= n < |rows| ==> InReceipt(cmd)(t.batches[rows[n]]))
    && (forall a, b :: 0 <= a < b < |rows| ==> rows[a] < rows[b])
  }

  /** What is left after one batch is taken back: the others as they were, and its balance that much lower. */
  lemma AfterOneBatch(t: Tables, cmd: ReverseCommand, i: nat, k: StockKey)
    requires Inv(t) && i < |t.batches| && t.batches[i].key.scope == cmd.scope && ReverseBatch(t, cmd, i).Ok?
    ensures var t' := ReverseBatch(t, cmd, i).value;
      && Inv(t') && |t'.batches| == |t.batches|
      && (forall x :: 0 <= x < |t.batches| && x != i ==> t'.batches[x] == t.batches[x])
      && OnHand(t', k) == OnHand(t, k) - (if k == t.batches[i].key then t.batches[i].initial else 0)
      && Reserved(t', k) == Reserved(t, k)
  {
    ReverseBatchKeepsInv(t, cmd, i);
    AdjustBalanceEffect(t, t.batches[i].key, -t.batches[i].initial);
  }

  lemma {:induction false} SumRowsSame(s: seq<Batch>, u: seq<Batch>, rows: seq<nat>, f: Batch -> int)
    requires InTable(s, rows) && InTable(u, rows) && forall n :: 0 <= n < |rows| ==> s[rows[n]] == u[rows[n]]
    ensures SumRows(s, rows, f) == SumRows(u, rows, f)
    decreases rows
  {
    if rows != [] {
      SumRowsSame(s, u, rows[1..], f);
    }
  }

  lemma {:induction false} SumRowsNatural(s: seq<Batch>, rows: seq<nat>, f: Batch -> int)
    requires InTable(s, rows) && forall n :: 0 <= n < |rows| ==> f(s[rows[n]]) >= 0
    ensures SumRows(s, rows, f) >= 0
    decreases rows
  {
    if rows != [] {
      SumRowsNatural(s, rows[1..], f);
    }
  }

  ghost predicate RowsWhole(t: Tables, rows: seq<nat>)
    requires InTable(t.batches, rows)
  {
    forall n :: 0 <= n < |rows| ==> t.batches[rows[n]].remaining == t.batches[rows[n]].initial
  }

  ghost predicate RowsFit(t: Tables, cmd: ReverseCommand, rows: seq<nat>)
    requires InTable(t.batches, rows)
  {
    forall k :: SumRows(t.batches, rows, TakenBack(cmd, k)) <= OnHand(t, k) - Reserved(t, k)
  }

  lemma RestFits(t: Tables, t1: Tables, cmd: ReverseCommand, rows: seq<nat>)
    requires Inv(t) && BatchRows(t, cmd, rows) && rows != []
    requires ReverseBatch(t, cmd, rows[0]) == Ok(t1)
    ensures InTable(t1.batches, rows[1..])
    ensures BatchRows(t1, cmd, rows[1..])
    ensures RowsFit(t1, cmd, rows[1..]) <==> RowsFit(t, cmd, rows)
    ensures RowsWhole(t1, rows[1..]) && t.batches[rows[0]].remaining == t.batches[rows[0]].initial <==> RowsWhole(t, rows)
  {
    AfterOneBatch(t, cmd, rows[0], t.batches[rows[0]].key);
    forall n | 0 <= n < |rows[1..]| ensures rows[1..][n] < |t.batches| && t1.batches[rows[1..][n]] == t.batches[rows[n + 1]] {
      assert rows[0] < rows[n + 1];
    }
    forall k
      ensures SumRows(t.batches, rows, TakenBack(cmd, k)) - (OnHand(t, k) - Reserved(t, k))
              == SumRows(t1.batches, rows[1..], TakenBack(cmd, k)) - (OnHand(t1, k) - Reserved(t1, k))
    {
      AfterOneBatch(t, cmd, rows[0], k);
      SumRowsSame(t.batches, t1.batches, rows[1..], TakenBack(cmd, k));
    }
    WholeCons(t, t1, rows);
    FitsFollows(t, t1, cmd, rows);
  }

  lemma FitsFollows(t: Tables, t1: Tables, cmd: ReverseCommand, rows: seq<nat>)
    requires rows != [] && InTable(t.batches, rows) && InTable(t1.batches, rows[1..])
    requires forall k :: SumRows(t.batches, rows, TakenBack(cmd, k)) - (OnHand(t, k) - Reserved(t, k))
                      == SumRows(t1.batches, rows[1..], TakenBack(cmd, k)) - (OnHand(t1, k) - Reserved(t1, k))
    ensures RowsFit(t1, cmd, rows[1..]) <==> RowsFit(t, cmd, rows)
  {
    hide OnHand, Reserved, SumRows;
  }

  lemma WholeCons(t: Tables, t1: Tables, rows: seq<nat>)
    requires rows != [] && InTable(t.batches, rows) && InTable(t1.batches, rows[1..])
    requires forall n :: 0 <= n < |rows[1..]| ==> t1.batches[rows[1..][n]] == t.batches[rows[n + 1]]
    ensures RowsWhole(t1, rows[1..]) && t.batches[rows[0]].remaining == t.batches[rows[0]].initial <==> RowsWhole(t, rows)
  {
    if RowsWhole(t1, rows[1..]) && t.batches[rows[0]].remaining == t.batches[rows[0]].initial {
      forall n | 0 <= n < |rows| ensures t.batches[rows[n]].remaining == t.batches[rows[n]].initial {
        if n > 0 { assert t1.batches[rows[1..][n - 1]] == t.batches[rows[n]]; }
      }
    }
    if RowsWhole(t, rows) {
      forall n | 0 <= n < |rows[1..]| ensures t1.batches[rows[1..][n]].remaining == t1.batches[rows[1..][n]].initial {
        assert t1.batches[rows[1..][n]] == t.batches[rows[n + 1]];
      }
    }
  }

  /** The first batch alone needs no more than all of them. */
  lemma FirstFits(t: Tables, cmd: ReverseCommand, rows: seq<nat>)
    requires Inv(t) && BatchRows(t, cmd, rows) && rows != [] && RowsFit(t, cmd, rows)
    ensures var b := t.batches[rows[0]]; b.initial <= OnHand(t, b.key) - Reserved(t, b.key)
  {
    var k := t.batches[rows[0]].key;
    forall n | 0 <= n < |rows[1..]| ensures TakenBack(cmd, k)(t.batches[rows[1..][n]]) >= 0 {
      assert BatchShapeOk(t.batches[rows[n + 1]]);
    }
    SumRowsNatural(t.batches, rows[1..], TakenBack(cmd, k));
    assert InReceipt(cmd)(t.batches[rows[0]]);
  }

  lemma {:induction false} BatchesReverseIff(t: Tables, cmd: ReverseCommand, rows: seq<nat>)
    requires Inv(t) && BatchRows(t, cmd, rows)
    ensures ReverseBatches(t, cmd, rows).Ok? <==> RowsWhole(t, rows) && RowsFit(t, cmd, rows)
    decreases rows
  {
    if rows == [] {
      forall k ensures 0 <= OnHand(t, k) - Reserved(t, k) {
      }
    } else {
      assert InReceipt(cmd)(t.batches[rows[0]]);
      BatchReversesIff(t, cmd, rows[0]);
      if RowsWhole(t, rows) && RowsFit(t, cmd, rows) {
        FirstFits(t, cmd, rows);
      }
      if ReverseBatch(t, cmd, rows[0]).Ok? {
        var t1 := ReverseBatch(t, cmd, rows[0]).value;
        RestFits(t, t1, cmd, rows);
        ReverseBatchKeepsInv(t, cmd, rows[0]);
        BatchesReverseIff(t1, cmd, rows[1..]);
      }
    }
  }

  /**
   A reversal under a fresh key commits exactly when nothing has been drawn from the batches of its lines, none
   of them is reversed, and the balance of each item has that much unreserved.
   */
  lemma ReversalSucceedsIff(t: Tables, cmd: ReverseCommand)
    requires Inv(t) && FreshReversal(t, cmd)
    ensures ReverseGoodsReceipt(t, cmd).Ok?
      <==> NothingDrawn(t, cmd) && forall k :: Sum(t.batches, TakenBack(cmd, k)) <= OnHand(t, k) - Reserved(t, k)
  {
    var t1 := ClaimKey(t, cmd.scope.org, GoodsReceiptReverse, cmd.key, cmd.goodsReceipt).tables;
    InvIgnoresKeys(t, t1.keys);
    var rows := Matching(t1.batches, InReceipt(cmd));
    forall n | 0 <= n < |rows| ensures InReceipt(cmd)(t1.batches[rows[n]]) {
      assert rows[n] in rows;
    }
    BatchesReverseIff(t1, cmd, rows);
    forall k ensures SumRows(t1.batches, rows, TakenBack(cmd, k)) == Sum(t.batches, TakenBack(cmd, k)) {
      SumOfMatching(t1.batches, InReceipt(cmd), TakenBack(cmd, k));
    }
    WholeIsNothingDrawn(t, cmd, rows);
    FitIsSums(t, t1, cmd, rows);
  }

  lemma FitIsSums(t: Tables, t1: Tables, cmd: ReverseCommand, rows: seq<nat>)
    requires t1 == t.(keys := t1.keys) && InTable(t1.batches, rows)
    requires forall k :: SumRows(t1.batches, rows, TakenBack(cmd, k)) == Sum(t.batches, TakenBack(cmd, k))
    ensures RowsFit(t1, cmd, rows) <==> forall k :: Sum(t.batches, TakenBack(cmd, k)) <= OnHand(t, k) - Reserved(t, k)
  {
    hide SumRows, Sum;
    assert forall k :: OnHand(t1, k) == OnHand(t, k) && Reserved(t1, k) == Reserved(t, k);
  }

  lemma WholeIsNothingDrawn(t: Tables, cmd: ReverseCommand, rows: seq<nat>)
    requires rows == Matching(t.batches, InReceipt(cmd))
    ensures InTable(t.batches, rows) && (RowsWhole(t, rows) <==> NothingDrawn(t, cmd))
  {
    if RowsWhole(t, rows) {
      forall i | 0 <= i < |t.batches| && InReceipt(cmd)(t.batches[i]) ensures t.batches[i].remaining == t.batches[i].initial {
        assert i in rows;
        var n :| 0 <= n < |rows| && rows[n] == i;
      }
    }
    if NothingDrawn(t, cmd) {
      forall n | 0 <= n < |rows| ensures t.batches[rows[n]].remaining == t.batches[rows[n]].initial {
        assert rows[n] in rows;
      }
    }
  }

  /** The row that takes a batch back. */
  ghost predicate TakesBack(t: Tables, cmd: ReverseCommand, m: Movement)
    requires m.batch < |t.batches|
  {
    var b := t.batches[m.batch];
    && m.key == b.key && m.kind.ReceiptReversal? && m.quantity == -b.initial && m.unitCost == b.unitCost
    && m.sourceType.GoodsReceiptItem? && m.document == cmd.goodsReceipt && m.sourceItem == Given(b.receiptLine)
    && m.occurredAt == cmd.now
    && m.reversalOf.Some? && m.reversalOf.value < |t.movements|
    && t.movements[m.reversalOf.value].kind.Receipt? && t.movements[m.reversalOf.value].batch == m.batch
  }

  /** One row for each of the batches, in their order, and nothing else in the ledger. */
  ghost predicate TakenBackRows(t: Tables, t': Tables, cmd: ReverseCommand, rows: seq<nat>) {
    && |t'.batches| == |t.batches| && t.movements <= t'.movements && |t'.movements| == |t.movements| + |rows|
    && forall j :: |t.movements| <= j < |t'.movements| ==>
         var m := t'.movements[j];
         m.batch == rows[j - |t.movements|] && m.batch < |t.batches| && TakesBack(t, cmd, m)
  }

  lemma OneBatchTakenBack(t: Tables, cmd: ReverseCommand, i: nat)
    requires i < |t.batches| && t.batches[i].key.scope == cmd.scope && ReverseBatch(t, cmd, i).Ok?
    ensures TakenBackRows(t, ReverseBatch(t, cmd, i).value, cmd, [i])
  {
  }

  lemma TakenBackThen(t: Tables, t1: Tables, t2: Tables, cmd: ReverseCommand, row: nat, rows: seq<nat>)
    requires TakenBackRows(t, t1, cmd, [row]) && TakenBackRows(t1, t2, cmd, rows) && row < |t.batches|
    requires forall n :: 0 <= n < |rows| ==> rows[n] < |t.batches| && t1.batches[rows[n]] == t.batches[rows[n]]
    requires !t1.movements[|t.movements|].kind.Receipt?
    ensures TakenBackRows(t, t2, cmd, [row] + rows)
  {
    forall j | |t.movements| <= j < |t2.movements|
      ensures var m := t2.movements[j];
        m.batch == ([row] + rows)[j - |t.movements|] && m.batch < |t.batches| && TakesBack(t, cmd, m)
    {
      if j < |t1.movements| {
        assert t2.movements[j] == t1.movements[j];
      } else {
        var m := t2.movements[j];
        assert m.batch == rows[j - |t1.movements|] && TakesBack(t1, cmd, m);
        assert t1.batches[rows[j - |t1.movements|]] == t.batches[rows[j - |t1.movements|]];
        assert m.reversalOf.value < |t.movements|;
        assert t1.movements[m.reversalOf.value] == t.movements[m.reversalOf.value];
      }
    }
  }

  lemma {:induction false} BatchesTakenBack(t: Tables, cmd: ReverseCommand, rows: seq<nat>)
    requires BatchRows(t, cmd, rows) && ReverseBatches(t, cmd, rows).Ok?
    ensures TakenBackRows(t, ReverseBatches(t, cmd, rows).value, cmd, rows)
    decreases rows
  {
    if rows != [] {
      var t1 := ReverseBatch(t, cmd, rows[0]).value;
      assert InReceipt(cmd)(t.batches[rows[0]]);
      OneBatchTakenBack(t, cmd, rows[0]);
      OthersUntouched(t, cmd, rows);
      BatchesTakenBack(t1, cmd, rows[1..]);
      TakenBackThen(t, t1, ReverseBatches(t, cmd, rows).value, cmd, rows[0], rows[1..]);
      assert [rows[0]] + rows[1..] == rows;
    }
  }

  lemma OthersUntouched(t: Tables, cmd: ReverseCommand, rows: seq<nat>)
    requires BatchRows(t, cmd, rows) && rows != [] && ReverseBatch(t, cmd, rows[0]).Ok?
    ensures var t1 := ReverseBatch(t, cmd, rows[0]).value;
      && BatchRows(t1, cmd, rows[1..]) && |t1.batches| == |t.batches|
      && (forall n :: 0 <= n < |rows[1..]| ==> rows[1..][n] < |t.batches| && t1.batches[rows[1..][n]] == t.batches[rows[1..][n]])
      && |t1.movements| == |t.movements| + 1 && !t1.movements[|t.movements|].kind.Receipt?
  {
    var t1 := ReverseBatch(t, cmd, rows[0]).value;
    forall n | 0 <= n < |rows[1..]|
      ensures rows[1..][n] < |t.batches| && t1.batches[rows[1..][n]] == t.batches[rows[1..][n]] && InReceipt(cmd)(t1.batches[rows[1..][n]])
    {
      assert rows[1..][n] == rows[n + 1] && rows[0] < rows[n + 1];
    }
  }

  /** A committed reversal writes one row for each batch of its lines, negated, at the batch's cost, pointing to its receipt. */
  lemma ReversalWritesItsRows(t: Tables, cmd: ReverseCommand)
    requires ReverseGoodsReceipt(t, cmd).Ok? && FreshReversal(t, cmd)
    ensures TakenBackRows(t, ReverseGoodsReceipt(t, cmd).value, cmd, Matching(t.batches, InReceipt(cmd)))
  {
    hide ReverseBatches, TakenBackRows;
    var t1 := ClaimKey(t, cmd.scope.org, GoodsReceiptReverse, cmd.key, cmd.goodsReceipt).tables;
    var rows := Matching(t1.batches, InReceipt(cmd));
    forall n | 0 <= n < |rows| ensures InReceipt(cmd)(t1.batches[rows[n]]) {
      assert rows[n] in rows;
    }
    BatchesTakenBack(t1, cmd, rows);
    RowsOfSameTables(t, t1, ReverseBatches(t1, cmd, rows).value, cmd, rows);
  }

  lemma RowsOfSameTables(t: Tables, t1: Tables, t': Tables, cmd: ReverseCommand, rows: seq<nat>)
    requires t1 == t.(keys := t1.keys) && TakenBackRows(t1, t', cmd, rows)
    ensures TakenBackRows(t, t', cmd, rows)
  {
    forall j | |t.movements| <= j < |t'.movements| ensures TakesBack(t, cmd, t'.movements[j]) {
      assert TakesBack(t1, cmd, t'.movements[j]);
    }
  }
}
