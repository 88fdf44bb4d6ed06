/**
 What every committed stock state satisfies, and the two elementary steps (a new batch with its
 receipt, and a movement on an existing batch) that keep it.
 */
module InventoryInvariant {
  import opened Wrappers
  import opened Sequences
  import opened InventoryTables

  /** The kind of movement a reversal points back to. */
  function Reverses(kind: MovementType): MovementType {
    match kind
    case ReceiptReversal => Receipt
    case IssueReversal => Issue
    case WriteOffReversal => WriteOff
    case _ => kind
  }

  /** A reversal names an earlier movement of its batch and source line, and gives back what that one drew. */
  ghost predicate PointsBack(ms: seq<Movement>, m: Movement) {
    IsReversal(m.kind) ==>
      && m.reversalOf.Some? && m.reversalOf.value < |ms|
      && var o := ms[m.reversalOf.value];
      && o.kind == Reverses(m.kind) && o.batch == m.batch
      && o.sourceType == m.sourceType && o.sourceItem == m.sourceItem
      && Drawn(m) == -Drawn(o)
      && (m.kind.IssueReversal? || m.kind.WriteOffReversal? ==> o.document == m.document)
  }

  /** A movement belongs to a batch of its organization, and says truly what it reverses and receives. */
  ghost predicate LedgerRowOk(t: Tables, j: nat)
    requires j < |t.movements|
  {
    var m := t.movements[j];
    && m.batch < |t.batches|
    && m.key.scope.org == t.batches[m.batch].key.scope.org
    && PointsBack(t.movements[..j], m)
    && (if IsReversal(m.kind) then m.quantity < 0 else m.quantity > 0)
    && (m.sourceItem.Minted? ==> m.sourceItem.serial <= j)
    && (m.kind.Receipt? || m.kind.ReceiptReversal? ==>
          m.sourceType.GoodsReceiptItem? && m.sourceItem == Given(t.batches[m.batch].receiptLine))
  }

  /** It is also booked on its batch's item and warehouse, which has a balance. */
  ghost predicate MovementRowOk(t: Tables, j: nat)
    requires j < |t.movements|
  {
    LedgerRowOk(t, j) && t.movements[j].key == t.batches[t.movements[j].batch].key && t.movements[j].key in t.balances
  }

  ghost predicate BatchShapeOk(b: Batch) {
    && BatchQuantitiesValid(b)
    && (b.status.ActiveBatch? <==> b.remaining > 0)
  }

  /** What has been taken from a batch and not given back. */
  function DrawnOf(b: Batch): int {
    if b.status.ReversedBatch? then 0 else b.initial - b.remaining
  }

  function ReversedCount(b: Batch): int {
    if b.status.ReversedBatch? then 1 else 0
  }

  ghost predicate BatchHistoryOk(t: Tables, i: nat)
    requires i < |t.batches|
  {
    var b := t.batches[i];
    && Sum(t.movements, DeltaOnBatch(i)) == b.remaining
    && Sum(t.movements, DrawnFromBatch(i)) == DrawnOf(b)
    && Sum(t.movements, CountOnBatch(Receipt, i)) == 1
    && Sum(t.movements, CountOnBatch(ReceiptReversal, i)) == ReversedCount(b)
  }

  ghost predicate OnHandAgrees(t: Tables, k: StockKey) {
    OnHand(t, k) == Sum(t.batches, RemainingOf(k)) == Sum(t.movements, DeltaOf(k))
  }

  /** Batches and movements alone: what every run keeps, whatever its callers name. */
  ghost predicate LedgerInv(t: Tables) {
    && (forall i :: 0 <= i < |t.batches| ==> BatchShapeOk(t.batches[i]))
    && (forall i :: 0 <= i < |t.batches| ==> BatchHistoryOk(t, i))
    && (forall i, j :: 0 <= i < j < |t.batches| ==> t.batches[i].receiptLine != t.batches[j].receiptLine)
    && (forall j :: 0 <= j < |t.movements| ==> LedgerRowOk(t, j))
    && (forall i, j :: 0 <= i < j < |t.movements| ==> !SameSource(t.movements[i], t.movements[j]))
  }

  /** With the balances. */
  ghost predicate StockInv(t: Tables) {
    && LedgerInv(t)
    && (forall j :: 0 <= j < |t.movements| ==> MovementRowOk(t, j))
    && (forall k :: OnHandAgrees(t, k))
  }

  ghost predicate ReservedAgrees(t: Tables, k: StockKey) {
    Reserved(t, k) == Sum(t.reservations, HeldOf(k))
  }

  ghost predicate ReservationRowOk(t: Tables, r: Reservation) {
    r.batch < |t.batches| && r.key == t.batches[r.batch].key && r.quantity > 0
  }

  ghost predicate HoldRowsOk(t: Tables) {
    forall i :: 0 <= i < |t.reservations| ==> ReservationRowOk(t, t.reservations[i])
  }

  ghost predicate HoldInv(t: Tables) {
    && HoldRowsOk(t)
    && (forall k :: ReservedAgrees(t, k))
  }

  ghost predicate BalanceInv(t: Tables) {
    forall k :: k in t.balances ==>
      var b := t.balances[k];
      b.reserved >= 0 && b.available >= 0 && b.available == b.onHand - b.reserved
  }

  ghost predicate Inv(t: Tables) {
    StockInv(t) && HoldInv(t) && BalanceInv(t)
  }

  lemma EmptyInv()
    ensures Inv(EMPTY)
  {
  }

  // ------------------------------------------------ a movement on a batch

  /** t' has one more movement, m, and batch i has become b. */
  ghost predicate LedgerStep(t: Tables, t': Tables, i: nat, b: Batch, m: Movement) {
    && i < |t.batches|
    && t'.batches == t.batches[i := b]
    && t'.movements == t.movements + [m]
    && b.key == t.batches[i].key && m.key.scope.org == b.key.scope.org
    && b.receiptLine == t.batches[i].receiptLine
    && m.batch == i
  }

  /** The movement is booked on the batch's own key, whose balance has moved with it. */
  ghost predicate StockStep(t: Tables, t': Tables, i: nat, b: Batch, m: Movement) {
    && LedgerStep(t, t', i, b, m)
    && m.key == b.key && m.key in t'.balances && t.balances.Keys <= t'.balances.Keys
    && (forall k :: OnHand(t', k) == OnHand(t, k) + (if k == m.key then Delta(m) else 0))
  }

  /** The bookkeeping of a step: the movement explains exactly the change of the batch. */
  ghost predicate StepExplained(t: Tables, i: nat, b: Batch, m: Movement)
    requires i < |t.batches|
  {
    && BatchShapeOk(b)
    && !m.kind.Receipt?
    && Delta(m) == b.remaining - t.batches[i].remaining
    && Drawn(m) == DrawnOf(b) - DrawnOf(t.batches[i])
    && ReversedCount(b) == ReversedCount(t.batches[i]) + (if m.kind.ReceiptReversal? then 1 else 0)
    && SourceFree(t.movements, m)
    && PointsBack(t.movements, m)
    && (if IsReversal(m.kind) then m.quantity < 0 else m.quantity > 0)
    && (m.sourceItem.Minted? ==> m.sourceItem.serial <= |t.movements|)
    && (m.kind.ReceiptReversal? ==> m.sourceType.GoodsReceiptItem? && m.sourceItem == Given(b.receiptLine))
  }

  lemma StepKeepsHistory(t: Tables, t': Tables, i: nat, b: Batch, m: Movement)
    requires LedgerInv(t) && LedgerStep(t, t', i, b, m) && StepExplained(t, i, b, m)
    ensures forall x :: 0 <= x < |t'.batches| ==> BatchHistoryOk(t', x)
  {
    forall x | 0 <= x < |t'.batches| ensures BatchHistoryOk(t', x) {
      assert BatchHistoryOk(t, x);
      SumAppend(t.movements, m, DeltaOnBatch(x));
      SumAppend(t.movements, m, DrawnFromBatch(x));
      SumAppend(t.movements, m, CountOnBatch(Receipt, x));
      SumAppend(t.movements, m, CountOnBatch(ReceiptReversal, x));
    }
  }

  lemma StepKeepsOnHand(t: Tables, t': Tables, i: nat, b: Batch, m: Movement)
    requires StockInv(t) && StockStep(t, t', i, b, m) && StepExplained(t, i, b, m)
    ensures forall k :: OnHandAgrees(t', k)
  {
    forall k ensures OnHandAgrees(t', k) {
      assert OnHandAgrees(t, k);
      SumUpdate(t.batches, i, b, RemainingOf(k));
      SumAppend(t.movements, m, DeltaOf(k));
    }
  }

  lemma StepKeepsRows(t: Tables, t': Tables, i: nat, b: Batch, m: Movement)
    requires LedgerInv(t) && LedgerStep(t, t', i, b, m) && StepExplained(t, i, b, m)
    ensures forall j :: 0 <= j < |t'.movements| ==> LedgerRowOk(t', j)
    ensures forall x, y :: 0 <= x < y < |t'.movements| ==> !SameSource(t'.movements[x], t'.movements[y])
  {
    forall j | 0 <= j < |t'.movements| ensures LedgerRowOk(t', j) {
      if j < |t.movements| {
        assert LedgerRowOk(t, j);
        assert t'.movements[..j] == t.movements[..j];
      } else {
        assert t'.movements[..j] == t.movements;
      }
    }
  }

  lemma StepKeepsLedger(t: Tables, t': Tables, i: nat, b: Batch, m: Movement)
    requires LedgerInv(t) && LedgerStep(t, t', i, b, m) && StepExplained(t, i, b, m)
    ensures LedgerInv(t')
  {
    StepKeepsHistory(t, t', i, b, m);
    StepKeepsRows(t, t', i, b, m);
  }

  lemma StepKeepsStock(t: Tables, t': Tables, i: nat, b: Batch, m: Movement)
    requires StockInv(t) && StockStep(t, t', i, b, m) && StepExplained(t, i, b, m)
    ensures StockInv(t')
  {
    StepKeepsLedger(t, t', i, b, m);
    StepKeepsOnHand(t, t', i, b, m);
    forall j | 0 <= j < |t'.movements| ensures MovementRowOk(t', j) {
      assert LedgerRowOk(t', j);
      if j < |t.movements| {
        assert MovementRowOk(t, j);
      }
    }
  }

  // ------------------------------------------- steps that move no quantity

  lemma SameLedger(t: Tables, t': Tables)
    requires LedgerInv(t) && t'.batches == t.batches && t'.movements == t.movements
    ensures LedgerInv(t')
  {
    forall i | 0 <= i < |t.batches| ensures BatchHistoryOk(t', i) {
      assert BatchHistoryOk(t, i);
    }
    forall j | 0 <= j < |t.movements| ensures LedgerRowOk(t', j) {
      assert LedgerRowOk(t, j);
    }
  }

  lemma SameStock(t: Tables, t': Tables)
    requires StockInv(t) && t'.batches == t.batches && t'.movements == t.movements
    requires t.balances.Keys <= t'.balances.Keys && forall k :: OnHand(t', k) == OnHand(t, k)
    ensures StockInv(t')
  {
    SameLedger(t, t');
    forall j | 0 <= j < |t.movements| ensures MovementRowOk(t', j) {
      assert MovementRowOk(t, j) && LedgerRowOk(t', j);
    }
    forall k ensures OnHandAgrees(t', k) {
      assert OnHandAgrees(t, k);
    }
  }

  /** A batch whose price or status alone changes. */
  lemma RepricingKeepsLedger(t: Tables, t': Tables, i: nat, b: Batch)
    requires LedgerInv(t) && i < |t.batches|
    requires t'.batches == t.batches[i := b] && t'.movements == t.movements
    requires BatchShapeOk(b) && ReversedCount(b) == ReversedCount(t.batches[i]) == 0
    requires b.key == t.batches[i].key && b.receiptLine == t.batches[i].receiptLine
    requires b.initial == t.batches[i].initial && b.remaining == t.batches[i].remaining
    ensures LedgerInv(t')
  {
    forall x | 0 <= x < |t'.batches| ensures BatchHistoryOk(t', x) {
      assert BatchHistoryOk(t, x);
    }
    forall j | 0 <= j < |t'.movements| ensures LedgerRowOk(t', j) {
      assert LedgerRowOk(t, j);
    }
  }

  // --------------------------------------------- a new batch and its receipt

  ghost predicate ReceiptRow(t: Tables, t': Tables, b: Batch, m: Movement) {
    && t'.batches == t.batches + [b]
    && t'.movements == t.movements + [m]
    && b.status.ActiveBatch? && b.initial == b.remaining == m.quantity > 0
    && (forall i :: 0 <= i < |t.batches| ==> t.batches[i].receiptLine != b.receiptLine)
    && m.key == b.key && m.batch == |t.batches| && m.kind == Receipt
    && m.sourceType.GoodsReceiptItem? && m.sourceItem == Given(b.receiptLine)
    && SourceFree(t.movements, m)
  }

  ghost predicate ReceiptStep(t: Tables, t': Tables, b: Batch, m: Movement) {
    && ReceiptRow(t, t', b, m)
    && m.key in t'.balances && t.balances.Keys <= t'.balances.Keys
    && (forall k :: OnHand(t', k) == OnHand(t, k) + (if k == m.key then Delta(m) else 0))
  }

  lemma NoHistoryYet(t: Tables, f: Movement -> int)
    requires LedgerInv(t)
    requires forall m: Movement :: m.batch != |t.batches| ==> f(m) == 0
    ensures Sum(t.movements, f) == 0
  {
    forall m | m in t.movements ensures f(m) == 0 {
      var j :| 0 <= j < |t.movements| && t.movements[j] == m;
      assert LedgerRowOk(t, j);
    }
    SumZero(t.movements, f);
  }

  lemma ReceiptKeepsHistory(t: Tables, t': Tables, b: Batch, m: Movement)
    requires LedgerInv(t) && ReceiptRow(t, t', b, m)
    ensures forall x :: 0 <= x < |t'.batches| ==> BatchHistoryOk(t', x)
  {
    forall x | 0 <= x < |t'.batches| ensures BatchHistoryOk(t', x) {
      SumAppend(t.movements, m, DeltaOnBatch(x));
      SumAppend(t.movements, m, DrawnFromBatch(x));
      SumAppend(t.movements, m, CountOnBatch(Receipt, x));
      SumAppend(t.movements, m, CountOnBatch(ReceiptReversal, x));
      if x < |t.batches| {
        assert BatchHistoryOk(t, x);
      } else {
        NoHistoryYet(t, DeltaOnBatch(x));
        NoHistoryYet(t, DrawnFromBatch(x));
        NoHistoryYet(t, CountOnBatch(Receipt, x));
        NoHistoryYet(t, CountOnBatch(ReceiptReversal, x));
      }
    }
  }

  lemma ReceiptKeepsLedger(t: Tables, t': Tables, b: Batch, m: Movement)
    requires LedgerInv(t) && ReceiptRow(t, t', b, m)
    ensures LedgerInv(t')
  {
    ReceiptKeepsHistory(t, t', b, m);
    forall j | 0 <= j < |t'.movements| ensures LedgerRowOk(t', j) {
      if j < |t.movements| {
        assert LedgerRowOk(t, j);
        assert t'.movements[..j] == t.movements[..j];
      }
    }
  }

  lemma ReceiptKeepsStock(t: Tables, t': Tables, b: Batch, m: Movement)
    requires StockInv(t) && ReceiptStep(t, t', b, m)
    ensures StockInv(t')
  {
    ReceiptKeepsLedger(t, t', b, m);
    forall k ensures OnHandAgrees(t', k) {
      assert OnHandAgrees(t, k);
      SumAppend(t.batches, b, RemainingOf(k));
      SumAppend(t.movements, m, DeltaOf(k));
    }
    forall j | 0 <= j < |t'.movements| ensures MovementRowOk(t', j) {
      assert LedgerRowOk(t', j);
      if j < |t.movements| {
        assert MovementRowOk(t, j);
      }
    }
  }

  // ---------------------------------------------------------- open draws

  predicate IsDraw(m: Movement) {
    m.kind.Issue? || m.kind.WriteOff?
  }

  /** No reversal among these movements gives the draw in this row back. */
  ghost predicate Open(ms: seq<Movement>, row: nat) {
    forall j :: 0 <= j < |ms| && IsReversal(ms[j].kind) ==> ms[j].reversalOf != Some(row)
  }

  /** The quantities of the chosen rows. */
  function QuantityOfRows(ms: seq<Movement>, rows: set<nat>): int {
    if ms == [] then 0
    else
      var n := |ms| - 1;
      QuantityOfRows(ms[..n], rows) + (if n in rows then Drawn(ms[n]) else 0)
  }

  lemma {:induction false} QuantityOfOneMoreRow(ms: seq<Movement>, rows: set<nat>, row: nat)
    requires row !in rows
    ensures QuantityOfRows(ms, rows + {row}) ==
            QuantityOfRows(ms, rows) + (if row < |ms| then Drawn(ms[row]) else 0)
  {
    if ms != [] {
      QuantityOfOneMoreRow(ms[..|ms| - 1], rows, row);
    }
  }

  ghost predicate History(ms: seq<Movement>) {
    && (forall j :: 0 <= j < |ms| ==> PointsBack(ms[..j], ms[j]))
    && (forall j :: 0 <= j < |ms| ==> if IsReversal(ms[j].kind) then ms[j].quantity < 0 else ms[j].quantity > 0)
    && (forall x, y :: 0 <= x < y < |ms| && ms[x].batch == ms[y].batch ==>
          !(ms[x].kind == ms[y].kind && ms[x].sourceType == ms[y].sourceType && ms[x].sourceItem == ms[y].sourceItem))
  }

  lemma HistoryPrefix(ms: seq<Movement>)
    requires ms != [] && History(ms)
    ensures History(ms[..|ms| - 1])
  {
    var pre := ms[..|ms| - 1];
    forall j | 0 <= j < |pre| ensures PointsBack(pre[..j], pre[j]) {
      assert pre[..j] == ms[..j];
    }
  }

  /** The row a draw reversal points back to is an open draw of the batch until that reversal. */
  lemma ReversedRowWasOpen(ms: seq<Movement>)
    requires ms != [] && History(ms)
    requires var k := ms[|ms| - 1].kind; k.IssueReversal? || k.WriteOffReversal?
    ensures var n := |ms| - 1; var m := ms[n];
      && m.reversalOf.Some? && m.reversalOf.value < n
      && IsDraw(ms[m.reversalOf.value]) && ms[m.reversalOf.value].batch == m.batch
      && Drawn(m) == -Drawn(ms[m.reversalOf.value])
      && Open(ms[..n], m.reversalOf.value)
  {
    var n := |ms| - 1;
    var m := ms[n];
    assert PointsBack(ms[..n], m);
    var r := m.reversalOf.value;
    forall j | 0 <= j < n && IsReversal(ms[j].kind) ensures ms[j].reversalOf != Some(r) {
      assert PointsBack(ms[..j], ms[j]);
    }
  }

  ghost predicate OpenDrawsOf(ms: seq<Movement>, i: nat, rows: set<nat>) {
    forall r :: r in rows && r < |ms| ==> IsDraw(ms[r]) && ms[r].batch == i && Open(ms, r)
  }

  lemma OpenBefore(ms: seq<Movement>, i: nat, rows: set<nat>)
    requires ms != [] && OpenDrawsOf(ms, i, rows)
    ensures OpenDrawsOf(ms[..|ms| - 1], i, rows)
  {
    var pre := ms[..|ms| - 1];
    forall r | r in rows && r < |pre| ensures IsDraw(pre[r]) && pre[r].batch == i && Open(pre, r) {
      assert Open(ms, r);
    }
  }

  /** Whatever else happened, the draws still open on a batch are all counted in what is drawn from it. */
  lemma {:induction false} OpenDrawsAreCounted(ms: seq<Movement>, i: nat, rows: set<nat>)
    requires History(ms) && OpenDrawsOf(ms, i, rows)
    ensures QuantityOfRows(ms, rows) <= Sum(ms, DrawnFromBatch(i))
  {
    if ms != [] {
      var n := |ms| - 1;
      var pre, m := ms[..n], ms[n];
      HistoryPrefix(ms);
      OpenBefore(ms, i, rows);
      if m.batch == i && (m.kind.IssueReversal? || m.kind.WriteOffReversal?) {
        ReversedRowWasOpen(ms);
        var r := m.reversalOf.value;
        assert r !in rows by { assert !Open(ms, r); }
        OpenDrawsAreCounted(pre, i, rows + {r});
        QuantityOfOneMoreRow(pre, rows, r);
      } else {
        OpenDrawsAreCounted(pre, i, rows);
      }
    }
  }

  lemma LedgerHistory(t: Tables)
    requires LedgerInv(t)
    ensures History(t.movements)
  {
    forall j | 0 <= j < |t.movements|
      ensures PointsBack(t.movements[..j], t.movements[j])
      ensures if IsReversal(t.movements[j].kind) then t.movements[j].quantity < 0 else t.movements[j].quantity > 0
    {
      assert LedgerRowOk(t, j);
    }
    forall x, y | 0 <= x < y < |t.movements| && t.movements[x].batch == t.movements[y].batch
      ensures !(t.movements[x].kind == t.movements[y].kind && t.movements[x].sourceType == t.movements[y].sourceType
                && t.movements[x].sourceItem == t.movements[y].sourceItem)
    {
      assert LedgerRowOk(t, x) && LedgerRowOk(t, y);
      assert !SameSource(t.movements[x], t.movements[y]);
    }
  }

  /** A draw nothing has given back is still missing from its batch, so that batch cannot have been reversed. */
  lemma OpenDrawIsMissing(t: Tables, row: nat)
    requires LedgerInv(t) && row < |t.movements| && IsDraw(t.movements[row]) && Open(t.movements, row)
    ensures var m := t.movements[row];
      && m.batch < |t.batches|
      && !t.batches[m.batch].status.ReversedBatch?
      && m.quantity <= t.batches[m.batch].initial - t.batches[m.batch].remaining
  {
    assert LedgerRowOk(t, row);
    var m := t.movements[row];
    LedgerHistory(t);
    OpenDrawsAreCounted(t.movements, m.batch, {row});
    QuantityOfOneMoreRow(t.movements, {}, row);
    NoRows(t.movements);
    assert {} + {row} == {row};
    assert BatchHistoryOk(t, m.batch);
  }

  lemma {:induction false} NoRows(ms: seq<Movement>)
    ensures QuantityOfRows(ms, {}) == 0
  {
    if ms != [] {
      NoRows(ms[..|ms| - 1]);
    }
  }

  // ---------------------------------------------------------- reservations

  /** A step that changes no reservation and no reserved quantity. */
  lemma StepKeepsHolds(t: Tables, t': Tables)
    requires HoldInv(t)
    requires t'.reservations == t.reservations
    requires |t.batches| <= |t'.batches|
    requires forall i :: 0 <= i < |t.batches| ==> t'.batches[i].key == t.batches[i].key
    requires forall k :: Reserved(t', k) == Reserved(t, k)
    ensures HoldInv(t')
  {
    forall i | 0 <= i < |t'.reservations| ensures ReservationRowOk(t', t'.reservations[i]) {
      assert ReservationRowOk(t, t.reservations[i]);
    }
    forall k ensures ReservedAgrees(t', k) {
      assert ReservedAgrees(t, k);
    }
  }

  lemma HeldIsNonNegative(t: Tables, i: nat)
    requires HoldInv(t)
    ensures Sum(t.reservations, HeldOnBatch(i)) >= 0
  {
    forall r | r in t.reservations ensures HeldOnBatch(i)(r) >= 0 {
      var j :| 0 <= j < |t.reservations| && t.reservations[j] == r;
      assert ReservationRowOk(t, t.reservations[j]);
    }
    SumNonNegative(t.reservations, HeldOnBatch(i));
  }
}
