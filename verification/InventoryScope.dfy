/**
 Why reversals must name the scope their rows were booked in: the batch is found through the row, the
 balance through the command.
 */
module InventoryScope {
  import opened Wrappers
  import opened Sequences
  import opened InventoryTables
  import opened InventoryInvariant
  import opened InventoryIssue
  import opened InventoryIssueProofs
  import opened InventoryWriteOff

  /** How far a balance runs ahead of its batches. */
  function Surplus(t: Tables, k: StockKey): int {
    OnHand(t, k) - Sum(t.batches, RemainingOf(k))
  }

  /** Rows of positive quantity, each on a batch of its own key, and balances no row leaves negative. */
  ghost predicate DrawRows(t: Tables, rows: seq<nat>) {
    forall n :: 0 <= n < |rows| ==>
      && rows[n] < |t.movements|
      && t.movements[rows[n]].quantity > 0
      && t.movements[rows[n]].batch < |t.batches|
      && t.batches[t.movements[rows[n]].batch].key == t.movements[rows[n]].key
  }

  lemma SurplusAfter(t: Tables, t': Tables, m: Movement, scope: Scope, k: StockKey)
    requires m.batch < |t.batches| && t.batches[m.batch].key == m.key && m.quantity > 0 && k.scope == scope
    requires t'.batches == t.batches[m.batch := GiveBack(t.batches[m.batch], m.quantity)]
    requires forall x :: OnHand(t', x) == OnHand(t, x) + (if x == StockKey(scope, m.key.item) then m.quantity else 0)
    ensures Surplus(t', k) >= Surplus(t, k)
    ensures m.key.scope != scope && m.key.item == k.item ==> Surplus(t', k) > Surplus(t, k)
  {
    SumUpdate(t.batches, m.batch, GiveBack(t.batches[m.batch], m.quantity), RemainingOf(k));
  }

  ghost predicate SomeStray(t: Tables, rows: seq<nat>, k: StockKey)
    requires DrawRows(t, rows)
  {
    exists n :: 0 <= n < |rows| && t.movements[rows[n]].key.scope != k.scope && t.movements[rows[n]].key.item == k.item
  }

  lemma {:induction false} ReverseIssueSurplus(t: Tables, cmd: ReverseIssueCommand, rows: seq<nat>, k: StockKey)
    requires DrawRows(t, rows) && ReverseSlices(t, cmd, rows).Ok? && k.scope == cmd.scope
    ensures Surplus(ReverseSlices(t, cmd, rows).value, k) >= Surplus(t, k)
    ensures SomeStray(t, rows, k) ==> Surplus(ReverseSlices(t, cmd, rows).value, k) > Surplus(t, k)
    decreases rows
  {
    if rows != [] {
      var t1 := ReverseSlice(t, cmd, rows[0]).value;
      SurplusAfter(t, t1, t.movements[rows[0]], cmd.scope, k);
      ReverseIssueSurplus(t1, cmd, rows[1..], k);
      if SomeStray(t, rows, k) {
        var n :| 0 <= n < |rows| && t.movements[rows[n]].key.scope != k.scope && t.movements[rows[n]].key.item == k.item;
        if n > 0 {
          assert rows[1..][n - 1] == rows[n];
          assert SomeStray(t1, rows[1..], k);
        }
      }
    }
  }

  lemma {:induction false} ReverseWriteOffSurplus(t: Tables, cmd: ReverseWriteOffCommand, rows: seq<nat>, k: StockKey)
    requires DrawRows(t, rows) && ReverseWriteOffSlices(t, cmd, rows).Ok? && k.scope == cmd.scope
    ensures Surplus(ReverseWriteOffSlices(t, cmd, rows).value, k) >= Surplus(t, k)
    ensures SomeStray(t, rows, k) ==> Surplus(ReverseWriteOffSlices(t, cmd, rows).value, k) > Surplus(t, k)
    decreases rows
  {
    if rows != [] {
      var t1 := ReverseWriteOffSlice(t, cmd, rows[0]).value;
      SurplusAfter(t, t1, t.movements[rows[0]], cmd.scope, k);
      ReverseWriteOffSurplus(t1, cmd, rows[1..], k);
      if SomeStray(t, rows, k) {
        var n :| 0 <= n < |rows| && t.movements[rows[n]].key.scope != k.scope && t.movements[rows[n]].key.item == k.item;
        if n > 0 {
          assert rows[1..][n - 1] == rows[n];
          assert SomeStray(t1, rows[1..], k);
        }
      }
    }
  }

  lemma SurplusDisagrees(t: Tables, t': Tables, k: StockKey)
    requires OnHandAgrees(t, k) && Surplus(t', k) > Surplus(t, k)
    ensures !OnHandAgrees(t', k)
  {
  }

  lemma DocumentRows(t: Tables, org: nat, sourceType: SourceType, document: nat, kind: MovementType)
    requires StockInv(t) && (kind == Issue || kind == WriteOff)
    ensures DrawRows(t, Matching(t.movements, OfDocument(org, sourceType, document, kind)))
  {
    var rows := Matching(t.movements, OfDocument(org, sourceType, document, kind));
    forall n | 0 <= n < |rows|
      ensures t.movements[rows[n]].quantity > 0 && t.movements[rows[n]].batch < |t.batches|
      ensures t.batches[t.movements[rows[n]].batch].key == t.movements[rows[n]].key
    {
      assert rows[n] in rows;
      assert MovementRowOk(t, rows[n]);
    }
  }

  predicate FreshSaleReversal(t: Tables, cmd: ReverseIssueCommand) {
    && IdempotencyKey(cmd.scope.org, SaleIssueReverse, cmd.key) !in t.keys
    && FindFirst(t.movements, OfDocument(cmd.scope.org, Sale, cmd.sale, IssueReversal)).None?
  }

  /** One issued row outside the named scope is given back to an item the ledger never took it from. */
  lemma StrayIssueDisagrees(t: Tables, cmd: ReverseIssueCommand, n: nat)
    requires StockInv(t) && ReverseIssue(t, cmd).Ok? && FreshSaleReversal(t, cmd)
    requires var rows := Matching(t.movements, OfDocument(cmd.scope.org, Sale, cmd.sale, Issue));
      n < |rows| && t.movements[rows[n]].key.scope != cmd.scope
    ensures exists k :: !OnHandAgrees(ReverseIssue(t, cmd).value, k)
  {
    var rows := Matching(t.movements, OfDocument(cmd.scope.org, Sale, cmd.sale, Issue));
    var k := StockKey(cmd.scope, t.movements[rows[n]].key.item);
    DocumentRows(t, cmd.scope.org, Sale, cmd.sale, Issue);
    assert SomeStray(t, rows, k);
    ReverseIssueSurplus(t, cmd, rows, k);
    assert OnHandAgrees(t, k);
    SurplusDisagrees(t, ReverseIssue(t, cmd).value, k);
  }

  /** A fresh sale reversal keeps on-hand stock in agreement exactly when it names the scope of every issue. */
  lemma SaleReversalAgreesIffInScope(t: Tables, cmd: ReverseIssueCommand)
    requires Inv(t) && ReverseIssue(t, cmd).Ok? && FreshSaleReversal(t, cmd)
    ensures (forall k :: OnHandAgrees(ReverseIssue(t, cmd).value, k)) <==> ReverseIssueAddressed(t, cmd)
  {
    if ReverseIssueAddressed(t, cmd) {
      ReverseIssueKeepsInv(t, cmd);
    } else {
      var rows := Matching(t.movements, OfDocument(cmd.scope.org, Sale, cmd.sale, Issue));
      var n :| 0 <= n < |rows| && t.movements[rows[n]].key.scope != cmd.scope;
      StrayIssueDisagrees(t, cmd, n);
    }
  }

  /** One written-off row outside the named scope is given back to an item the ledger never took it from. */
  lemma StrayWriteOffDisagrees(t: Tables, cmd: ReverseWriteOffCommand, n: nat)
    requires StockInv(t) && ReverseWriteOff(t, cmd).Ok?
    requires IdempotencyKey(cmd.scope.org, InventoryTables.PostingScope.WriteOffReverse, cmd.key) !in t.keys
    requires var rows := Matching(t.movements, OfDocument(cmd.scope.org, WriteOffItem, cmd.writeOff, WriteOff));
      n < |rows| && t.movements[rows[n]].key.scope != cmd.scope
    ensures exists k :: !OnHandAgrees(ReverseWriteOff(t, cmd).value, k)
  {
    var rows := Matching(t.movements, OfDocument(cmd.scope.org, WriteOffItem, cmd.writeOff, WriteOff));
    var k := StockKey(cmd.scope, t.movements[rows[n]].key.item);
    DocumentRows(t, cmd.scope.org, WriteOffItem, cmd.writeOff, WriteOff);
    assert SomeStray(t, rows, k);
    ReverseWriteOffSurplus(t, cmd, rows, k);
    assert OnHandAgrees(t, k);
    SurplusDisagrees(t, ReverseWriteOff(t, cmd).value, k);
  }

  /** The same for a fresh write-off reversal. */
  lemma WriteOffReversalAgreesIffInScope(t: Tables, cmd: ReverseWriteOffCommand)
    requires Inv(t) && ReverseWriteOff(t, cmd).Ok?
    requires IdempotencyKey(cmd.scope.org, InventoryTables.PostingScope.WriteOffReverse, cmd.key) !in t.keys
    ensures (forall k :: OnHandAgrees(ReverseWriteOff(t, cmd).value, k)) <==> ReverseWriteOffAddressed(t, cmd)
  {
    if ReverseWriteOffAddressed(t, cmd) {
      ReverseWriteOffKeepsInv(t, cmd);
    } else {
      var rows := Matching(t.movements, OfDocument(cmd.scope.org, WriteOffItem, cmd.writeOff, WriteOff));
      var n :| 0 <= n < |rows| && t.movements[rows[n]].key.scope != cmd.scope;
      StrayWriteOffDisagrees(t, cmd, n);
    }
  }
}
