/** Issuing and reversing an issue keep the stock invariant. */
module InventoryIssueProofs {
  import opened Wrappers
  import opened Sequences
  import opened InventoryTables
  import opened InventoryInvariant
  import opened InventoryIssue

  // ---------------------------------------------------------------- slices

  /** A booked slice keeps ledger and balances; only the reserved quantity is left to the caller. */
  lemma BookSliceEffect(t: Tables, cmd: IssueCommand, k: StockKey, i: nat, take: int, reserved: int, source: SourceItem)
    requires StockInv(t) && BalanceInv(t)
    requires i < |t.batches| && t.batches[i].key == k && take > 0
    requires source.Minted? ==> source.serial <= |t.movements|
    requires BookSlice(t, cmd, k, i, take, reserved, source).Ok?
    ensures var t' := BookSlice(t, cmd, k, i, take, reserved, source).value;
      && StockInv(t') && BalanceInv(t')
      && t'.batches == t.batches[i := Take(t.batches[i], take)]
      && t'.movements == t.movements + [SliceMovement(cmd, k, i, t.batches[i], take, source)]
      && t'.reservations == t.reservations
      && (forall x :: Reserved(t', x) == Reserved(t, x) - (if x == k then reserved else 0))
  {
    var b := t.batches[i];
    var m := SliceMovement(cmd, k, i, b, take, source);
    var t' := BookSlice(t, cmd, k, i, take, reserved, source).value;
    StepKeepsStock(t, t', i, Take(b, take), m);
  }

  // ---------------------------------------------------------- reservations

  lemma HoldUpdateKeepsHolds(t: Tables, t': Tables, row: nat, hold: Reservation)
    requires HoldInv(t) && row < |t.reservations|
    requires |t'.batches| == |t.batches|
    requires forall i :: 0 <= i < |t.batches| ==> t'.batches[i].key == t.batches[i].key
    requires t'.reservations == t.reservations[row := hold]
    requires hold.key == t.reservations[row].key && hold.batch == t.reservations[row].batch && hold.quantity > 0
    requires forall k :: Reserved(t', k) == Reserved(t, k) + HeldOf(k)(hold) - HeldOf(k)(t.reservations[row])
    ensures HoldInv(t')
  {
    forall i | 0 <= i < |t'.reservations| ensures ReservationRowOk(t', t'.reservations[i]) {
      assert ReservationRowOk(t, t.reservations[i]);
    }
    forall k ensures ReservedAgrees(t', k) {
      assert ReservedAgrees(t, k);
      SumUpdate(t.reservations, row, hold, HeldOf(k));
    }
  }

  lemma ConsumeHoldKeepsInv(t: Tables, cmd: IssueCommand, k: StockKey, row: nat, remaining: int)
    requires Inv(t) && row < |t.reservations| && t.reservations[row].key == k && t.reservations[row].status.ActiveHold?
    requires ConsumeHold(t, cmd, k, row, remaining).Ok?
    ensures var t' := ConsumeHold(t, cmd, k, row, remaining).value.tables;
      Inv(t') && forall x :: 0 <= x < |t.reservations| && x != row ==> t'.reservations[x] == t.reservations[x]
  {
    var hold := t.reservations[row];
    var take := Min(hold.quantity, remaining);
    assert ReservationRowOk(t, hold);
    if take > 0 {
      BookSliceEffect(t, cmd, k, hold.batch, take, take, Given(row));
      var t' := ConsumeHold(t, cmd, k, row, remaining).value.tables;
      var t1 := BookSlice(t, cmd, k, hold.batch, take, take, Given(row)).value;
      SameStock(t1, t');
      HoldUpdateKeepsHolds(t, t', row, t'.reservations[row]);
    }
  }

  lemma {:induction false} ConsumeHoldsKeepsInv(t: Tables, cmd: IssueCommand, k: StockKey, rows: seq<nat>, remaining: int)
    requires Inv(t)
    requires forall n :: 0 <= n < |rows| ==> rows[n] < |t.reservations|
    requires forall n :: 0 <= n < |rows| ==> t.reservations[rows[n]].key == k && t.reservations[rows[n]].status.ActiveHold?
    requires forall a, b :: 0 <= a < b < |rows| ==> rows[a] < rows[b]
    requires ConsumeHolds(t, cmd, k, rows, remaining).Ok?
    ensures Inv(ConsumeHolds(t, cmd, k, rows, remaining).value.tables)
    decreases rows
  {
    if rows != [] && remaining > 0 {
      ConsumeHoldKeepsInv(t, cmd, k, rows[0], remaining);
      var p := ConsumeHold(t, cmd, k, rows[0], remaining).value;
      ConsumeHoldsKeepsInv(p.tables, cmd, k, rows[1..], p.remaining);
    }
  }

  /** Releasing rows takes exactly their quantities out of every key's held sum. */
  lemma {:induction false} ReleaseRowsSum(rs: seq<Reservation>, p: Reservation -> bool, k: StockKey)
    requires forall r :: p(r) ==> r.status.ActiveHold?
    ensures Sum(ReleaseRows(rs, p), HeldOf(k)) == Sum(rs, HeldOf(k)) - Sum(rs, QuantityOf(p, k))
  {
    if rs != [] {
      var n := |rs| - 1;
      assert ReleaseRows(rs, p)[..n] == ReleaseRows(rs[..n], p);
      ReleaseRowsSum(rs[..n], p, k);
    }
  }

  lemma AdjustReservedEffect(t: Tables, k: StockKey, delta: int)
    requires BalanceInv(t) && AdjustReserved(t, k, delta).Ok?
    requires k in t.balances || delta == 0
    ensures var t' := AdjustReserved(t, k, delta).value;
      && t' == t.(balances := t'.balances) && BalanceInv(t')
      && (forall x :: OnHand(t', x) == OnHand(t, x))
      && (forall x :: Reserved(t', x) == Reserved(t, x) + (if x == k then delta else 0))
  {
  }

  /** A key something is held on has a balance row. */
  lemma HeldKeyHasBalance(t: Tables, p: Reservation -> bool, k: StockKey)
    requires HoldInv(t)
    requires forall r :: p(r) ==> r.status.ActiveHold?
    requires Sum(t.reservations, QuantityOf(p, k)) != 0
    ensures k in t.balances
  {
    if k !in t.balances {
      assert ReservedAgrees(t, k);
      forall r | r in t.reservations ensures HeldOf(k)(r) >= 0 {
        var i :| 0 <= i < |t.reservations| && t.reservations[i] == r;
        assert ReservationRowOk(t, t.reservations[i]);
      }
      SumNonNegative(t.reservations, HeldOf(k));
      forall r | r in t.reservations ensures QuantityOf(p, k)(r) == 0 {
        var i :| 0 <= i < |t.reservations| && t.reservations[i] == r;
        assert ReservationRowOk(t, t.reservations[i]);
        assert HeldOf(k)(t.reservations[i]) <= 0;
      }
      SumZero(t.reservations, QuantityOf(p, k));
    }
  }

  lemma ReleaseExcessKeepsInv(t: Tables, k: StockKey, sources: seq<nat>)
    requires Inv(t) && ReleaseExcess(t, k, sources).Ok?
    ensures Inv(ReleaseExcess(t, k, sources).value)
  {
    var excess := HeldFor(k, sources);
    var total := Sum(t.reservations, QuantityOf(excess, k));
    forall r | r in t.reservations ensures QuantityOf(excess, k)(r) >= 0 {
      var i :| 0 <= i < |t.reservations| && t.reservations[i] == r;
      assert ReservationRowOk(t, t.reservations[i]);
    }
    SumNonNegative(t.reservations, QuantityOf(excess, k));
    if total > 0 { HeldKeyHasBalance(t, excess, k); }
    var t1 := t.(reservations := ReleaseRows(t.reservations, excess));
    var t' := ReleaseExcess(t, k, sources).value;
    if total > 0 { AdjustReservedEffect(t1, k, -total); }
    SameStock(t, t');
    forall x ensures ReservedAgrees(t', x) {
      assert ReservedAgrees(t, x);
      ReleaseRowsSum(t.reservations, excess, x);
      if x != k { SumZero(t.reservations, QuantityOf(excess, x)); }
    }
    forall i | 0 <= i < |t'.reservations| ensures ReservationRowOk(t', t'.reservations[i]) {
      assert ReservationRowOk(t, t.reservations[i]);
    }
  }

  // ------------------------------------------------------------ free stock

  lemma TakeFreeKeepsInv(t: Tables, cmd: IssueCommand, k: StockKey, i: nat, remaining: int)
    requires Inv(t) && i < |t.batches| && t.batches[i].key == k && remaining > 0
    requires TakeFree(t, cmd, k, i, remaining).Ok?
    ensures var t' := TakeFree(t, cmd, k, i, remaining).value.tables;
      Inv(t') && forall x :: 0 <= x < |t.batches| ==> t'.batches[x].key == t.batches[x].key
  {
    var free := FreeOn(t, i);
    if free > 0 {
      var take := Min(free, remaining);
      BookSliceEffect(t, cmd, k, i, take, 0, Minted(|t.movements|));
      StepKeepsHolds(t, TakeFree(t, cmd, k, i, remaining).value.tables);
    }
  }

  lemma {:induction false} TakeFreeStockKeepsInv(t: Tables, cmd: IssueCommand, k: StockKey, order: seq<nat>, remaining: int)
    requires Inv(t)
    requires forall n :: 0 <= n < |order| ==> order[n] < |t.batches|
    requires forall n :: 0 <= n < |order| ==> t.batches[order[n]].key == k
    requires TakeFreeStock(t, cmd, k, order, remaining).Ok?
    ensures Inv(TakeFreeStock(t, cmd, k, order, remaining).value.tables)
    decreases order
  {
    if order != [] && remaining > 0 {
      TakeFreeKeepsInv(t, cmd, k, order[0], remaining);
      var p := TakeFree(t, cmd, k, order[0], remaining).value;
      TakeFreeStockKeepsInv(p.tables, cmd, k, order[1..], p.remaining);
    }
  }

  // ------------------------------------------------------------- the issue

  lemma IssueReservedKeepsInv(t: Tables, cmd: IssueCommand, k: StockKey, line: IssueLine)
    requires Inv(t) && IssueReserved(t, cmd, k, line).Ok?
    ensures Inv(IssueReserved(t, cmd, k, line).value.tables)
  {
    if line.sources != [] {
      var rows := Matching(t.reservations, HeldFor(k, line.sources));
      forall n | 0 <= n < |rows|
        ensures t.reservations[rows[n]].key == k && t.reservations[rows[n]].status.ActiveHold?
      {
        assert rows[n] in rows;
      }
      ConsumeHoldsKeepsInv(t, cmd, k, rows, line.quantity);
      ReleaseExcessKeepsInv(ConsumeHolds(t, cmd, k, rows, line.quantity).value.tables, k, line.sources);
    }
  }

  lemma IssueOneLineKeepsInv(t: Tables, cmd: IssueCommand, line: IssueLine)
    requires Inv(t) && IssueOneLine(t, cmd, line).Ok?
    ensures Inv(IssueOneLine(t, cmd, line).value)
  {
    var k := StockKey(cmd.scope, line.item);
    IssueReservedKeepsInv(t, cmd, k, line);
    var p := IssueReserved(t, cmd, k, line).value;
    if p.remaining > 0 {
      var order := ConsumptionOrder(p.tables, k);
      forall n | 0 <= n < |order| ensures p.tables.batches[order[n]].key == k {
        assert order[n] in order;
      }
      TakeFreeStockKeepsInv(p.tables, cmd, k, order, p.remaining);
    }
  }

  lemma {:induction false} IssueLinesKeepsInv(t: Tables, cmd: IssueCommand, lines: seq<IssueLine>)
    requires Inv(t) && IssueLines(t, cmd, lines).Ok?
    ensures Inv(IssueLines(t, cmd, lines).value)
    decreases lines
  {
    if lines != [] {
      IssueOneLineKeepsInv(t, cmd, lines[0]);
      IssueLinesKeepsInv(IssueOneLine(t, cmd, lines[0]).value, cmd, lines[1..]);
    }
  }

  lemma KeysKeepInv(t: Tables, t': Tables)
    requires Inv(t) && t' == t.(keys := t'.keys)
    ensures Inv(t')
  {
    SameStock(t, t');
    StepKeepsHolds(t, t');
  }

  lemma IssueKeepsInv(t: Tables, cmd: IssueCommand)
    requires Inv(t) && IssueStock(t, cmd).Ok?
    ensures Inv(IssueStock(t, cmd).value)
  {
    var k := IdempotencyKey(cmd.scope.org, cmd.keyScope, cmd.key);
    if k !in t.keys {
      IssueLinesKeepsInv(t, cmd, cmd.lines);
      KeysKeepInv(IssueLines(t, cmd, cmd.lines).value, IssueStock(t, cmd).value);
    }
  }

  // -------------------------------------------------------- reversed issues

  /** The caller's part: the rows compensated were issued in the scope the command names. */
  predicate RowsInScope(t: Tables, scope: Scope, rows: seq<nat>) {
    forall n :: 0 <= n < |rows| ==> rows[n] < |t.movements| && t.movements[rows[n]].key.scope == scope
  }

  predicate ReverseIssueAddressed(t: Tables, cmd: ReverseIssueCommand) {
    RowsInScope(t, cmd.scope, Matching(t.movements, OfDocument(cmd.scope.org, Sale, cmd.sale, Issue)))
  }

  /** A free source line for the compensation means no earlier row has compensated this draw. */
  lemma CompensatedRowIsOpen(t: Tables, row: nat, c: Movement)
    requires LedgerInv(t) && row < |t.movements| && IsDraw(t.movements[row])
    requires c.key.scope.org == t.movements[row].key.scope.org
    requires Reverses(c.kind) == t.movements[row].kind && IsReversal(c.kind)
    requires c.sourceType == t.movements[row].sourceType && c.sourceItem == t.movements[row].sourceItem
    requires SourceFree(t.movements, c)
    ensures Open(t.movements, row)
  {
    forall j | 0 <= j < |t.movements| && IsReversal(t.movements[j].kind)
      ensures t.movements[j].reversalOf != Some(row)
    {
      assert LedgerRowOk(t, j) && LedgerRowOk(t, row);
      assert !SameSource(t.movements[j], c);
    }
  }

  /**
   The adapter checks nothing here: that the batch is not reversed and can take the quantity back follows
   from the ledger, because a batch with something drawn from it is never reversed, and from the unique
   source line, because a second reversal of the same slice is refused.
   */
  lemma ReverseSliceKeepsInv(t: Tables, cmd: ReverseIssueCommand, row: nat)
    requires Inv(t) && row < |t.movements| && t.movements[row].kind.Issue? && t.movements[row].key.scope == cmd.scope
    requires ReverseSlice(t, cmd, row).Ok?
    ensures Inv(ReverseSlice(t, cmd, row).value)
  {
    var m := t.movements[row];
    assert MovementRowOk(t, row);
    var i := m.batch;
    var b := GiveBack(t.batches[i], m.quantity);
    var c := Compensation(cmd.scope, row, m, IssueReversal, cmd.occurredAt);
    var t' := ReverseSlice(t, cmd, row).value;
    assert BatchShapeOk(t.batches[i]);
    CompensatedRowIsOpen(t, row, c);
    OpenDrawIsMissing(t, row);
    StepKeepsStock(t, t', i, b, c);
    StepKeepsHolds(t, t');
  }

  lemma {:induction false} ReverseSlicesKeepsInv(t: Tables, cmd: ReverseIssueCommand, rows: seq<nat>)
    requires Inv(t) && RowsInScope(t, cmd.scope, rows)
    requires forall n :: 0 <= n < |rows| ==> t.movements[rows[n]].kind.Issue?
    requires ReverseSlices(t, cmd, rows).Ok?
    ensures Inv(ReverseSlices(t, cmd, rows).value)
    decreases rows
  {
    if rows != [] {
      ReverseSliceKeepsInv(t, cmd, rows[0]);
      ReverseSlicesKeepsInv(ReverseSlice(t, cmd, rows[0]).value, cmd, rows[1..]);
    }
  }

  lemma ReverseIssueKeepsInv(t: Tables, cmd: ReverseIssueCommand)
    requires Inv(t) && ReverseIssueAddressed(t, cmd) && ReverseIssue(t, cmd).Ok?
    ensures Inv(ReverseIssue(t, cmd).value)
  {
    var k := IdempotencyKey(cmd.scope.org, SaleIssueReverse, cmd.key);
    var t' := ReverseIssue(t, cmd).value;
    if k in t.keys {
    } else if FindFirst(t.movements, OfDocument(cmd.scope.org, Sale, cmd.sale, IssueReversal)).Some? {
      KeysKeepInv(t, t');
    } else {
      var rows := Matching(t.movements, OfDocument(cmd.scope.org, Sale, cmd.sale, Issue));
      forall n | 0 <= n < |rows| ensures t.movements[rows[n]].kind.Issue? {
        assert rows[n] in rows;
      }
      ReverseSlicesKeepsInv(t, cmd, rows);
      KeysKeepInv(ReverseSlices(t, cmd, rows).value, t');
    }
  }
}
