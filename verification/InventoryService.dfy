/**
 The stock adapters as they run: statement by statement against the tables, inside a transaction that a
 failure rolls back. Every public method is proved to do exactly what its transaction function says.
 */
module InventoryService {
  import opened Wrappers
  import opened Sequences
  import opened InventoryTables
  import opened InventoryPosting
  import opened InventoryIssue
  import opened InventoryWriteOff
  import opened InventoryReservation

  /** A statement block ended like its transaction function: with its tables, or with its error. */
  ghost predicate Follows(error: Option<Error>, now: Tables, spec: Result<Tables, Error>) {
    match spec
    case Ok(t) => error.None? && now == t
    case Rejected(e) => error == Some(e)
  }

  /** Like Follows, and a failure left no trace. */
  ghost predicate Committed(error: Option<Error>, before: Tables, now: Tables, spec: Result<Tables, Error>) {
    Follows(error, now, spec) && (error.Some? ==> now == before)
  }

  lemma {:induction false} AllocatedRowsAreHolds(t: Tables, scope: Scope, line: ReserveLine, order: seq<nat>, remaining: int)
    requires forall n :: 0 <= n < |order| ==> order[n] < |t.batches|
    ensures forall r :: r in Allocate(t, scope, line, order, remaining) ==> r.status.ActiveHold? && r.key.scope == scope
    decreases order
  {
    if order != [] && remaining > 0 {
      var free := FreeOn(t, order[0]);
      AllocatedRowsAreHolds(t, scope, line, order[1..], if free <= 0 then remaining else remaining - Min(free, remaining));
    }
  }

  lemma {:induction false} PlannedRowsAreHolds(t: Tables, scope: Scope, lines: seq<ReserveLine>)
    ensures var plan := Plan(t, scope, lines);
      plan.Ok? ==> forall r :: r in plan.value ==> r.status.ActiveHold? && r.key.scope == scope
    decreases lines
  {
    if lines != [] {
      var k := StockKey(scope, lines[0].item);
      AllocatedRowsAreHolds(t, scope, lines[0], ConsumptionOrder(t, k), Min(lines[0].quantity, Available(t, k)));
      PlannedRowsAreHolds(t, scope, lines[1..]);
    }
  }

  lemma PostLinesStep(t: Tables, cmd: PostCommand, lines: seq<ReceiptLine>, n: nat)
    requires n < |lines|
    ensures var r := PostLine(t, cmd, lines[n]);
      PostLines(t, cmd, lines[n..]) == if r.Rejected? then r else PostLines(r.value, cmd, lines[n + 1..])
  {
    assert lines[n..][1..] == lines[n + 1..];
  }

  lemma ReverseBatchesStep(t: Tables, cmd: ReverseCommand, rows: seq<nat>, n: nat)
    requires n < |rows| && RowsExist(t, rows)
    ensures var r := ReverseBatch(t, cmd, rows[n]);
      ReverseBatches(t, cmd, rows[n..]) == if r.Rejected? then r else ReverseBatches(r.value, cmd, rows[n + 1..])
  {
    assert rows[n..][1..] == rows[n + 1..];
  }

  lemma ConsumeHoldsStep(t: Tables, cmd: IssueCommand, k: StockKey, rows: seq<nat>, n: nat, remaining: int)
    requires n < |rows| && remaining > 0
    requires forall x :: 0 <= x < |rows| ==> rows[x] < |t.reservations|
    ensures var p := ConsumeHold(t, cmd, k, rows[n], remaining);
      ConsumeHolds(t, cmd, k, rows[n..], remaining)
      == if p.Rejected? then Rejected(p.error)
         else ConsumeHolds(p.value.tables, cmd, k, rows[n + 1..], p.value.remaining)
  {
    assert rows[n..][1..] == rows[n + 1..];
  }

  lemma WriteOffSlicesStep(t: Tables, cmd: WriteOffCommand, line: WriteOffLine, order: seq<nat>, n: nat, remaining: int)
    requires n < |order| && remaining > 0
    requires forall x :: 0 <= x < |order| ==> order[x] < |t.batches|
    ensures var p := WriteOffSlice(t, cmd, line, order[n], remaining);
      WriteOffSlices(t, cmd, line, order[n..], remaining)
      == if p.Rejected? then Rejected(p.error)
         else WriteOffSlices(p.value.tables, cmd, line, order[n + 1..], p.value.remaining)
  {
    assert order[n..][1..] == order[n + 1..];
  }

  lemma TakeFreeStockStep(t: Tables, cmd: IssueCommand, k: StockKey, order: seq<nat>, n: nat, remaining: int)
    requires n < |order| && remaining > 0
    requires forall x :: 0 <= x < |order| ==> order[x] < |t.batches|
    ensures var p := TakeFree(t, cmd, k, order[n], remaining);
      TakeFreeStock(t, cmd, k, order[n..], remaining)
      == if p.Rejected? then Rejected(p.error)
         else TakeFreeStock(p.value.tables, cmd, k, order[n + 1..], p.value.remaining)
  {
    assert order[n..][1..] == order[n + 1..];
  }

  lemma AllocateStep(t: Tables, scope: Scope, line: ReserveLine, order: seq<nat>, n: nat, remaining: int)
    requires n < |order| && remaining > 0
    requires forall x :: 0 <= x < |order| ==> order[x] < |t.batches|
    ensures var free := FreeOn(t, order[n]);
      var take := Min(free, remaining);
      Allocate(t, scope, line, order[n..], remaining)
      == if free <= 0 then Allocate(t, scope, line, order[n + 1..], remaining)
         else [Reservation(StockKey(scope, line.item), order[n], line.compositionItem, take, ActiveHold)]
              + Allocate(t, scope, line, order[n + 1..], remaining - take)
  {
    assert order[n..][1..] == order[n + 1..];
  }

  /** Rows planned so far, followed by the plan for the lines still to come. */
  ghost function After(rows: seq<Reservation>, rest: Result<seq<Reservation>, Error>): Result<seq<Reservation>, Error> {
    if rest.Ok? then Ok(rows + rest.value) else rest
  }

  lemma PlanFrom(t: Tables, scope: Scope, lines: seq<ReserveLine>, n: nat, rows: seq<Reservation>)
    requires n <= |lines|
    ensures n == 0 ==> Plan(t, scope, lines) == After([], Plan(t, scope, lines[n..]))
    ensures n < |lines| && lines[n].quantity > 0 ==>
      After(rows, Plan(t, scope, lines[n..])) == After(rows + PlanLine(t, scope, lines[n]), Plan(t, scope, lines[n + 1..]))
  {
    if n == 0 {
      assert lines[n..] == lines;
      var plan := Plan(t, scope, lines);
      assert plan.Ok? ==> [] + plan.value == plan.value;
    }
    if n < |lines| && lines[n].quantity > 0 {
      assert lines[n..][1..] == lines[n + 1..];
      var rest := Plan(t, scope, lines[n + 1..]);
      if rest.Ok? {
        assert rows + (PlanLine(t, scope, lines[n]) + rest.value) == (rows + PlanLine(t, scope, lines[n])) + rest.value;
      }
    }
  }

  lemma SkippedRow(before: seq<Reservation>, r: Reservation, p: Reservation -> bool, scope: Scope, items: seq<nat>)
    requires !p(r)
    ensures ItemsOf(before + [r], p) == ItemsOf(before, p)
    ensures forall x :: x in items ==>
      Sum(before + [r], QuantityOf(p, StockKey(scope, x))) == Sum(before, QuantityOf(p, StockKey(scope, x)))
  {
    assert (before + [r])[..|before|] == before;
    forall x | x in items
      ensures Sum(before + [r], QuantityOf(p, StockKey(scope, x))) == Sum(before, QuantityOf(p, StockKey(scope, x)))
    {
      SumAppend(before, r, QuantityOf(p, StockKey(scope, x)));
    }
  }

  class StockDatabase {
    var balances: map<StockKey, Balance>
    var batches: seq<Batch>
    var movements: seq<Movement>
    var reservations: seq<Reservation>
    var keys: map<IdempotencyKey, nat>

    function Db(): Tables
      reads this
    {
      Tables(balances, batches, movements, reservations, keys)
    }

    constructor ()
      ensures Db() == EMPTY
    {
      balances, batches, movements, reservations, keys := map[], [], [], [], map[];
    }

    method Restore(t: Tables)
      modifies this
      ensures Db() == t
    {
      balances, batches, movements := t.balances, t.batches, t.movements;
      reservations, keys := t.reservations, t.keys;
    }

    /** Runs one guarded write against the tables. */
    method Write(r: Result<Tables, Error>) returns (error: Option<Error>)
      modifies this
      ensures Follows(error, Db(), r)
      ensures error.Some? ==> Db() == old(Db())
    {
      if r.Rejected? {
        return Some(r.error);
      }
      Restore(r.value);
      error := None;
    }

    // ------------------------------------------------------------- receipts

    method PostOneLine(cmd: PostCommand, line: ReceiptLine) returns (error: Option<Error>)
      modifies this
      ensures Follows(error, Db(), PostLine(old(Db()), cmd, line))
    {
      if line.acceptedQuantity <= 0 {
        return None;
      }
      if FindFirst(movements, ReceiptFor(cmd.scope.org, line.receiptLine)).Some? {
        return Some(GoodsReceiptAlreadyPosted);
      }
      var batch := |batches|;
      error := Write(AddBatch(Db(), NewBatch(cmd, line)));
      if error.Some? { return; }
      error := Write(AddMovement(Db(), ReceiptMovement(cmd, line, batch)));
      if error.Some? { return; }
      error := Write(AdjustBalance(Db(), StockKey(cmd.scope, line.item), line.acceptedQuantity));
    }

    method PostReceiptLines(cmd: PostCommand) returns (error: Option<Error>)
      modifies this
      ensures Follows(error, Db(), PostLines(old(Db()), cmd, cmd.lines))
    {
      ghost var start := Db();
      error := None;
      var n := 0;
      while n < |cmd.lines| && error.None?
        invariant n <= |cmd.lines|
        invariant error.None? ==> PostLines(start, cmd, cmd.lines) == PostLines(Db(), cmd, cmd.lines[n..])
        invariant error.Some? ==> PostLines(start, cmd, cmd.lines) == Rejected(error.value)
      {
        PostLinesStep(Db(), cmd, cmd.lines, n);
        error := PostOneLine(cmd, cmd.lines[n]);
        n := n + 1;
      }
    }

    method PostGoodsReceipt(cmd: PostCommand) returns (error: Option<Error>)
      modifies this
      ensures Committed(error, old(Db()), Db(), InventoryPosting.PostGoodsReceipt(old(Db()), cmd))
    {
      var snapshot := Db();
      if HasKey(cmd.key) {
        var k := IdempotencyKey(cmd.scope.org, GoodsReceiptPost, cmd.key.value);
        if k in keys {
          return if keys[k] == cmd.goodsReceipt then None else Some(IdempotencyKeyReused);
        }
        keys := keys[k := cmd.goodsReceipt];
      }
      error := PostReceiptLines(cmd);
      if error.Some? {
        Restore(snapshot);
      }
    }

    method ReverseOneBatch(cmd: ReverseCommand, i: nat) returns (error: Option<Error>)
      requires i < |batches|
      modifies this
      ensures Follows(error, Db(), ReverseBatch(old(Db()), cmd, i))
    {
      var b := batches[i];
      if b.remaining != b.initial {
        return Some(BatchAlreadyUsed);
      }
      var receipt := FindFirst(movements, ReceiptOfBatch(cmd.scope.org, i));
      if receipt.None? {
        return Some(ReceiptMovementMissing);
      }
      if FindFirst(movements, ReversalFor(cmd.scope.org, b.receiptLine)).Some? {
        return Some(GoodsReceiptAlreadyReversed);
      }
      error := Write(AdjustBalance(Db(), StockKey(cmd.scope, b.key.item), -b.initial));
      if error.Some? { return; }
      error := Write(AddMovement(Db(), ReversalMovement(cmd, i, b, receipt.value)));
      if error.Some? { return; }
      error := Write(PutBatch(Db(), i, b.(remaining := 0, status := ReversedBatch)));
    }

    method ReverseBatchRows(cmd: ReverseCommand, rows: seq<nat>) returns (error: Option<Error>)
      requires RowsExist(Db(), rows)
      modifies this
      ensures Follows(error, Db(), ReverseBatches(old(Db()), cmd, rows))
    {
      ghost var start := Db();
      error := None;
      var n := 0;
      while n < |rows| && error.None?
        invariant n <= |rows|
        invariant error.None? ==> RowsExist(Db(), rows)
        invariant error.None? ==> ReverseBatches(start, cmd, rows) == ReverseBatches(Db(), cmd, rows[n..])
        invariant error.Some? ==> ReverseBatches(start, cmd, rows) == Rejected(error.value)
      {
        ReverseBatchesStep(Db(), cmd, rows, n);
        error := ReverseOneBatch(cmd, rows[n]);
        n := n + 1;
      }
    }

    method ReverseGoodsReceipt(cmd: ReverseCommand) returns (error: Option<Error>)
      modifies this
      ensures Committed(error, old(Db()), Db(), InventoryPosting.ReverseGoodsReceipt(old(Db()), cmd))
    {
      var snapshot := Db();
      if HasKey(cmd.key) {
        var k := IdempotencyKey(cmd.scope.org, GoodsReceiptReverse, cmd.key.value);
        if k in keys {
          return if keys[k] == cmd.goodsReceipt then None else Some(IdempotencyKeyReused);
        }
        keys := keys[k := cmd.goodsReceipt];
      }
      error := ReverseBatchRows(cmd, Matching(batches, InReceipt(cmd)));
      if error.Some? {
        Restore(snapshot);
      }
    }

    method AdjustGoodsReceiptItem(cmd: AdjustCommand) returns (error: Option<Error>)
      modifies this
      ensures Committed(error, old(Db()), Db(), InventoryPosting.AdjustGoodsReceiptItem(old(Db()), cmd))
    {
      var snapshot := Db();
      var row := FindFirst(batches, Corrected(cmd));
      if row.None? {
        return Some(BatchNotFound);
      }
      var b := batches[row.value];
      if b.status.ReversedBatch? {
        return Some(BatchIsReversed);
      }
      if cmd.acceptedQuantity <= 0 {
        return Some(InvalidReceiptQuantity);
      }
      if cmd.actualUnitPrice < 0 {
        return Some(InvalidUnitPrice);
      }
      var delta := cmd.acceptedQuantity - b.initial;
      if b.remaining + delta < 0 {
        return Some(BatchAlreadyUsed);
      }
      error := None;
      if delta != 0 {
        error := Write(AddMovement(Db(), CorrectionMovement(Db(), cmd, row.value, delta)));
        if error.None? {
          error := Write(AdjustBalance(Db(), StockKey(cmd.scope, cmd.item), delta));
        }
      }
      if error.None? {
        error := Write(PutBatch(Db(), row.value, CorrectedBatch(cmd, b)));
      }
      if error.Some? {
        Restore(snapshot);
      }
    }

    // --------------------------------------------------------------- issues

    method BookOneSlice(cmd: IssueCommand, k: StockKey, i: nat, take: int, reserved: int, source: SourceItem)
      returns (error: Option<Error>)
      requires i < |batches|
      modifies this
      ensures Follows(error, Db(), BookSlice(old(Db()), cmd, k, i, take, reserved, source))
    {
      var b := batches[i];
      error := Write(AddMovement(Db(), SliceMovement(cmd, k, i, b, take, source)));
      if error.Some? { return; }
      error := Write(PutBatch(Db(), i, Take(b, take)));
      if error.Some? { return; }
      error := Write(AdjustBalanceOnIssue(Db(), k, take, reserved));
    }

    method ConsumeOneHold(cmd: IssueCommand, k: StockKey, row: nat, needed: int) returns (error: Option<Error>, remaining: int)
      requires row < |reservations|
      modifies this
      ensures var spec := ConsumeHold(old(Db()), cmd, k, row, needed);
        if spec.Ok? then error.None? && Progress(Db(), remaining) == spec.value else error == Some(spec.error)
    {
      error, remaining := None, needed;
      var hold := reservations[row];
      var take := Min(hold.quantity, needed);
      if take <= 0 {
        return;
      }
      if hold.batch >= |batches| {
        return Some(ConstraintViolation), needed;
      }
      error := BookOneSlice(cmd, k, hold.batch, take, take, Given(row));
      if error.Some? { return; }
      if take == hold.quantity {
        reservations := reservations[row := hold.(status := ConsumedHold)];
      } else {
        reservations := reservations[row := hold.(quantity := hold.quantity - take)];
      }
      remaining := needed - take;
    }

    /** Consumes the named holds row by row; the remainder still to find is returned. */
    method ConsumeReservations(cmd: IssueCommand, k: StockKey, rows: seq<nat>, needed: int)
      returns (error: Option<Error>, remaining: int)
      requires forall n :: 0 <= n < |rows| ==> rows[n] < |reservations|
      modifies this
      ensures var spec := ConsumeHolds(old(Db()), cmd, k, rows, needed);
        if spec.Ok? then error.None? && Progress(Db(), remaining) == spec.value else error == Some(spec.error)
    {
      ghost var start := Db();
      error, remaining := None, needed;
      var n := 0;
      while n < |rows| && error.None? && remaining > 0
        invariant n <= |rows|
        invariant error.None? ==> forall x :: 0 <= x < |rows| ==> rows[x] < |reservations|
        invariant error.None? ==> ConsumeHolds(start, cmd, k, rows, needed) == ConsumeHolds(Db(), cmd, k, rows[n..], remaining)
        invariant error.Some? ==> ConsumeHolds(start, cmd, k, rows, needed) == Rejected(error.value)
      {
        ConsumeHoldsStep(Db(), cmd, k, rows, n, remaining);
        error, remaining := ConsumeOneHold(cmd, k, rows[n], remaining);
        n := n + 1;
      }
    }

    method ReleaseExcessReservations(k: StockKey, sources: seq<nat>) returns (error: Option<Error>)
      modifies this
      ensures Follows(error, Db(), ReleaseExcess(old(Db()), k, sources))
    {
      var total := MarkReleased(k, sources);
      error := None;
      if total > 0 {
        error := Write(AdjustReserved(Db(), k, -total));
      }
    }

    /** Marks the line's remaining holds released and adds up what they held. */
    method MarkReleased(k: StockKey, sources: seq<nat>) returns (total: int)
      modifies this`reservations
      ensures reservations == ReleaseRows(old(reservations), HeldFor(k, sources))
      ensures total == Sum(old(reservations), QuantityOf(HeldFor(k, sources), k))
    {
      ghost var start := reservations;
      var excess := HeldFor(k, sources);
      total := 0;
      for i := 0 to |reservations|
        invariant |reservations| == |start|
        invariant forall x :: 0 <= x < i ==> reservations[x] == (if excess(start[x]) then Release(start[x]) else start[x])
        invariant forall x :: i <= x < |start| ==> reservations[x] == start[x]
        invariant total == Sum(start[..i], QuantityOf(excess, k))
      {
        var r := reservations[i];
        assert start[..i + 1] == start[..i] + [r];
        SumAppend(start[..i], r, QuantityOf(excess, k));
        if excess(r) {
          reservations := reservations[i := Release(r)];
          total := total + r.quantity;
        }
      }
      assert start[..|start|] == start;
    }

    method TakeFreeSlice(cmd: IssueCommand, k: StockKey, i: nat, needed: int)
      returns (error: Option<Error>, remaining: int)
      requires i < |batches|
      modifies this
      ensures var spec := TakeFree(old(Db()), cmd, k, i, needed);
        if spec.Ok? then error.None? && Progress(Db(), remaining) == spec.value else error == Some(spec.error)
    {
      error, remaining := None, needed;
      var free := FreeOn(Db(), i);
      if free > 0 {
        var take := Min(free, needed);
        error := BookOneSlice(cmd, k, i, take, 0, Minted(|movements|));
        remaining := needed - take;
      }
    }

    /** Takes from each batch in turn until nothing is left to find. */
    method TakeFreeSlices(cmd: IssueCommand, k: StockKey, order: seq<nat>, needed: int)
      returns (error: Option<Error>, remaining: int)
      requires forall x :: 0 <= x < |order| ==> order[x] < |batches|
      modifies this
      ensures var spec := TakeFreeStock(old(Db()), cmd, k, order, needed);
        if spec.Ok? then error.None? && Progress(Db(), remaining) == spec.value else error == Some(spec.error)
    {
      ghost var start := Db();
      error, remaining := None, needed;
      var n := 0;
      while n < |order| && error.None? && remaining > 0
        invariant n <= |order|
        invariant error.None? ==> forall x :: 0 <= x < |order| ==> order[x] < |batches|
        invariant error.None? ==> TakeFreeStock(start, cmd, k, order, needed) == TakeFreeStock(Db(), cmd, k, order[n..], remaining)
        invariant error.Some? ==> TakeFreeStock(start, cmd, k, order, needed) == Rejected(error.value)
      {
        TakeFreeStockStep(Db(), cmd, k, order, n, remaining);
        error, remaining := TakeFreeSlice(cmd, k, order[n], remaining);
        n := n + 1;
      }
    }

    method IssueFreeStock(cmd: IssueCommand, k: StockKey, needed: int) returns (error: Option<Error>)
      modifies this
      ensures Follows(error, Db(), IssueFromFreeStock(old(Db()), cmd, k, needed))
    {
      var remaining;
      error, remaining := TakeFreeSlices(cmd, k, ConsumptionOrder(Db(), k), needed);
      if error.None? && remaining > 0 {
        error := Some(InsufficientStock);
      }
    }

    method IssueLine(cmd: IssueCommand, line: InventoryIssue.IssueLine) returns (error: Option<Error>)
      modifies this
      ensures Follows(error, Db(), IssueOneLine(old(Db()), cmd, line))
    {
      if line.quantity <= 0 {
        return Some(InvalidQuantity);
      }
      var k := StockKey(cmd.scope, line.item);
      var remaining := line.quantity;
      error := None;
      if line.sources != [] {
        error, remaining := ConsumeReservations(cmd, k, Matching(reservations, HeldFor(k, line.sources)), remaining);
        if error.Some? { return; }
        error := ReleaseExcessReservations(k, line.sources);
        if error.Some? { return; }
      }
      if remaining > 0 {
        error := IssueFreeStock(cmd, k, remaining);
      }
    }

    method IssueStock(cmd: IssueCommand) returns (error: Option<Error>)
      modifies this
      ensures Committed(error, old(Db()), Db(), InventoryIssue.IssueStock(old(Db()), cmd))
    {
      var snapshot := Db();
      var k := IdempotencyKey(cmd.scope.org, cmd.keyScope, cmd.key);
      if k in keys {
        return if keys[k] == cmd.document then None else Some(IdempotencyKeyReused);
      }
      error := None;
      var n := 0;
      while n < |cmd.lines| && error.None?
        invariant n <= |cmd.lines|
        invariant error.None? ==> IssueLines(snapshot, cmd, cmd.lines) == IssueLines(Db(), cmd, cmd.lines[n..])
        invariant error.Some? ==> IssueLines(snapshot, cmd, cmd.lines) == Rejected(error.value)
      {
        assert cmd.lines[n..][1..] == cmd.lines[n + 1..];
        error := IssueLine(cmd, cmd.lines[n]);
        n := n + 1;
      }
      if error.Some? {
        Restore(snapshot);
      } else {
        keys := keys[k := cmd.document];
      }
    }

    method ReverseIssue(cmd: ReverseIssueCommand) returns (error: Option<Error>)
      modifies this
      ensures Committed(error, old(Db()), Db(), InventoryIssue.ReverseIssue(old(Db()), cmd))
    {
      var snapshot := Db();
      var k := IdempotencyKey(cmd.scope.org, SaleIssueReverse, cmd.key);
      if k in keys {
        return if keys[k] == cmd.sale then None else Some(IdempotencyKeyReused);
      }
      if FindFirst(movements, OfDocument(cmd.scope.org, Sale, cmd.sale, IssueReversal)).Some? {
        keys := keys[k := cmd.sale];
        return None;
      }
      var rows := Matching(movements, OfDocument(cmd.scope.org, Sale, cmd.sale, Issue));
      error := None;
      var n := 0;
      while n < |rows| && error.None?
        invariant n <= |rows|
        invariant error.None? ==> forall x :: 0 <= x < |rows| ==> rows[x] < |movements|
        invariant error.None? ==> ReverseSlices(snapshot, cmd, rows) == ReverseSlices(Db(), cmd, rows[n..])
        invariant error.Some? ==> ReverseSlices(snapshot, cmd, rows) == Rejected(error.value)
      {
        assert rows[n..][1..] == rows[n + 1..];
        error := ReverseOneSlice(cmd, rows[n]);
        n := n + 1;
      }
      if error.Some? {
        Restore(snapshot);
      } else {
        keys := keys[k := cmd.sale];
      }
    }

    method ReverseOneSlice(cmd: ReverseIssueCommand, row: nat) returns (error: Option<Error>)
      requires row < |movements|
      modifies this
      ensures Follows(error, Db(), ReverseSlice(old(Db()), cmd, row))
    {
      var m := movements[row];
      if m.batch >= |batches| {
        return Some(ConstraintViolation);
      }
      error := Write(PutBatch(Db(), m.batch, GiveBack(batches[m.batch], m.quantity)));
      if error.Some? { return; }
      error := Write(AdjustBalanceOnReverse(Db(), StockKey(cmd.scope, m.key.item), m.quantity));
      if error.Some? { return; }
      error := Write(AddMovement(Db(), Compensation(cmd.scope, row, m, IssueReversal, cmd.occurredAt)));
    }

    // ----------------------------------------------------------- write-offs

    method WriteOffOneSlice(cmd: WriteOffCommand, line: InventoryWriteOff.WriteOffLine, i: nat, needed: int)
      returns (error: Option<Error>, remaining: int)
      requires i < |batches|
      modifies this
      ensures var spec := WriteOffSlice(old(Db()), cmd, line, i, needed);
        if spec.Ok? then error.None? && Progress(Db(), remaining) == spec.value else error == Some(spec.error)
    {
      error, remaining := None, needed;
      var free := FreeOn(Db(), i);
      if free > 0 {
        var take := Min(free, needed);
        var b := batches[i];
        error := Write(AddMovement(Db(), WriteOffMovement(Db(), cmd, line, i, take, needed)));
        if error.Some? { return; }
        error := Write(PutBatch(Db(), i, Take(b, take)));
        if error.Some? { return; }
        error := Write(AdjustExisting(Db(), StockKey(cmd.scope, line.item), -take));
        remaining := needed - take;
      }
    }

    method TakeWriteOffSlices(cmd: WriteOffCommand, line: InventoryWriteOff.WriteOffLine, order: seq<nat>)
      returns (error: Option<Error>, remaining: int)
      requires forall x :: 0 <= x < |order| ==> order[x] < |batches|
      modifies this
      ensures var spec := WriteOffSlices(old(Db()), cmd, line, order, line.quantity);
        if spec.Ok? then error.None? && Progress(Db(), remaining) == spec.value else error == Some(spec.error)
    {
      ghost var start := Db();
      error, remaining := None, line.quantity;
      var n := 0;
      while n < |order| && error.None? && remaining > 0
        invariant n <= |order|
        invariant error.None? ==> forall x :: 0 <= x < |order| ==> order[x] < |batches|
        invariant error.None? ==>
          WriteOffSlices(start, cmd, line, order, line.quantity) == WriteOffSlices(Db(), cmd, line, order[n..], remaining)
        invariant error.Some? ==> WriteOffSlices(start, cmd, line, order, line.quantity) == Rejected(error.value)
      {
        WriteOffSlicesStep(Db(), cmd, line, order, n, remaining);
        error, remaining := WriteOffOneSlice(cmd, line, order[n], remaining);
        n := n + 1;
      }
    }

    method WriteOffLine(cmd: WriteOffCommand, line: InventoryWriteOff.WriteOffLine) returns (error: Option<Error>)
      modifies this
      ensures Follows(error, Db(), PostWriteOffLine(old(Db()), cmd, line))
    {
      var remaining;
      error, remaining := TakeWriteOffSlices(cmd, line, ConsumptionOrder(Db(), StockKey(cmd.scope, line.item)));
      if error.None? && remaining > 0 {
        error := Some(InsufficientStock);
      }
    }

    method WriteOffLines(cmd: WriteOffCommand) returns (error: Option<Error>)
      modifies this
      ensures Follows(error, Db(), PostWriteOffLines(old(Db()), cmd, cmd.lines))
    {
      ghost var start := Db();
      error := None;
      var n := 0;
      while n < |cmd.lines| && error.None?
        invariant n <= |cmd.lines|
        invariant error.None? ==> PostWriteOffLines(start, cmd, cmd.lines) == PostWriteOffLines(Db(), cmd, cmd.lines[n..])
        invariant error.Some? ==> PostWriteOffLines(start, cmd, cmd.lines) == Rejected(error.value)
      {
        assert cmd.lines[n..][1..] == cmd.lines[n + 1..];
        error := WriteOffLine(cmd, cmd.lines[n]);
        n := n + 1;
      }
    }

    method PostWriteOff(cmd: WriteOffCommand) returns (error: Option<Error>)
      modifies this
      ensures Committed(error, old(Db()), Db(), InventoryWriteOff.PostWriteOff(old(Db()), cmd))
    {
      var snapshot := Db();
      var k := IdempotencyKey(cmd.scope.org, InventoryTables.PostingScope.WriteOffPost, cmd.key);
      if k in keys {
        return if keys[k] == cmd.writeOff then None else Some(IdempotencyKeyReused);
      }
      error := WriteOffLines(cmd);
      if error.Some? {
        Restore(snapshot);
      } else {
        keys := keys[k := cmd.writeOff];
      }
    }

    method ReverseWriteOff(cmd: ReverseWriteOffCommand) returns (error: Option<Error>)
      modifies this
      ensures Committed(error, old(Db()), Db(), InventoryWriteOff.ReverseWriteOff(old(Db()), cmd))
    {
      var snapshot := Db();
      var k := IdempotencyKey(cmd.scope.org, InventoryTables.PostingScope.WriteOffReverse, cmd.key);
      if k in keys {
        return if keys[k] == cmd.writeOff then None else Some(IdempotencyKeyReused);
      }
      var rows := Matching(movements, OfDocument(cmd.scope.org, WriteOffItem, cmd.writeOff, WriteOff));
      error := None;
      var n := 0;
      while n < |rows| && error.None?
        invariant n <= |rows|
        invariant error.None? ==> forall x :: 0 <= x < |rows| ==> rows[x] < |movements|
        invariant error.None? ==> ReverseWriteOffSlices(snapshot, cmd, rows) == ReverseWriteOffSlices(Db(), cmd, rows[n..])
        invariant error.Some? ==> ReverseWriteOffSlices(snapshot, cmd, rows) == Rejected(error.value)
      {
        assert rows[n..][1..] == rows[n + 1..];
        error := ReverseOneWriteOff(cmd, rows[n]);
        n := n + 1;
      }
      if error.Some? {
        Restore(snapshot);
      } else {
        keys := keys[k := cmd.writeOff];
      }
    }

    method ReverseOneWriteOff(cmd: ReverseWriteOffCommand, row: nat) returns (error: Option<Error>)
      requires row < |movements|
      modifies this
      ensures Follows(error, Db(), ReverseWriteOffSlice(old(Db()), cmd, row))
    {
      var m := movements[row];
      if m.batch >= |batches| {
        return Some(ConstraintViolation);
      }
      error := Write(PutBatch(Db(), m.batch, GiveBack(batches[m.batch], m.quantity)));
      if error.Some? { return; }
      error := Write(AdjustExisting(Db(), StockKey(cmd.scope, m.key.item), m.quantity));
      if error.Some? { return; }
      error := Write(AddMovement(Db(), Compensation(cmd.scope, row, m, WriteOffReversal, cmd.occurredAt)));
    }

    // --------------------------------------------------------- reservations

    /** Moves the reserved balance of each item by its total, with the given sign. */
    method AdjustItems(scope: Scope, items: seq<nat>, totals: map<nat, int>, sign: int,
                       ghost rs: seq<Reservation>, ghost p: Reservation -> bool)
      returns (error: Option<Error>)
      requires forall x :: x in items ==> x in totals && totals[x] == Sum(rs, QuantityOf(p, StockKey(scope, x)))
      modifies this
      ensures Follows(error, Db(), AdjustEach(old(Db()), scope, items, rs, p, sign))
    {
      ghost var start := Db();
      error := None;
      var n := 0;
      while n < |items| && error.None?
        invariant n <= |items|
        invariant error.None? ==> AdjustEach(start, scope, items, rs, p, sign) == AdjustEach(Db(), scope, items[n..], rs, p, sign)
        invariant error.Some? ==> AdjustEach(start, scope, items, rs, p, sign) == Rejected(error.value)
      {
        assert items[n..][1..] == items[n + 1..];
        error := Write(AdjustReserved(Db(), StockKey(scope, items[n]), sign * totals[items[n]]));
        n := n + 1;
      }
    }

    /** Adds a row to the running totals, opening a new entry the first time its item is met. */
    method AddToTotals(scope: Scope, items: seq<nat>, totals: map<nat, int>, r: Reservation,
                       ghost before: seq<Reservation>, ghost p: Reservation -> bool)
      returns (items': seq<nat>, totals': map<nat, int>)
      requires items == ItemsOf(before, p)
      requires forall x :: x in items ==> x in totals && totals[x] == Sum(before, QuantityOf(p, StockKey(scope, x)))
      requires p(r) && r.key.scope == scope
      ensures items' == ItemsOf(before + [r], p)
      ensures forall x :: x in items' ==> x in totals' && totals'[x] == Sum(before + [r], QuantityOf(p, StockKey(scope, x)))
    {
      var item := r.key.item;
      assert (before + [r])[..|before|] == before;
      items' := if item in items then items else items + [item];
      totals' := totals[item := (if item in items then totals[item] else 0) + r.quantity];
      if item !in items {
        SumZero(before, QuantityOf(p, StockKey(scope, item)));
      }
      forall x | x in items' ensures totals'[x] == Sum(before + [r], QuantityOf(p, StockKey(scope, x))) {
        SumAppend(before, r, QuantityOf(p, StockKey(scope, x)));
      }
    }

    /** Marks the holds released in place and totals them by item. */
    method MarkReleasedByItem(scope: Scope, active: Reservation -> bool) returns (items: seq<nat>, totals: map<nat, int>)
      requires forall r :: active(r) ==> r.key.scope == scope
      modifies this`reservations
      ensures reservations == ReleaseRows(old(reservations), active)
      ensures items == ItemsOf(old(reservations), active)
      ensures forall x :: x in items ==> x in totals && totals[x] == Sum(old(reservations), QuantityOf(active, StockKey(scope, x)))
    {
      ghost var start := reservations;
      items, totals := [], map[];
      for i := 0 to |reservations|
        invariant |reservations| == |start|
        invariant forall x :: 0 <= x < i ==> reservations[x] == (if active(start[x]) then Release(start[x]) else start[x])
        invariant forall x :: i <= x < |start| ==> reservations[x] == start[x]
        invariant items == ItemsOf(start[..i], active)
        invariant forall x :: x in items ==> x in totals && totals[x] == Sum(start[..i], QuantityOf(active, StockKey(scope, x)))
      {
        var r := reservations[i];
        assert start[..i + 1] == start[..i] + [r];
        assert start[..i + 1][..i] == start[..i];
        if active(r) {
          reservations := reservations[i := Release(r)];
          items, totals := AddToTotals(scope, items, totals, r, start[..i], active);
        } else {
          SkippedRow(start[..i], r, active, scope, items);
        }
      }
      assert start[..|start|] == start;
    }

    method ReleaseActiveForItems(scope: Scope, compositionItems: seq<nat>) returns (error: Option<Error>)
      modifies this
      ensures Follows(error, Db(), ReleaseActive(old(Db()), scope, compositionItems))
    {
      ghost var start := reservations;
      var active := HeldIn(scope, compositionItems);
      var items, totals := MarkReleasedByItem(scope, active);
      error := AdjustItems(scope, items, totals, -1, start, active);
    }

    method ReleaseComposition(cmd: ReleaseCommand) returns (error: Option<Error>)
      modifies this
      ensures Committed(error, old(Db()), Db(), InventoryReservation.ReleaseComposition(old(Db()), cmd))
    {
      var snapshot := Db();
      error := ReleaseActiveForItems(cmd.scope, cmd.compositionItems);
      if error.Some? {
        Restore(snapshot);
      }
    }

    method AllocateSlices(scope: Scope, line: ReserveLine, order: seq<nat>, toReserve: int) returns (rows: seq<Reservation>)
      requires forall x :: 0 <= x < |order| ==> order[x] < |batches|
      ensures rows == Allocate(Db(), scope, line, order, toReserve)
    {
      rows := [];
      var n, remaining := 0, toReserve;
      ghost var rest := Allocate(Db(), scope, line, order, toReserve);
      while n < |order| && remaining > 0
        invariant n <= |order|
        invariant rest == Allocate(Db(), scope, line, order[n..], remaining)
        invariant Allocate(Db(), scope, line, order, toReserve) == rows + rest
      {
        AllocateStep(Db(), scope, line, order, n, remaining);
        var free := FreeOn(Db(), order[n]);
        if free > 0 {
          var take := Min(free, remaining);
          rows := rows + [Reservation(StockKey(scope, line.item), order[n], line.compositionItem, take, ActiveHold)];
          remaining := remaining - take;
          rest := rest[1..];
        }
        n := n + 1;
      }
    }

    method AllocateLine(scope: Scope, line: ReserveLine) returns (rows: seq<Reservation>)
      ensures rows == PlanLine(Db(), scope, line)
    {
      var k := StockKey(scope, line.item);
      var toReserve := Min(line.quantity, Available(Db(), k));
      if toReserve <= 0 {
        return [];
      }
      rows := AllocateSlices(scope, line, ConsumptionOrder(Db(), k), toReserve);
    }

    method PlanReservations(scope: Scope, lines: seq<ReserveLine>) returns (plan: Result<seq<Reservation>, Error>)
      ensures plan == Plan(Db(), scope, lines)
    {
      var rows := [];
      var n := 0;
      PlanFrom(Db(), scope, lines, 0, []);
      while n < |lines|
        invariant n <= |lines|
        invariant Plan(Db(), scope, lines) == After(rows, Plan(Db(), scope, lines[n..]))
      {
        PlanFrom(Db(), scope, lines, n, rows);
        if lines[n].quantity <= 0 {
          return Rejected(InvalidQuantity);
        }
        var more := AllocateLine(scope, lines[n]);
        rows := rows + more;
        n := n + 1;
      }
      assert rows + [] == rows;
      plan := Ok(rows);
    }

    /** Stores the planned rows and totals them by item. */
    method InsertReservations(scope: Scope, plan: seq<Reservation>) returns (items: seq<nat>, totals: map<nat, int>)
      requires forall r :: r in plan ==> r.status.ActiveHold? && r.key.scope == scope
      modifies this`reservations
      ensures reservations == old(reservations) + plan
      ensures items == ItemsOf(plan, IsHeld())
      ensures forall x :: x in items ==> x in totals && totals[x] == Sum(plan, QuantityOf(IsHeld(), StockKey(scope, x)))
    {
      ghost var start := reservations;
      items, totals := [], map[];
      for i := 0 to |plan|
        invariant reservations == start + plan[..i]
        invariant items == ItemsOf(plan[..i], IsHeld())
        invariant forall x :: x in items ==> x in totals && totals[x] == Sum(plan[..i], QuantityOf(IsHeld(), StockKey(scope, x)))
      {
        assert plan[..i + 1] == plan[..i] + [plan[i]];
        reservations := reservations + [plan[i]];
        items, totals := AddToTotals(scope, items, totals, plan[i], plan[..i], IsHeld());
      }
      assert plan[..|plan|] == plan;
    }

    method StoreReservations(scope: Scope, plan: seq<Reservation>) returns (error: Option<Error>)
      requires forall r :: r in plan ==> r.status.ActiveHold? && r.key.scope == scope
      modifies this
      ensures Follows(error, Db(), StorePlan(old(Db()), scope, plan))
    {
      var items, totals := InsertReservations(scope, plan);
      error := AdjustItems(scope, items, totals, 1, plan, IsHeld());
    }

    method ReserveComposition(cmd: ReserveCommand) returns (error: Option<Error>)
      modifies this
      ensures Committed(error, old(Db()), Db(), InventoryReservation.ReserveComposition(old(Db()), cmd))
    {
      var snapshot := Db();
      error := ReleaseActiveForItems(cmd.scope, CompositionItems(cmd.lines));
      if error.None? {
        var plan := PlanReservations(cmd.scope, cmd.lines);
        if plan.Rejected? {
          error := Some(plan.error);
        } else {
          PlannedRowsAreHolds(Db(), cmd.scope, cmd.lines);
          error := StoreReservations(cmd.scope, plan.value);
        }
      }
      if error.Some? {
        Restore(snapshot);
      }
    }
  }
}
