/**
 When an issue succeeds. With every hold covered, a line goes through exactly when it asks for no more than
 its own holds and what nobody holds; the rows a line leaves behind never stand in the way of a later one.
 */
module InventoryIssuable {
  import opened Wrappers
  import opened Sequences
  import opened InventoryTables
  import opened InventoryInvariant
  import opened InventoryIssue
  import opened InventoryIssueProofs
  import opened InventoryCoverage
  import opened InventoryConsumption
  import opened InventoryTotals
  import opened InventoryBookings
  import opened InventoryRuns
  import opened InventoryHolds

  // ------------------------------------------------------ what can be had

  /** What the named composition items hold of a key. */
  function HeldBy(rs: seq<Reservation>, k: StockKey, sources: seq<nat>): int {
    Sum(rs, QuantityOf(HeldFor(k, sources), k))
  }

  /** What everybody else holds of it. */
  function HeldElse(k: StockKey, sources: seq<nat>): Reservation -> int {
    (r: Reservation) => if r.key == k && r.status.ActiveHold? && r.compositionItem !in sources then r.quantity else 0
  }

  function Free(t: Tables, k: StockKey): int {
    OnHand(t, k) - Reserved(t, k)
  }

  lemma {:induction false} HoldsSplit(rs: seq<Reservation>, k: StockKey, sources: seq<nat>)
    ensures Sum(rs, HeldOf(k)) == HeldBy(rs, k, sources) + Sum(rs, HeldElse(k, sources))
  {
    if rs != [] {
      HoldsSplit(rs[..|rs| - 1], k, sources);
    }
  }

  // ------------------------------------------- free stock, batch by batch

  /** What nobody holds of a key, added up over the first n batches. */
  function FreeUpTo(t: Tables, k: StockKey, n: nat): int
    requires n <= |t.batches|
  {
    if n == 0 then 0 else FreeUpTo(t, k, n - 1) + (if t.batches[n - 1].key == k then FreeOn(t, n - 1) else 0)
  }

  function HeldUpTo(bs: seq<Batch>, rs: seq<Reservation>, k: StockKey, n: nat): int
    requires n <= |bs|
  {
    if n == 0 then 0 else HeldUpTo(bs, rs, k, n - 1) + (if bs[n - 1].key == k then Sum(rs, HeldOnBatch(n - 1)) else 0)
  }

  lemma {:induction false} FreeIsRemainingLessHeld(t: Tables, k: StockKey, n: nat)
    requires n <= |t.batches|
    ensures FreeUpTo(t, k, n) == Sum(t.batches[..n], RemainingOf(k)) - HeldUpTo(t.batches, t.reservations, k, n)
  {
    if n > 0 {
      FreeIsRemainingLessHeld(t, k, n - 1);
      assert t.batches[..n][..n - 1] == t.batches[..n - 1];
    }
  }

  lemma {:induction false} OneMoreHold(bs: seq<Batch>, rs: seq<Reservation>, r: Reservation, k: StockKey, n: nat)
    requires n <= |bs|
    ensures HeldUpTo(bs, rs + [r], k, n) == HeldUpTo(bs, rs, k, n)
            + (if r.batch < n && bs[r.batch].key == k && r.status.ActiveHold? then r.quantity else 0)
  {
    if n > 0 {
      OneMoreHold(bs, rs, r, k, n - 1);
      SumAppend(rs, r, HeldOnBatch(n - 1));
    }
  }

  lemma {:induction false} NoHolds(bs: seq<Batch>, k: StockKey, n: nat)
    requires n <= |bs|
    ensures HeldUpTo(bs, [], k, n) == 0
  {
    if n > 0 {
      NoHolds(bs, k, n - 1);
    }
  }

  /** Holds counted by batch are the holds counted by key, as each lies on a batch of its own key. */
  lemma {:induction false} HeldByBatchIsHeldByKey(bs: seq<Batch>, rs: seq<Reservation>, k: StockKey)
    requires forall i :: 0 <= i < |rs| ==> rs[i].batch < |bs| && rs[i].key == bs[rs[i].batch].key
    ensures HeldUpTo(bs, rs, k, |bs|) == Sum(rs, HeldOf(k))
    decreases rs
  {
    if rs == [] {
      NoHolds(bs, k, |bs|);
    } else {
      var n := |rs| - 1;
      HeldByBatchIsHeldByKey(bs, rs[..n], k);
      OneMoreHold(bs, rs[..n], rs[n], k, |bs|);
      assert rs == rs[..n] + [rs[n]];
    }
  }

  /** The balance's free quantity is what is free on the batches. */
  lemma FreeLiesOnBatches(t: Tables, k: StockKey)
    requires Inv(t)
    ensures FreeUpTo(t, k, |t.batches|) == Free(t, k)
  {
    FreeIsRemainingLessHeld(t, k, |t.batches|);
    assert t.batches[..|t.batches|] == t.batches;
    forall i | 0 <= i < |t.reservations|
      ensures t.reservations[i].batch < |t.batches| && t.reservations[i].key == t.batches[t.reservations[i].batch].key
    {
      assert ReservationRowOk(t, t.reservations[i]);
    }
    HeldByBatchIsHeldByKey(t.batches, t.reservations, k);
    assert OnHandAgrees(t, k) && ReservedAgrees(t, k);
  }

  lemma {:induction false} FreeOnOneBatch(t: Tables, k: StockKey, n: nat, i: nat)
    requires Covered(t) && n <= |t.batches| && i < n && t.batches[i].key == k
    ensures FreeOn(t, i) <= FreeUpTo(t, k, n)
  {
    FreeUpToIsNatural(t, k, n - 1);
    if i < n - 1 {
      assert Held(t, n - 1) <= t.batches[n - 1].remaining;
      FreeOnOneBatch(t, k, n - 1, i);
    }
  }

  lemma {:induction false} FreeUpToIsNatural(t: Tables, k: StockKey, n: nat)
    requires Covered(t) && n <= |t.batches|
    ensures FreeUpTo(t, k, n) >= 0
  {
    if n > 0 {
      assert Held(t, n - 1) <= t.batches[n - 1].remaining;
      FreeUpToIsNatural(t, k, n - 1);
    }
  }

  lemma {:induction false} NothingFree(t: Tables, k: StockKey, n: nat)
    requires n <= |t.batches| && forall i :: 0 <= i < n && t.batches[i].key == k ==> FreeOn(t, i) <= 0
    ensures FreeUpTo(t, k, n) <= 0
  {
    if n > 0 {
      NothingFree(t, k, n - 1);
    }
  }

  // -------------------------------------------------------- from free stock

  /** A slice of what nobody holds always goes through. */
  lemma FreeSliceIsBooked(t: Tables, cmd: IssueCommand, k: StockKey, i: nat, needed: int)
    requires Inv(t) && Covered(t) && i < |t.batches| && t.batches[i].key == k && needed > 0
    ensures TakeFree(t, cmd, k, i, needed).Ok?
  {
    if FreeOn(t, i) > 0 {
      var take := Min(FreeOn(t, i), needed);
      FreeOnOneBatch(t, k, |t.batches|, i);
      FreeLiesOnBatches(t, k);
      HeldIsNonNegative(t, i);
      assert BatchShapeOk(t.batches[i]);
      var m := SliceMovement(cmd, k, i, t.batches[i], take, Minted(|t.movements|));
      forall j | 0 <= j < |t.movements| ensures !SameSource(t.movements[j], m) {
        assert MovementRowOk(t, j);
      }
      assert ReservedAgrees(t, k) && Reserved(t, k) >= 0;
    }
  }

  lemma {:induction false} FreeWalkGoesThrough(t: Tables, cmd: IssueCommand, k: StockKey, order: seq<nat>, needed: int)
    requires Inv(t) && Covered(t)
    requires forall n :: 0 <= n < |order| ==> order[n] < |t.batches|
    requires forall n :: 0 <= n < |order| ==> t.batches[order[n]].key == k
    requires Distinct(order)
    ensures TakeFreeStock(t, cmd, k, order, needed).Ok?
    ensures var p := TakeFreeStock(t, cmd, k, order, needed).value;
      && Inv(p.tables) && Covered(p.tables) && |p.tables.batches| == |t.batches|
      && (forall i :: 0 <= i < |t.batches| ==> p.tables.batches[i].key == t.batches[i].key)
      && (forall i :: 0 <= i < |t.batches| && i !in order ==> FreeOn(p.tables, i) == FreeOn(t, i))
      && (p.remaining > 0 ==> forall i :: i in order ==> FreeOn(p.tables, i) <= 0)
    decreases order
  {
    if order != [] && needed > 0 {
      FreeSliceIsBooked(t, cmd, k, order[0], needed);
      var p := TakeFree(t, cmd, k, order[0], needed).value;
      TakeFreeKeepsInv(t, cmd, k, order[0], needed);
      TakeFreeKeepsCovered(t, cmd, k, order[0], needed);
      assert order[0] !in order[1..];
      FreeWalkGoesThrough(p.tables, cmd, k, order[1..], p.remaining);
      assert forall i :: i in order <==> i == order[0] || i in order[1..];
    }
  }

  lemma TakeFreeKeepsCovered(t: Tables, cmd: IssueCommand, k: StockKey, i: nat, needed: int)
    requires Covered(t) && i < |t.batches| && TakeFree(t, cmd, k, i, needed).Ok? && needed > 0
    ensures var p := TakeFree(t, cmd, k, i, needed).value;
      && Covered(p.tables) && |p.tables.batches| == |t.batches| && p.tables.reservations == t.reservations
      && (forall x :: 0 <= x < |t.batches| && x != i ==> p.tables.batches[x] == t.batches[x])
      && (p.remaining > 0 ==> FreeOn(p.tables, i) <= 0)
  {
    var p := TakeFree(t, cmd, k, i, needed).value;
    forall x | 0 <= x < |t.batches| ensures Held(p.tables, x) <= p.tables.batches[x].remaining {
      assert Held(t, x) <= t.batches[x].remaining;
    }
  }

  /** Free stock can be issued exactly as far as the balance says there is any. */
  lemma FreeStockIssuesIff(t: Tables, cmd: IssueCommand, k: StockKey, needed: int)
    requires Inv(t) && Covered(t) && needed > 0
    ensures IssueFromFreeStock(t, cmd, k, needed).Ok? <==> needed <= Free(t, k)
  {
    var order := ConsumptionOrder(t, k);
    forall n | 0 <= n < |order| ensures t.batches[order[n]].key == k {
      assert order[n] in order;
    }
    FreeWalkGoesThrough(t, cmd, k, order, needed);
    WalkTakesExactly(t, cmd, k, order, needed);
    var p := TakeFreeStock(t, cmd, k, order, needed).value;
    FreeLiesOnBatches(p.tables, k);
    assert OnHandAgrees(p.tables, k) && ReservedAgrees(p.tables, k);
    FreeUpToIsNatural(p.tables, k, |p.tables.batches|);
    if p.remaining > 0 {
      forall i | 0 <= i < |p.tables.batches| && p.tables.batches[i].key == k ensures FreeOn(p.tables, i) <= 0 {
        if i !in order {
          assert BatchShapeOk(t.batches[i]);
          HeldIsNonNegative(t, i);
        }
      }
      NothingFree(p.tables, k, |p.tables.batches|);
    }
  }

  // ------------------------------------------------------------ from holds

  /** An active hold no issue has booked yet can be consumed, whatever is asked of it. */
  lemma HoldIsConsumed(t: Tables, cmd: IssueCommand, row: nat, needed: int)
    requires Inv(t) && Covered(t) && row < |t.reservations| && t.reservations[row].status.ActiveHold?
    requires NotBooked(t.movements, row)
    ensures ConsumeHold(t, cmd, t.reservations[row].key, row, needed).Ok?
  {
    var hold := t.reservations[row];
    var k := hold.key;
    assert ReservationRowOk(t, hold);
    forall r | r in t.reservations ensures HeldOnBatch(hold.batch)(r) >= 0 && HeldOf(k)(r) >= 0 {
      var j :| 0 <= j < |t.reservations| && t.reservations[j] == r;
      assert ReservationRowOk(t, t.reservations[j]);
    }
    SumNonNegative(t.reservations, HeldOnBatch(hold.batch));
    SumNonNegative(t.reservations, HeldOf(k));
    assert HeldOnBatch(hold.batch)(t.reservations[row]) == hold.quantity == HeldOf(k)(t.reservations[row]);
    assert Held(t, hold.batch) <= t.batches[hold.batch].remaining;
    assert BatchShapeOk(t.batches[hold.batch]);
    assert ReservedAgrees(t, k);
  }

  /** A line's holds after it: all spent or released, everybody else's as they were. */
  ghost predicate HoldsGone(rs: seq<Reservation>, rs': seq<Reservation>, k: StockKey, sources: seq<nat>) {
    && |rs'| == |rs|
    && forall i :: 0 <= i < |rs| ==>
         if HeldFor(k, sources)(rs[i]) then !rs'[i].status.ActiveHold? else rs'[i] == rs[i]
  }

  /** While they are being consumed some are still there, for what is left of them. */
  ghost predicate HoldsGoing(rs: seq<Reservation>, rs': seq<Reservation>, k: StockKey, sources: seq<nat>) {
    && |rs'| == |rs|
    && forall i :: 0 <= i < |rs| ==>
         if HeldFor(k, sources)(rs[i]) then HeldFor(k, sources)(rs'[i]) || !rs'[i].status.ActiveHold? else rs'[i] == rs[i]
  }

  ghost predicate OwnRows(t: Tables, k: StockKey, sources: seq<nat>, rows: seq<nat>) {
    && (forall n :: 0 <= n < |rows| ==> rows[n] < |t.reservations|)
    && (forall n :: 0 <= n < |rows| ==> HeldFor(k, sources)(t.reservations[rows[n]]) && NotBooked(t.movements, rows[n]))
    && (forall a, b :: 0 <= a < b < |rows| ==> rows[a] < rows[b])
  }

  /** Consuming a hold takes the same from the line's need, from the item and from what the line holds. */
  lemma HoldConsumed(t: Tables, cmd: IssueCommand, k: StockKey, sources: seq<nat>, row: nat, needed: int)
    requires Inv(t) && Covered(t) && row < |t.reservations| && HeldFor(k, sources)(t.reservations[row]) && needed > 0
    requires ConsumeHold(t, cmd, k, row, needed).Ok?
    ensures var p := ConsumeHold(t, cmd, k, row, needed).value;
      && Inv(p.tables) && Covered(p.tables) && 0 <= p.remaining
      && HoldsGoing(t.reservations, p.tables.reservations, k, sources)
      && HeldBy(p.tables.reservations, k, sources) == HeldBy(t.reservations, k, sources) - (needed - p.remaining)
      && (p.remaining > 0 ==> !p.tables.reservations[row].status.ActiveHold?)
  {
    var p := ConsumeHold(t, cmd, k, row, needed).value;
    assert ReservationRowOk(t, t.reservations[row]);
    ConsumeHoldKeepsInv(t, cmd, k, row, needed);
    ConsumeHoldNoTighter(t, cmd, k, row, needed);
    NoTighterKeepsCovered(t, p.tables);
    SumUpdate(t.reservations, row, p.tables.reservations[row], QuantityOf(HeldFor(k, sources), k));
  }

  /** The rows still to come are as they were, and still not booked. */
  lemma RestIsUntouched(t: Tables, cmd: IssueCommand, k: StockKey, sources: seq<nat>, rows: seq<nat>, needed: int)
    requires rows != [] && OwnRows(t, k, sources, rows) && ConsumeHold(t, cmd, k, rows[0], needed).Ok?
    ensures OwnRows(ConsumeHold(t, cmd, k, rows[0], needed).value.tables, k, sources, rows[1..])
  {
    var t1 := ConsumeHold(t, cmd, k, rows[0], needed).value.tables;
    forall n | 0 <= n < |rows[1..]|
      ensures t1.reservations[rows[1..][n]] == t.reservations[rows[n + 1]] && NotBooked(t1.movements, rows[1..][n])
    {
      assert NotBooked(t.movements, rows[n + 1]);
    }
  }

  lemma {:induction false} OwnHoldsAreConsumed(t: Tables, cmd: IssueCommand, k: StockKey, sources: seq<nat>, rows: seq<nat>, needed: int)
    requires Inv(t) && Covered(t) && OwnRows(t, k, sources, rows) && needed >= 0
    ensures ConsumeHolds(t, cmd, k, rows, needed).Ok?
    ensures var p := ConsumeHolds(t, cmd, k, rows, needed).value;
      && Inv(p.tables) && Covered(p.tables) && 0 <= p.remaining
      && HoldsGoing(t.reservations, p.tables.reservations, k, sources)
      && HeldBy(p.tables.reservations, k, sources) == HeldBy(t.reservations, k, sources) - (needed - p.remaining)
      && (p.remaining > 0 ==> forall i :: i in rows ==> !p.tables.reservations[i].status.ActiveHold?)
    decreases rows
  {
    if rows != [] && needed > 0 {
      HoldIsConsumed(t, cmd, rows[0], needed);
      HoldConsumed(t, cmd, k, sources, rows[0], needed);
      RestIsUntouched(t, cmd, k, sources, rows, needed);
      var p := ConsumeHold(t, cmd, k, rows[0], needed).value;
      OwnHoldsAreConsumed(p.tables, cmd, k, sources, rows[1..], p.remaining);
      assert forall i :: i in rows ==> i == rows[0] || i in rows[1..];
    }
  }

  lemma ExcessIsReleased(t: Tables, k: StockKey, sources: seq<nat>)
    requires Inv(t) && Covered(t)
    ensures ReleaseExcess(t, k, sources).Ok?
    ensures var t' := ReleaseExcess(t, k, sources).value;
      Inv(t') && Covered(t') && t'.reservations == ReleaseRows(t.reservations, HeldFor(k, sources))
  {
    HoldsSplit(t.reservations, k, sources);
    forall r | r in t.reservations ensures HeldElse(k, sources)(r) >= 0 && QuantityOf(HeldFor(k, sources), k)(r) >= 0 {
      var j :| 0 <= j < |t.reservations| && t.reservations[j] == r;
      assert ReservationRowOk(t, t.reservations[j]);
    }
    SumNonNegative(t.reservations, HeldElse(k, sources));
    SumNonNegative(t.reservations, QuantityOf(HeldFor(k, sources), k));
    assert ReservedAgrees(t, k);
    ReleaseExcessKeepsInv(t, k, sources);
    ReleaseNoTighter(t, ReleaseExcess(t, k, sources).value, HeldFor(k, sources));
    NoTighterKeepsCovered(t, ReleaseExcess(t, k, sources).value);
  }

  lemma {:induction false} NoneHeld(rs: seq<Reservation>, k: StockKey, sources: seq<nat>)
    requires forall i :: 0 <= i < |rs| ==> !HeldFor(k, sources)(rs[i])
    ensures HeldBy(rs, k, sources) == 0
  {
    if rs != [] {
      NoneHeld(rs[..|rs| - 1], k, sources);
    }
  }

  /** The holds part of a line always goes through; it leaves a need only when the line's holds are used up. */
  lemma OwnHoldsGoThrough(t: Tables, cmd: IssueCommand, k: StockKey, line: IssueLine)
    requires Inv(t) && Covered(t) && Unbooked(t) && line.quantity >= 0
    ensures IssueReserved(t, cmd, k, line).Ok?
    ensures var p := IssueReserved(t, cmd, k, line).value; var held := HeldBy(t.reservations, k, line.sources);
      && Inv(p.tables) && Covered(p.tables)
      && HoldsGone(t.reservations, p.tables.reservations, k, line.sources)
      && 0 <= p.remaining && line.quantity - held <= p.remaining
      && (p.remaining > 0 ==> p.remaining == line.quantity - held)
  {
    if line.sources == [] {
      NoneHeld(t.reservations, k, line.sources);
    } else {
      var rows := Matching(t.reservations, HeldFor(k, line.sources));
      forall n | 0 <= n < |rows|
        ensures HeldFor(k, line.sources)(t.reservations[rows[n]]) && NotBooked(t.movements, rows[n])
      {
        assert rows[n] in rows;
        ActiveIsNotBooked(t, rows[n]);
      }
      OwnHoldsAreConsumed(t, cmd, k, line.sources, rows, line.quantity);
      var p := ConsumeHolds(t, cmd, k, rows, line.quantity).value;
      ExcessIsReleased(p.tables, k, line.sources);
      HeldIsNatural(p.tables, k, line.sources);
      if p.remaining > 0 {
        forall i | 0 <= i < |t.reservations| ensures !HeldFor(k, line.sources)(p.tables.reservations[i]) {
          assert HeldFor(k, line.sources)(t.reservations[i]) ==> i in rows;
        }
        NoneHeld(p.tables.reservations, k, line.sources);
      }
    }
  }

  lemma HeldIsNatural(t: Tables, k: StockKey, sources: seq<nat>)
    requires HoldInv(t)
    ensures HeldBy(t.reservations, k, sources) >= 0
  {
    forall r | r in t.reservations ensures QuantityOf(HeldFor(k, sources), k)(r) >= 0 {
      var j :| 0 <= j < |t.reservations| && t.reservations[j] == r;
      assert ReservationRowOk(t, t.reservations[j]);
    }
    SumNonNegative(t.reservations, QuantityOf(HeldFor(k, sources), k));
  }

  /** Everybody else's holds are the same before and after. */
  lemma {:induction false} OthersHoldTheSame(rs: seq<Reservation>, rs': seq<Reservation>, k: StockKey, sources: seq<nat>)
    requires HoldsGone(rs, rs', k, sources)
    ensures Sum(rs', HeldOf(k)) == Sum(rs, HeldElse(k, sources))
    decreases rs
  {
    if rs != [] {
      OthersHoldTheSame(rs[..|rs| - 1], rs'[..|rs| - 1], k, sources);
    }
  }

  // ------------------------------------------------------------- one line

  /**
   With holds covered, a line is issued exactly when it asks for something, and for no more than its own
   holds and the free stock together. It leaves its holds spent or released and nobody else's changed.
   */
  lemma LineIssuesIff(t: Tables, cmd: IssueCommand, line: IssueLine)
    requires Inv(t) && Covered(t) && Unbooked(t)
    ensures var k := StockKey(cmd.scope, line.item);
      IssueOneLine(t, cmd, line).Ok? <==>
        line.quantity > 0 && line.quantity <= HeldBy(t.reservations, k, line.sources) + Free(t, k)
  {
    var k := StockKey(cmd.scope, line.item);
    if line.quantity > 0 {
      OwnHoldsGoThrough(t, cmd, k, line);
      var p := IssueReserved(t, cmd, k, line).value;
      FreeAfterHolds(t, cmd, line);
      if p.remaining > 0 {
        FreeStockIssuesIff(p.tables, cmd, k, p.remaining);
      } else {
        assert ReservedAgrees(p.tables, k);
        FreeLiesOnBatches(t, k);
        FreeUpToIsNatural(t, k, |t.batches|);
      }
    }
  }

  /** What is free once the line's holds are consumed and released: what was, and what the holds did not need. */
  lemma FreeAfterHolds(t: Tables, cmd: IssueCommand, line: IssueLine)
    requires Inv(t) && Covered(t) && Unbooked(t) && line.quantity > 0
    requires IssueReserved(t, cmd, StockKey(cmd.scope, line.item), line).Ok?
    ensures var k := StockKey(cmd.scope, line.item); var p := IssueReserved(t, cmd, k, line).value;
      Free(p.tables, k) == Free(t, k) + HeldBy(t.reservations, k, line.sources) - (line.quantity - p.remaining)
  {
    var k := StockKey(cmd.scope, line.item);
    var p := IssueReserved(t, cmd, k, line).value;
    OwnHoldsGoThrough(t, cmd, k, line);
    IssueReservedMoves(t, cmd, k, line, k);
    OthersHoldTheSame(t.reservations, p.tables.reservations, k, line.sources);
    HoldsSplit(t.reservations, k, line.sources);
    assert ReservedAgrees(t, k) && ReservedAgrees(p.tables, k);
  }

  // ------------------------------------------------------------- all lines

  /** The composition items named by the lines for one item. */
  function SourcesOf(lines: seq<IssueLine>, item: nat): seq<nat> {
    if lines == [] then []
    else (if lines[0].item == item then lines[0].sources else []) + SourcesOf(lines[1..], item)
  }

  /** Up to and with its n-th line, the command asks for no more of the item than its lines hold and nobody holds. */
  predicate Enough(t: Tables, scope: Scope, lines: seq<IssueLine>, n: nat)
    requires n < |lines|
  {
    var k := StockKey(scope, lines[n].item);
    Sum(lines[..n + 1], AskedFor(scope, k))
      <= HeldBy(t.reservations, k, SourcesOf(lines[..n + 1], lines[n].item)) + Free(t, k)
  }

  predicate CanIssue(t: Tables, scope: Scope, lines: seq<IssueLine>) {
    forall n :: 0 <= n < |lines| ==> lines[n].quantity > 0 && Enough(t, scope, lines, n)
  }

  lemma {:induction false} HeldByRest(rs: seq<Reservation>, rs': seq<Reservation>, k: StockKey, sources: seq<nat>, x: StockKey, more: seq<nat>)
    requires HoldsGone(rs, rs', k, sources)
    ensures HeldBy(rs', x, more) == if x == k then HeldBy(rs, k, sources + more) - HeldBy(rs, k, sources) else HeldBy(rs, x, more)
    ensures x != k ==> Sum(rs', HeldOf(x)) == Sum(rs, HeldOf(x))
    decreases rs
  {
    if rs != [] {
      HeldByRest(rs[..|rs| - 1], rs'[..|rs| - 1], k, sources, x, more);
    }
  }

  /** What a line that goes through leaves for the others. */
  lemma AfterOneLine(t: Tables, cmd: IssueCommand, line: IssueLine, x: StockKey)
    requires Inv(t) && Covered(t) && Unbooked(t) && IssueOneLine(t, cmd, line).Ok?
    ensures var t' := IssueOneLine(t, cmd, line).value; var k := StockKey(cmd.scope, line.item);
      && Inv(t') && Covered(t') && Unbooked(t')
      && HoldsGone(t.reservations, t'.reservations, k, line.sources)
      && Free(t', x) == Free(t, x) + (if x == k then HeldBy(t.reservations, k, line.sources) - line.quantity else 0)
  {
    var t' := IssueOneLine(t, cmd, line).value;
    var k := StockKey(cmd.scope, line.item);
    IssueOneLineKeepsInv(t, cmd, line);
    IssueOneLineKeepsCovered(t, cmd, line);
    IssueOneLineStaysUnbooked(t, cmd, line);
    OwnHoldsGoThrough(t, cmd, k, line);
    var p := IssueReserved(t, cmd, k, line).value;
    if p.remaining > 0 {
      WalkTakesFrontFirst(p.tables, cmd, k, ConsumptionOrder(p.tables, k), p.remaining);
    }
    assert t'.reservations == p.tables.reservations;
    IssueOneLineMoves(t, cmd, line, x);
    OthersHoldTheSame(t.reservations, t'.reservations, k, line.sources);
    HoldsSplit(t.reservations, k, line.sources);
    HeldByRest(t.reservations, t'.reservations, k, line.sources, x, []);
    assert ReservedAgrees(t, x) && ReservedAgrees(t', x);
  }

  /** The first line gone, the others meet their own condition exactly when they met it together with it. */
  lemma EnoughForRest(t: Tables, cmd: IssueCommand, lines: seq<IssueLine>, n: nat)
    requires Inv(t) && Covered(t) && Unbooked(t) && lines != [] && IssueOneLine(t, cmd, lines[0]).Ok?
    requires n < |lines| - 1
    ensures Enough(IssueOneLine(t, cmd, lines[0]).value, cmd.scope, lines[1..], n) <==> Enough(t, cmd.scope, lines, n + 1)
  {
    hide IssueOneLine, Inv, Covered, Unbooked, Free;
    var t' := IssueOneLine(t, cmd, lines[0]).value;
    var item := lines[n + 1].item;
    var x := StockKey(cmd.scope, item);
    AfterOneLine(t, cmd, lines[0], x);
    assert lines[..n + 2][1..] == lines[1..][..n + 1] && lines[..n + 2][0] == lines[0];
    SumFromHead(lines[..n + 2], AskedFor(cmd.scope, x));
    var rest := SourcesOf(lines[1..][..n + 1], item);
    HeldByRest(t.reservations, t'.reservations, StockKey(cmd.scope, lines[0].item), lines[0].sources, x, rest);
    assert lines[0].item != item ==> [] + rest == rest;
  }

  lemma EnoughForOne(t: Tables, scope: Scope, lines: seq<IssueLine>)
    requires lines != []
    ensures var k := StockKey(scope, lines[0].item);
      Enough(t, scope, lines, 0) <==> lines[0].quantity <= HeldBy(t.reservations, k, lines[0].sources) + Free(t, k)
  {
    assert lines[..1] == [lines[0]];
    SumFromHead([lines[0]], AskedFor(scope, StockKey(scope, lines[0].item)));
    assert SourcesOf([lines[0]], lines[0].item) == lines[0].sources + [] == lines[0].sources;
  }

  lemma EnoughForFirst(t: Tables, cmd: IssueCommand, lines: seq<IssueLine>)
    requires Inv(t) && Covered(t) && Unbooked(t) && lines != []
    ensures IssueOneLine(t, cmd, lines[0]).Ok? <==> lines[0].quantity > 0 && Enough(t, cmd.scope, lines, 0)
  {
    hide IssueOneLine, Enough;
    LineIssuesIff(t, cmd, lines[0]);
    EnoughForOne(t, cmd.scope, lines);
  }

  lemma {:induction false} LinesIssueIff(t: Tables, cmd: IssueCommand, lines: seq<IssueLine>)
    requires Inv(t) && Covered(t) && Unbooked(t)
    ensures IssueLines(t, cmd, lines).Ok? <==> CanIssue(t, cmd.scope, lines)
    decreases lines
  {
    if lines != [] {
      EnoughForFirst(t, cmd, lines);
      if IssueOneLine(t, cmd, lines[0]).Ok? {
        var t' := IssueOneLine(t, cmd, lines[0]).value;
        AfterOneLine(t, cmd, lines[0], StockKey(cmd.scope, 0));
        LinesIssueIff(t', cmd, lines[1..]);
        forall n | 0 <= n < |lines| - 1
          ensures lines[1..][n] == lines[n + 1]
          ensures Enough(t', cmd.scope, lines[1..], n) <==> Enough(t, cmd.scope, lines, n + 1)
        {
          EnoughForRest(t, cmd, lines, n);
        }
        CanIssueShifts(t, t', cmd.scope, lines);
      }
    }
  }

  lemma CanIssueShifts(t: Tables, t': Tables, scope: Scope, lines: seq<IssueLine>)
    requires lines != [] && lines[0].quantity > 0 && Enough(t, scope, lines, 0)
    requires forall n :: 0 <= n < |lines| - 1 ==> (Enough(t', scope, lines[1..], n) <==> Enough(t, scope, lines, n + 1))
    ensures CanIssue(t', scope, lines[1..]) <==> CanIssue(t, scope, lines)
  {
    if CanIssue(t', scope, lines[1..]) {
      forall n | 0 <= n < |lines| ensures lines[n].quantity > 0 && Enough(t, scope, lines, n) {
        if n > 0 {
          assert lines[1..][n - 1].quantity > 0 && Enough(t', scope, lines[1..], n - 1);
        }
      }
    }
    if CanIssue(t, scope, lines) {
      forall n | 0 <= n < |lines[1..]| ensures lines[1..][n].quantity > 0 && Enough(t', scope, lines[1..], n) {
        assert lines[n + 1].quantity > 0 && Enough(t, scope, lines, n + 1);
      }
    }
  }

  /**
   While holds are covered, an issue under a fresh key commits exactly when every quantity is positive and the
   lines ask, item by item and in their order, for no more than their own holds and the free stock.
   */
  lemma IssueSucceedsIff(t: Tables, cmd: IssueCommand)
    requires Inv(t) && Covered(t) && Unbooked(t)
    requires IdempotencyKey(cmd.scope.org, cmd.keyScope, cmd.key) !in t.keys
    ensures IssueStock(t, cmd).Ok? <==> CanIssue(t, cmd.scope, cmd.lines)
  {
    LinesIssueIff(t, cmd, cmd.lines);
  }

  /** So it is after every careful run: what a command asks for, and nothing else it left behind, decides. */
  lemma CarefulRunsIssueIff(cs: seq<Command>, cmd: IssueCommand)
    requires RunAddressed(EMPTY, cs) && RunCareful(EMPTY, cs)
    requires IdempotencyKey(cmd.scope.org, cmd.keyScope, cmd.key) !in Run(EMPTY, cs).keys
    ensures IssueStock(Run(EMPTY, cs), cmd).Ok? <==> CanIssue(Run(EMPTY, cs), cmd.scope, cmd.lines)
  {
    EmptyInv();
    RunKeepsInv(EMPTY, cs);
    CarefulRunsKeepHoldsCovered(EMPTY, cs);
    RunStaysUnbooked(EMPTY, cs);
    IssueSucceedsIff(Run(EMPTY, cs), cmd);
  }
}
