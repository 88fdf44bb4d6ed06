/** Reserving stock for composition lines, and releasing it. */
module InventoryReservation {
  import opened Wrappers
  import opened Sequences
  import opened InventoryTables
  import opened InventoryInvariant
  import opened InventoryIssue
  import opened InventoryIssueProofs

  datatype ReserveLine = ReserveLine(compositionItem: nat, item: nat, quantity: int)

  datatype ReserveCommand = ReserveCommand(scope: Scope, lines: seq<ReserveLine>)

  datatype ReleaseCommand = ReleaseCommand(scope: Scope, compositionItems: seq<nat>)

  // ------------------------------------------------------ totals per item

  function IsHeld(): Reservation -> bool {
    (r: Reservation) => r.status.ActiveHold?
  }

  function HeldIn(scope: Scope, compositionItems: seq<nat>): Reservation -> bool {
    (r: Reservation) => r.key.scope == scope && r.compositionItem in compositionItems && r.status.ActiveHold?
  }

  /** The items of the selected rows, each once, in the order they are first met. */
  function ItemsOf(rs: seq<Reservation>, p: Reservation -> bool): (items: seq<nat>)
    ensures forall r :: r in rs && p(r) ==> r.key.item in items
    ensures forall a, b :: 0 <= a < b < |items| ==> items[a] != items[b]
    ensures forall x :: x in items ==> exists r :: r in rs && p(r) && r.key.item == x
  {
    if rs == [] then []
    else
      var items := ItemsOf(rs[..|rs| - 1], p);
      var r := rs[|rs| - 1];
      assert rs == rs[..|rs| - 1] + [r];
      if p(r) && r.key.item !in items then items + [r.key.item] else items
  }

  /** Adds sign times each item's selected quantity to its reserved balance. */
  function AdjustEach(t: Tables, scope: Scope, items: seq<nat>, rs: seq<Reservation>, p: Reservation -> bool, sign: int)
    : (r: Result<Tables, Error>)
    ensures r.Ok? ==> Extends(t, r.value)
    decreases items
  {
    if items == [] then Ok(t)
    else
      var k := StockKey(scope, items[0]);
      var t1 :- AdjustReserved(t, k, sign * Sum(rs, QuantityOf(p, k)));
      AdjustEach(t1, scope, items[1..], rs, p, sign)
  }

  lemma {:induction false} AdjustEachEffect(
    t: Tables, scope: Scope, items: seq<nat>, rs: seq<Reservation>, p: Reservation -> bool, sign: int)
    requires BalanceInv(t) && AdjustEach(t, scope, items, rs, p, sign).Ok?
    requires forall x :: x in items ==> StockKey(scope, x) in t.balances
    requires forall a, b :: 0 <= a < b < |items| ==> items[a] != items[b]
    ensures var t' := AdjustEach(t, scope, items, rs, p, sign).value;
      && t' == t.(balances := t'.balances) && BalanceInv(t') && t.balances.Keys <= t'.balances.Keys
      && (forall k :: OnHand(t', k) == OnHand(t, k))
      && (forall k :: Reserved(t', k) == Reserved(t, k) +
            (if k.scope == scope && k.item in items then sign * Sum(rs, QuantityOf(p, k)) else 0))
    decreases items
  {
    if items != [] {
      var k := StockKey(scope, items[0]);
      var delta := sign * Sum(rs, QuantityOf(p, k));
      AdjustReservedEffect(t, k, delta);
      var t1 := AdjustReserved(t, k, delta).value;
      assert items[0] !in items[1..];
      assert forall x :: x in items <==> x == items[0] || x in items[1..];
      AdjustEachEffect(t1, scope, items[1..], rs, p, sign);
    }
  }

  // --------------------------------------------------------------- release

  function ReleaseActive(t: Tables, scope: Scope, compositionItems: seq<nat>): (r: Result<Tables, Error>)
    ensures r.Ok? ==> Extends(t, r.value)
  {
    var active := HeldIn(scope, compositionItems);
    var t1 := t.(reservations := ReleaseRows(t.reservations, active));
    AdjustEach(t1, scope, ItemsOf(t.reservations, active), t.reservations, active, -1)
  }

  function ReleaseComposition(t: Tables, cmd: ReleaseCommand): (r: Result<Tables, Error>)
    ensures r.Ok? ==> Extends(t, r.value)
  {
    ReleaseActive(t, cmd.scope, cmd.compositionItems)
  }

  lemma SelectedItemHasBalance(t: Tables, scope: Scope, p: Reservation -> bool, r: Reservation)
    requires HoldInv(t) && r in t.reservations && p(r) && r.key.scope == scope
    requires forall r :: p(r) ==> r.status.ActiveHold?
    ensures r.key in t.balances
  {
    forall x | x in t.reservations ensures QuantityOf(p, r.key)(x) >= 0 {
      var i :| 0 <= i < |t.reservations| && t.reservations[i] == x;
      assert ReservationRowOk(t, t.reservations[i]);
    }
    SumNonNegative(t.reservations, QuantityOf(p, r.key));
    var i :| 0 <= i < |t.reservations| && t.reservations[i] == r;
    assert ReservationRowOk(t, t.reservations[i]);
    assert QuantityOf(p, r.key)(t.reservations[i]) > 0;
    HeldKeyHasBalance(t, p, r.key);
  }

  /** What is released of a key: nothing, if its item is not among those selected. */
  lemma ReleasedKeyAgrees(t: Tables, active: Reservation -> bool, scope: Scope, items: seq<nat>, k: StockKey)
    requires forall r :: active(r) ==> r.status.ActiveHold? && r.key.scope == scope
    requires forall r :: r in t.reservations && active(r) ==> r.key.item in items
    ensures Sum(ReleaseRows(t.reservations, active), HeldOf(k))
            == Sum(t.reservations, HeldOf(k)) - (if k.scope == scope && k.item in items then Sum(t.reservations, QuantityOf(active, k)) else 0)
  {
    ReleaseRowsSum(t.reservations, active, k);
    if !(k.scope == scope && k.item in items) { SumZero(t.reservations, QuantityOf(active, k)); }
  }

  lemma ReleaseActiveKeepsInv(t: Tables, scope: Scope, compositionItems: seq<nat>)
    requires Inv(t) && ReleaseActive(t, scope, compositionItems).Ok?
    ensures Inv(ReleaseActive(t, scope, compositionItems).value)
  {
    var active := HeldIn(scope, compositionItems);
    var items := ItemsOf(t.reservations, active);
    var t1 := t.(reservations := ReleaseRows(t.reservations, active));
    forall x | x in items ensures StockKey(scope, x) in t1.balances {
      var r :| r in t.reservations && active(r) && r.key.item == x;
      SelectedItemHasBalance(t, scope, active, r);
    }
    AdjustEachEffect(t1, scope, items, t.reservations, active, -1);
    var t' := ReleaseActive(t, scope, compositionItems).value;
    SameStock(t, t');
    forall k ensures ReservedAgrees(t', k) {
      assert ReservedAgrees(t, k);
      ReleasedKeyAgrees(t, active, scope, items, k);
    }
    forall i | 0 <= i < |t'.reservations| ensures ReservationRowOk(t', t'.reservations[i]) {
      assert ReservationRowOk(t, t.reservations[i]);
    }
  }

  // --------------------------------------------------------------- reserve

  function Available(t: Tables, k: StockKey): int {
    if k in t.balances && t.balances[k].available > 0 then t.balances[k].available else 0
  }

  function Allocate(t: Tables, scope: Scope, line: ReserveLine, order: seq<nat>, remaining: int): seq<Reservation>
    requires forall n :: 0 <= n < |order| ==> order[n] < |t.batches|
    decreases order
  {
    if order == [] || remaining <= 0 then []
    else
      var free := FreeOn(t, order[0]);
      if free <= 0 then Allocate(t, scope, line, order[1..], remaining)
      else
        var take := Min(free, remaining);
        [Reservation(StockKey(scope, line.item), order[0], line.compositionItem, take, ActiveHold)]
          + Allocate(t, scope, line, order[1..], remaining - take)
  }

  function PlanLine(t: Tables, scope: Scope, line: ReserveLine): seq<Reservation> {
    var k := StockKey(scope, line.item);
    var toReserve := Min(line.quantity, Available(t, k));
    if toReserve <= 0 then [] else Allocate(t, scope, line, ConsumptionOrder(t, k), toReserve)
  }

  /** Every line is planned against the tables as they are before any of the new holds is stored. */
  function Plan(t: Tables, scope: Scope, lines: seq<ReserveLine>): Result<seq<Reservation>, Error>
    decreases lines
  {
    if lines == [] then Ok([])
    else if lines[0].quantity <= 0 then Rejected(InvalidQuantity)
    else
      var rest :- Plan(t, scope, lines[1..]);
      Ok(PlanLine(t, scope, lines[0]) + rest)
  }

  function CompositionItems(lines: seq<ReserveLine>): seq<nat> {
    seq(|lines|, i requires 0 <= i < |lines| => lines[i].compositionItem)
  }

  function StorePlan(t: Tables, scope: Scope, plan: seq<Reservation>): (r: Result<Tables, Error>)
    ensures r.Ok? ==> Extends(t, r.value)
  {
    AdjustEach(t.(reservations := t.reservations + plan), scope, ItemsOf(plan, IsHeld()), plan, IsHeld(), 1)
  }

  function ReserveComposition(t: Tables, cmd: ReserveCommand): (r: Result<Tables, Error>)
    ensures r.Ok? ==> Extends(t, r.value)
  {
    var t1 :- ReleaseActive(t, cmd.scope, CompositionItems(cmd.lines));
    var plan :- Plan(t1, cmd.scope, cmd.lines);
    StorePlan(t1, cmd.scope, plan)
  }

  /** What the planning loops may emit: positive active holds on existing batches of known items. */
  ghost predicate PlannedRow(t: Tables, scope: Scope, r: Reservation) {
    && r.status.ActiveHold? && r.quantity > 0 && r.key.scope == scope
    && r.batch < |t.batches| && t.batches[r.batch].key == r.key && r.key in t.balances
  }

  lemma {:induction false} AllocateRows(t: Tables, scope: Scope, line: ReserveLine, order: seq<nat>, remaining: int)
    requires forall n :: 0 <= n < |order| ==> order[n] < |t.batches|
    requires forall n :: 0 <= n < |order| ==> t.batches[order[n]].key == StockKey(scope, line.item)
    requires StockKey(scope, line.item) in t.balances
    ensures forall r :: r in Allocate(t, scope, line, order, remaining) ==> PlannedRow(t, scope, r)
    decreases order
  {
    if order != [] && remaining > 0 {
      var free := FreeOn(t, order[0]);
      var left := if free <= 0 then remaining else remaining - Min(free, remaining);
      AllocateRows(t, scope, line, order[1..], left);
    }
  }

  lemma PlanLineRows(t: Tables, scope: Scope, line: ReserveLine)
    ensures forall r :: r in PlanLine(t, scope, line) ==> PlannedRow(t, scope, r)
  {
    var k := StockKey(scope, line.item);
    var toReserve := Min(line.quantity, Available(t, k));
    if toReserve > 0 {
      var order := ConsumptionOrder(t, k);
      forall n | 0 <= n < |order| ensures t.batches[order[n]].key == k {
        assert order[n] in order;
      }
      AllocateRows(t, scope, line, order, toReserve);
    }
  }

  lemma {:induction false} PlanRows(t: Tables, scope: Scope, lines: seq<ReserveLine>)
    requires Plan(t, scope, lines).Ok?
    ensures forall r :: r in Plan(t, scope, lines).value ==> PlannedRow(t, scope, r)
    decreases lines
  {
    if lines != [] {
      PlanLineRows(t, scope, lines[0]);
      PlanRows(t, scope, lines[1..]);
    }
  }

  /** The planned rows of a key are active holds of the scope, or there are none. */
  lemma PlanIsHeld(t: Tables, scope: Scope, plan: seq<Reservation>, k: StockKey)
    requires forall r :: r in plan ==> PlannedRow(t, scope, r)
    ensures Sum(plan, HeldOf(k))
      == if k.scope == scope && k.item in ItemsOf(plan, IsHeld()) then Sum(plan, QuantityOf(IsHeld(), k)) else 0
  {
    if k.scope == scope && k.item in ItemsOf(plan, IsHeld()) {
      SumAgree(plan, HeldOf(k), QuantityOf(IsHeld(), k));
    } else {
      SumZero(plan, HeldOf(k));
    }
  }

  lemma StorePlanKeepsInv(t: Tables, scope: Scope, plan: seq<Reservation>)
    requires Inv(t) && StorePlan(t, scope, plan).Ok?
    requires forall r :: r in plan ==> PlannedRow(t, scope, r)
    ensures Inv(StorePlan(t, scope, plan).value)
  {
    var items := ItemsOf(plan, IsHeld());
    var t1 := t.(reservations := t.reservations + plan);
    AdjustEachEffect(t1, scope, items, plan, IsHeld(), 1);
    var t' := StorePlan(t, scope, plan).value;
    SameStock(t, t');
    hide StockInv, StorePlan;
    forall k ensures ReservedAgrees(t', k) {
      assert ReservedAgrees(t, k);
      SumConcat(t.reservations, plan, HeldOf(k));
      PlanIsHeld(t, scope, plan, k);
    }
    forall i | 0 <= i < |t'.reservations| ensures ReservationRowOk(t', t'.reservations[i]) {
      if i < |t.reservations| {
        assert ReservationRowOk(t, t.reservations[i]);
      } else {
        assert t'.reservations[i] in plan;
      }
    }
  }

  lemma ReserveKeepsInv(t: Tables, cmd: ReserveCommand)
    requires Inv(t) && ReserveComposition(t, cmd).Ok?
    ensures Inv(ReserveComposition(t, cmd).value)
  {
    ReleaseActiveKeepsInv(t, cmd.scope, CompositionItems(cmd.lines));
    var t1 := ReleaseActive(t, cmd.scope, CompositionItems(cmd.lines)).value;
    PlanRows(t1, cmd.scope, cmd.lines);
    StorePlanKeepsInv(t1, cmd.scope, Plan(t1, cmd.scope, cmd.lines).value);
  }
}
