/**
 When a reservation overbooks a batch. All lines of a command are planned against the same free stock, so
 lines for the same item may claim the same quantity twice: the exact condition under which they do not.
 */
module InventoryOverbooking {
  import opened Wrappers
  import opened Sequences
  import opened InventoryTables
  import opened InventoryInvariant
  import opened InventoryIssue
  import opened InventoryIssueProofs
  import opened InventoryReservation
  import opened InventoryCoverage

  // --------------------------------------------------------- the condition

  predicate ItemOnce(lines: seq<ReserveLine>, item: nat) {
    forall a, b :: 0 <= a < b < |lines| ==> !(lines[a].item == item && lines[b].item == item)
  }

  /** What one line will hold of an item, as far as the balance allows. */
  function Want(t: Tables, scope: Scope, line: ReserveLine): int {
    Min(line.quantity, Available(t, StockKey(scope, line.item)))
  }

  function WantOf(t: Tables, scope: Scope, item: nat): ReserveLine -> int {
    (line: ReserveLine) => if line.item == item then Want(t, scope, line) else 0
  }

  /** The first batch of the order with anything free. */
  function FirstFree(t: Tables, order: seq<nat>): (first: Option<nat>)
    requires forall n :: 0 <= n < |order| ==> order[n] < |t.batches|
    ensures first.Some? ==> first.value in order && first.value < |t.batches| && FreeOn(t, first.value) > 0
    ensures first.None? ==> forall i :: i in order ==> FreeOn(t, i) <= 0
    decreases order
  {
    if order == [] then None
    else if FreeOn(t, order[0]) > 0 then Some(order[0])
    else
      assert forall i :: i in order ==> i == order[0] || i in order[1..];
      FirstFree(t, order[1..])
  }

  /** All lines for the item together fit the first batch they will turn to. */
  predicate FitsFirstBatch(t: Tables, scope: Scope, lines: seq<ReserveLine>, item: nat) {
    var first := FirstFree(t, ConsumptionOrder(t, StockKey(scope, item)));
    first.None? || Sum(lines, WantOf(t, scope, item)) <= FreeOn(t, first.value)
  }

  predicate LinesFit(t: Tables, scope: Scope, lines: seq<ReserveLine>) {
    forall line :: line in lines ==> ItemOnce(lines, line.item) || FitsFirstBatch(t, scope, lines, line.item)
  }

  // ------------------------------------------------- one line on one batch

  function Room(t: Tables, i: nat): int
    requires i < |t.batches|
  {
    if FreeOn(t, i) > 0 then FreeOn(t, i) else 0
  }

  lemma SumOfFirst(row: Reservation, rest: seq<Reservation>, f: Reservation -> int)
    ensures Sum([row] + rest, f) == f(row) + Sum(rest, f)
  {
    SumFromHead([row] + rest, f);
    assert ([row] + rest)[1..] == rest;
  }

  /** A line never plans more on a batch than is free there, and nothing on batches outside its order. */
  lemma {:induction false} AllocateFits(t: Tables, scope: Scope, line: ReserveLine, order: seq<nat>, remaining: int, i: nat)
    requires i < |t.batches| && Distinct(order) && forall n :: 0 <= n < |order| ==> order[n] < |t.batches|
    ensures Sum(Allocate(t, scope, line, order, remaining), HeldOnBatch(i)) <= (if i in order then Room(t, i) else 0)
    decreases order
  {
    if order != [] && remaining > 0 {
      var free := FreeOn(t, order[0]);
      assert order[0] !in order[1..];
      assert i in order <==> i == order[0] || i in order[1..];
      if free <= 0 {
        AllocateFits(t, scope, line, order[1..], remaining, i);
      } else {
        var take := Min(free, remaining);
        var row := Reservation(StockKey(scope, line.item), order[0], line.compositionItem, take, ActiveHold);
        var rest := Allocate(t, scope, line, order[1..], remaining - take);
        AllocateFits(t, scope, line, order[1..], remaining - take, i);
        SumOfFirst(row, rest, HeldOnBatch(i));
      }
    }
  }

  /** A line takes what it can from the first batch with anything free. */
  lemma {:induction false} AllocateStartsAtFirst(t: Tables, scope: Scope, line: ReserveLine, order: seq<nat>, remaining: int)
    requires Distinct(order) && forall n :: 0 <= n < |order| ==> order[n] < |t.batches|
    requires remaining > 0 && FirstFree(t, order).Some?
    ensures var first := FirstFree(t, order).value;
      && Sum(Allocate(t, scope, line, order, remaining), HeldOnBatch(first)) == Min(FreeOn(t, first), remaining)
      && (remaining <= FreeOn(t, first) ==> forall i :: i != first ==>
            Sum(Allocate(t, scope, line, order, remaining), HeldOnBatch(i)) == 0)
    decreases order
  {
    var free := FreeOn(t, order[0]);
    if free <= 0 {
      AllocateStartsAtFirst(t, scope, line, order[1..], remaining);
    } else {
      var take := Min(free, remaining);
      var row := Reservation(StockKey(scope, line.item), order[0], line.compositionItem, take, ActiveHold);
      var rest := Allocate(t, scope, line, order[1..], remaining - take);
      assert order[0] !in order[1..];
      AllocateMisses(t, scope, line, order[1..], remaining - take, order[0]);
      forall i ensures Sum([row] + rest, HeldOnBatch(i)) == HeldOnBatch(i)(row) + Sum(rest, HeldOnBatch(i)) {
        SumConcat([row], rest, HeldOnBatch(i));
        assert Sum([row], HeldOnBatch(i)) == HeldOnBatch(i)(row);
      }
      if remaining <= free {
        assert rest == [];
      }
    }
  }

  lemma {:induction false} AllocateMisses(t: Tables, scope: Scope, line: ReserveLine, order: seq<nat>, remaining: int, i: nat)
    requires forall n :: 0 <= n < |order| ==> order[n] < |t.batches|
    requires i !in order
    ensures Sum(Allocate(t, scope, line, order, remaining), HeldOnBatch(i)) == 0
    decreases order
  {
    if order != [] && remaining > 0 {
      var free := FreeOn(t, order[0]);
      if free <= 0 {
        AllocateMisses(t, scope, line, order[1..], remaining, i);
      } else {
        var take := Min(free, remaining);
        var row := Reservation(StockKey(scope, line.item), order[0], line.compositionItem, take, ActiveHold);
        var rest := Allocate(t, scope, line, order[1..], remaining - take);
        AllocateMisses(t, scope, line, order[1..], remaining - take, i);
        SumConcat([row], rest, HeldOnBatch(i));
        assert Sum([row], HeldOnBatch(i)) == HeldOnBatch(i)(row);
      }
    }
  }

  /** What a line plans to hold on a batch. */
  function Share(t: Tables, scope: Scope, i: nat): ReserveLine -> int {
    (line: ReserveLine) => Sum(PlanLine(t, scope, line), HeldOnBatch(i))
  }

  lemma ShareFits(t: Tables, scope: Scope, line: ReserveLine, i: nat)
    requires i < |t.batches|
    ensures Share(t, scope, i)(line) <= (if i in ConsumptionOrder(t, StockKey(scope, line.item)) then Room(t, i) else 0)
  {
    var order := ConsumptionOrder(t, StockKey(scope, line.item));
    if Want(t, scope, line) > 0 {
      AllocateFits(t, scope, line, order, Want(t, scope, line), i);
    }
  }

  /** On the first free batch the share is exact; a line that fits there touches no other. */
  lemma ShareOfFirst(t: Tables, scope: Scope, line: ReserveLine)
    requires line.quantity > 0 && FirstFree(t, ConsumptionOrder(t, StockKey(scope, line.item))).Some?
    ensures var first := FirstFree(t, ConsumptionOrder(t, StockKey(scope, line.item))).value;
      && Share(t, scope, first)(line) == Min(FreeOn(t, first), Want(t, scope, line))
      && (Want(t, scope, line) <= FreeOn(t, first) ==> forall i :: i != first ==> Share(t, scope, i)(line) == 0)
  {
    var order := ConsumptionOrder(t, StockKey(scope, line.item));
    if Want(t, scope, line) > 0 {
      AllocateStartsAtFirst(t, scope, line, order, Want(t, scope, line));
    }
  }

  lemma {:induction false} PlanIsItsShares(t: Tables, scope: Scope, lines: seq<ReserveLine>, i: nat)
    requires Plan(t, scope, lines).Ok?
    ensures Sum(Plan(t, scope, lines).value, HeldOnBatch(i)) == Sum(lines, Share(t, scope, i))
    ensures forall line :: line in lines ==> line.quantity > 0
    decreases lines
  {
    if lines != [] {
      PlanIsItsShares(t, scope, lines[1..], i);
      SumConcat(PlanLine(t, scope, lines[0]), Plan(t, scope, lines[1..]).value, HeldOnBatch(i));
      SumFromHead(lines, Share(t, scope, i));
      assert forall line :: line in lines ==> line == lines[0] || line in lines[1..];
    }
  }

  // ------------------------------------------------------- all lines together

  /** Only lines for the batch's own item have a share in it. */
  lemma ShareOfOtherItem(t: Tables, scope: Scope, line: ReserveLine, i: nat)
    requires i < |t.batches| && line.item != t.batches[i].key.item
    ensures Share(t, scope, i)(line) <= 0
  {
    ShareFits(t, scope, line, i);
  }

  /** Where the condition holds, no batch is asked for more than is free on it. */
  lemma FittingLinesShareRoom(t: Tables, scope: Scope, lines: seq<ReserveLine>, i: nat)
    requires i < |t.batches| && LinesFit(t, scope, lines) && forall line :: line in lines ==> line.quantity > 0
    ensures Sum(lines, Share(t, scope, i)) <= Room(t, i)
  {
    var item := t.batches[i].key.item;
    var share := Share(t, scope, i);
    if ItemOnce(lines, item) {
      forall line | line in lines ensures share(line) <= (if line.item == item then Room(t, i) else 0) {
        ShareFits(t, scope, line, i);
      }
      SumOfOne(lines, share, (line: ReserveLine) => line.item == item, Room(t, i));
    } else {
      var a :| 0 <= a < |lines| && lines[a].item == item;
      assert lines[a] in lines;
      var order := ConsumptionOrder(t, StockKey(scope, item));
      var first := FirstFree(t, order);
      if first.None? {
        NoShareWithoutFree(t, scope, lines, i);
      } else {
        SharedFirstBatch(t, scope, lines, i, first.value);
      }
    }
  }

  lemma NoShareWithoutFree(t: Tables, scope: Scope, lines: seq<ReserveLine>, i: nat)
    requires i < |t.batches| && FirstFree(t, ConsumptionOrder(t, StockKey(scope, t.batches[i].key.item))).None?
    ensures Sum(lines, Share(t, scope, i)) <= 0
  {
    forall line | line in lines ensures Share(t, scope, i)(line) <= 0 {
      ShareFits(t, scope, line, i);
    }
    SumOrdered(lines, Share(t, scope, i), _ => 0);
    SumZero(lines, _ => 0);
  }

  lemma SharedFirstBatch(t: Tables, scope: Scope, lines: seq<ReserveLine>, i: nat, first: nat)
    requires i < |t.batches| && forall line :: line in lines ==> line.quantity > 0
    requires var item := t.batches[i].key.item;
      && FirstFree(t, ConsumptionOrder(t, StockKey(scope, item))) == Some(first)
      && Sum(lines, WantOf(t, scope, item)) <= FreeOn(t, first)
    ensures Sum(lines, Share(t, scope, i)) <= (if i == first then FreeOn(t, first) else 0)
  {
    var item := t.batches[i].key.item;
    var want := WantOf(t, scope, item);
    SumNonNegative(lines, want);
    var bound := (line: ReserveLine) => if i == first then want(line) else 0;
    forall line | line in lines ensures Share(t, scope, i)(line) <= bound(line) {
      if line.item == item {
        var n :| 0 <= n < |lines| && lines[n] == line;
        assert want(lines[n]) <= Sum(lines, want);
        ShareOfFirst(t, scope, line);
      } else {
        ShareOfOtherItem(t, scope, line, i);
      }
    }
    SumOrdered(lines, Share(t, scope, i), bound);
    if i == first {
      SumAgree(lines, bound, want);
    } else {
      SumZero(lines, bound);
    }
  }

  /** Two lines for an item that want more together than their first batch has free will overbook it. */
  lemma CrowdedBatchIsOverbooked(t: Tables, scope: Scope, lines: seq<ReserveLine>, item: nat, first: nat)
    requires forall line :: line in lines ==> line.quantity > 0
    requires !ItemOnce(lines, item)
    requires FirstFree(t, ConsumptionOrder(t, StockKey(scope, item))) == Some(first)
    requires Sum(lines, WantOf(t, scope, item)) > FreeOn(t, first)
    ensures Sum(lines, Share(t, scope, first)) > FreeOn(t, first)
  {
    var free, want := FreeOn(t, first), WantOf(t, scope, item);
    var capped := (line: ReserveLine) => if line.item == item then Min(free, want(line)) else 0;
    forall line | line in lines ensures Share(t, scope, first)(line) >= capped(line) {
      if line.item == item {
        ShareOfFirst(t, scope, line);
      } else {
        SharesAreNatural(t, scope, line, first);
      }
    }
    SumOrdered(lines, capped, Share(t, scope, first));
    CappedSum(lines, want, capped, free, item);
  }

  /** Capping each share at what is free leaves more than that, if two lines share and together want more. */
  lemma CappedSum(lines: seq<ReserveLine>, want: ReserveLine -> int, capped: ReserveLine -> int, free: int, item: nat)
    requires free > 0 && !ItemOnce(lines, item) && Sum(lines, want) > free
    requires forall line :: line in lines ==> capped(line) == (if line.item == item then Min(free, want(line)) else 0)
    requires forall line :: line in lines && line.item != item ==> want(line) == 0
    requires forall line :: line in lines ==> want(line) >= 0
    requires (forall line :: line in lines && line.item == item ==> want(line) > 0)
             || (forall line :: line in lines ==> want(line) == 0)
    ensures Sum(lines, capped) > free
  {
    if forall line :: line in lines ==> want(line) == 0 {
      SumZero(lines, want);
    } else if forall line :: line in lines ==> want(line) <= free {
      SumAgree(lines, capped, want);
    } else {
      var line :| line in lines && want(line) > free;
      var n :| 0 <= n < |lines| && lines[n] == line;
      var a, b :| 0 <= a < b < |lines| && lines[a].item == item && lines[b].item == item;
      var m := if n == a then b else a;
      assert lines[m] in lines;
      if n < m { SumOfTwo(lines, capped, n, m); } else { SumOfTwo(lines, capped, m, n); }
    }
  }

  lemma {:induction false} AllocatedIsPositive(t: Tables, scope: Scope, line: ReserveLine, order: seq<nat>, remaining: int)
    requires forall n :: 0 <= n < |order| ==> order[n] < |t.batches|
    ensures forall r :: r in Allocate(t, scope, line, order, remaining) ==> r.quantity > 0
    decreases order
  {
    if order != [] && remaining > 0 {
      var free := FreeOn(t, order[0]);
      AllocatedIsPositive(t, scope, line, order[1..], if free <= 0 then remaining else remaining - Min(free, remaining));
    }
  }

  lemma SharesAreNatural(t: Tables, scope: Scope, line: ReserveLine, i: nat)
    ensures Share(t, scope, i)(line) >= 0
  {
    var order := ConsumptionOrder(t, StockKey(scope, line.item));
    AllocatedIsPositive(t, scope, line, order, Want(t, scope, line));
    SumNonNegative(PlanLine(t, scope, line), HeldOnBatch(i));
  }

  // ----------------------------------------------------------- the command

  lemma ReleaseActiveEffect(t: Tables, scope: Scope, compositionItems: seq<nat>)
    requires Inv(t) && ReleaseActive(t, scope, compositionItems).Ok?
    ensures var t' := ReleaseActive(t, scope, compositionItems).value;
      t'.batches == t.batches && t'.reservations == ReleaseRows(t.reservations, HeldIn(scope, compositionItems))
  {
    var active := HeldIn(scope, compositionItems);
    var items := ItemsOf(t.reservations, active);
    forall x | x in items ensures StockKey(scope, x) in t.balances {
      var r :| r in t.reservations && active(r) && r.key.item == x;
      SelectedItemHasBalance(t, scope, active, r);
    }
    AdjustEachEffect(t.(reservations := ReleaseRows(t.reservations, active)), scope, items, t.reservations, active, -1);
  }

  lemma ReleaseKeepsCovered(t: Tables, scope: Scope, compositionItems: seq<nat>)
    requires Inv(t) && Covered(t) && ReleaseActive(t, scope, compositionItems).Ok?
    ensures Covered(ReleaseActive(t, scope, compositionItems).value)
  {
    var t' := ReleaseActive(t, scope, compositionItems).value;
    ReleaseActiveEffect(t, scope, compositionItems);
    ReleaseNoTighter(t, t', HeldIn(scope, compositionItems));
    NoTighterKeepsCovered(t, t');
  }

  /** Storing a plan adds its shares to what the batches hold. */
  lemma StorePlanHolds(t: Tables, scope: Scope, plan: seq<Reservation>, i: nat)
    requires BalanceInv(t) && StorePlan(t, scope, plan).Ok?
    requires forall r :: r in plan ==> PlannedRow(t, scope, r)
    ensures var t' := StorePlan(t, scope, plan).value;
      t'.batches == t.batches && Held(t', i) == Held(t, i) + Sum(plan, HeldOnBatch(i))
  {
    AdjustEachEffect(t.(reservations := t.reservations + plan), scope, ItemsOf(plan, IsHeld()), plan, IsHeld(), 1);
    SumConcat(t.reservations, plan, HeldOnBatch(i));
  }

  lemma PlanCoversIffLinesFit(t: Tables, scope: Scope, lines: seq<ReserveLine>)
    requires Covered(t) && BalanceInv(t) && Plan(t, scope, lines).Ok?
    requires StorePlan(t, scope, Plan(t, scope, lines).value).Ok?
    ensures Covered(StorePlan(t, scope, Plan(t, scope, lines).value).value) <==> LinesFit(t, scope, lines)
  {
    var plan := Plan(t, scope, lines).value;
    var t' := StorePlan(t, scope, plan).value;
    PlanRows(t, scope, lines);
    StorePlanHolds(t, scope, plan, 0);
    PlanIsItsShares(t, scope, lines, 0);
    if LinesFit(t, scope, lines) {
      forall i | 0 <= i < |t'.batches| ensures Held(t', i) <= t'.batches[i].remaining {
        assert Held(t, i) <= t.batches[i].remaining;
        StorePlanHolds(t, scope, plan, i);
        PlanIsItsShares(t, scope, lines, i);
        FittingLinesShareRoom(t, scope, lines, i);
      }
    } else {
      var line :| line in lines && !ItemOnce(lines, line.item) && !FitsFirstBatch(t, scope, lines, line.item);
      var first := FirstFree(t, ConsumptionOrder(t, StockKey(scope, line.item))).value;
      CrowdedBatchIsOverbooked(t, scope, lines, line.item, first);
      StorePlanHolds(t, scope, plan, first);
      PlanIsItsShares(t, scope, lines, first);
      assert Held(t', first) > t'.batches[first].remaining;
    }
  }

  /** The condition for a command: its lines are planned once its own old holds are released. */
  predicate ReservationFits(t: Tables, cmd: ReserveCommand) {
    var released := ReleaseActive(t, cmd.scope, CompositionItems(cmd.lines));
    released.Ok? ==> LinesFit(released.value, cmd.scope, cmd.lines)
  }

  /**
   A committed reservation leaves every hold covered exactly when each item stands on one line only, or has
   no free stock at all, or all its lines together fit the first batch with free stock.
   */
  lemma ReservationCoversIffLinesFit(t: Tables, cmd: ReserveCommand)
    requires Inv(t) && Covered(t) && ReserveComposition(t, cmd).Ok?
    ensures Covered(ReserveComposition(t, cmd).value) <==> ReservationFits(t, cmd)
  {
    var ids := CompositionItems(cmd.lines);
    ReleaseKeepsCovered(t, cmd.scope, ids);
    ReleaseActiveKeepsInv(t, cmd.scope, ids);
    PlanCoversIffLinesFit(ReleaseActive(t, cmd.scope, ids).value, cmd.scope, cmd.lines);
  }

  /** The order modules send a composition's rows, unique per item by their index: those always fit. */
  lemma DistinctItemsFit(t: Tables, cmd: ReserveCommand)
    requires forall a, b :: 0 <= a < b < |cmd.lines| ==> cmd.lines[a].item != cmd.lines[b].item
    ensures ReservationFits(t, cmd)
  {
  }
}
