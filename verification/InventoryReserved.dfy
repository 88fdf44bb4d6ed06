/**
 What a reservation holds in the end: of each item all its lines ask for, as far as the stock nobody else
 holds goes, on the oldest batches; and when it commits.
 */
module InventoryReserved {
  import opened Wrappers
  import opened Sequences
  import opened InventoryTables
  import opened InventoryInvariant
  import opened InventoryIssue
  import opened InventoryIssueProofs
  import opened InventoryReservation
  import opened InventoryCoverage
  import opened InventoryOverbooking
  import opened InventoryConsumption
  import opened InventoryIssuable

  // ------------------------------------------------------- one planned line

  function Quantity(): Reservation -> int {
    (r: Reservation) => r.quantity
  }

  /** A walk that ends short of its target has taken everything free on the way. */
  lemma {:induction false} ShortWalkTakesAll(t: Tables, scope: Scope, line: ReserveLine, order: seq<nat>, remaining: int)
    requires Distinct(order) && (forall n :: 0 <= n < |order| ==> order[n] < |t.batches|) && remaining >= 0
    ensures var plan := Allocate(t, scope, line, order, remaining);
      && Sum(plan, Quantity()) <= remaining
      && (Sum(plan, Quantity()) < remaining ==> forall i :: i in order ==> FreeOn(t, i) <= Sum(plan, HeldOnBatch(i)))
    decreases order
  {
    if order != [] && remaining > 0 {
      var free := FreeOn(t, order[0]);
      assert order[0] !in order[1..];
      assert forall i :: i in order <==> i == order[0] || i in order[1..];
      if free <= 0 {
        ShortWalkTakesAll(t, scope, line, order[1..], remaining);
        AllocateMisses(t, scope, line, order[1..], remaining, order[0]);
      } else {
        var take := Min(free, remaining);
        var row := Reservation(StockKey(scope, line.item), order[0], line.compositionItem, take, ActiveHold);
        var rest := Allocate(t, scope, line, order[1..], remaining - take);
        ShortWalkTakesAll(t, scope, line, order[1..], remaining - take);
        AllocateMisses(t, scope, line, order[1..], remaining - take, order[0]);
        SumOfFirst(row, rest, Quantity());
        forall i | i in order ensures Sum([row] + rest, HeldOnBatch(i)) == HeldOnBatch(i)(row) + Sum(rest, HeldOnBatch(i)) {
          SumOfFirst(row, rest, HeldOnBatch(i));
        }
      }
    }
  }

  lemma {:induction false} AllocatedRowsAreOf(t: Tables, scope: Scope, line: ReserveLine, order: seq<nat>, remaining: int)
    requires forall n :: 0 <= n < |order| ==> order[n] < |t.batches|
    ensures forall r :: r in Allocate(t, scope, line, order, remaining) ==>
      r.key == StockKey(scope, line.item) && r.compositionItem == line.compositionItem && r.status.ActiveHold? && r.batch in order
    decreases order
  {
    if order != [] && remaining > 0 {
      var free := FreeOn(t, order[0]);
      AllocatedRowsAreOf(t, scope, line, order[1..], if free <= 0 then remaining else remaining - Min(free, remaining));
      assert forall i :: i in order[1..] ==> i in order;
    }
  }

  /** Batch by batch, a plan that covers what is free is at least as large as all that is free. */
  lemma {:induction false} CoveringPlanIsLarge(t: Tables, plan: seq<Reservation>, k: StockKey, n: nat)
    requires n <= |t.batches|
    requires forall i :: 0 <= i < n && t.batches[i].key == k ==> FreeOn(t, i) <= Sum(plan, HeldOnBatch(i))
    ensures FreeUpTo(t, k, n) <= HeldUpTo(t.batches, plan, k, n)
  {
    if n > 0 {
      CoveringPlanIsLarge(t, plan, k, n - 1);
    }
  }

  /** A batch off the order has nothing free; one on it is emptied by a walk that ends short. */
  lemma ShortWalkCoversAll(t: Tables, scope: Scope, line: ReserveLine, wanted: int, i: nat)
    requires Inv(t) && wanted >= 0 && i < |t.batches| && t.batches[i].key == StockKey(scope, line.item)
    requires var plan := Allocate(t, scope, line, ConsumptionOrder(t, StockKey(scope, line.item)), wanted);
      Sum(plan, Quantity()) < wanted
    ensures var plan := Allocate(t, scope, line, ConsumptionOrder(t, StockKey(scope, line.item)), wanted);
      FreeOn(t, i) <= Sum(plan, HeldOnBatch(i))
  {
    var order := ConsumptionOrder(t, StockKey(scope, line.item));
    ShortWalkTakesAll(t, scope, line, order, wanted);
    if i !in order {
      assert BatchShapeOk(t.batches[i]);
      HeldIsNonNegative(t, i);
      AllocateMisses(t, scope, line, order, wanted, i);
    }
  }

  /** So a walk that wants no more than the balance calls free gets it all. */
  lemma WalkGetsAll(t: Tables, scope: Scope, line: ReserveLine, wanted: int)
    requires Inv(t) && 0 <= wanted <= Free(t, StockKey(scope, line.item))
    ensures var k := StockKey(scope, line.item);
      Sum(Allocate(t, scope, line, ConsumptionOrder(t, k), wanted), HeldOf(k)) == wanted
  {
    var k := StockKey(scope, line.item);
    var order := ConsumptionOrder(t, k);
    var plan := Allocate(t, scope, line, order, wanted);
    ShortWalkTakesAll(t, scope, line, order, wanted);
    AllocatedRowsAreOf(t, scope, line, order, wanted);
    SumAgree(plan, Quantity(), HeldOf(k));
    if Sum(plan, Quantity()) < wanted {
      forall i | 0 <= i < |plan| ensures plan[i].batch < |t.batches| && plan[i].key == t.batches[plan[i].batch].key {
        assert plan[i] in plan;
      }
      HeldByBatchIsHeldByKey(t.batches, plan, k);
      forall i | 0 <= i < |t.batches| && t.batches[i].key == k ensures FreeOn(t, i) <= Sum(plan, HeldOnBatch(i)) {
        ShortWalkCoversAll(t, scope, line, wanted, i);
      }
      CoveringPlanIsLarge(t, plan, k, |t.batches|);
      FreeLiesOnBatches(t, k);
    }
  }

  /** With holds covered, a line's plan is as large as its quantity and the free stock allow. */
  lemma LinePlansAll(t: Tables, scope: Scope, line: ReserveLine)
    requires Inv(t) && Covered(t) && line.quantity > 0
    ensures var k := StockKey(scope, line.item);
      && Free(t, k) >= 0
      && Sum(PlanLine(t, scope, line), HeldOf(k)) == Min(line.quantity, Free(t, k))
  {
    var k := StockKey(scope, line.item);
    FreeLiesOnBatches(t, k);
    FreeUpToIsNatural(t, k, |t.batches|);
    WalkGetsAll(t, scope, line, Min(line.quantity, Free(t, k)));
    PlanLineIsWalk(t, scope, line);
  }

  lemma PlanLineIsWalk(t: Tables, scope: Scope, line: ReserveLine)
    requires BalanceInv(t) && line.quantity > 0 && Free(t, StockKey(scope, line.item)) >= 0
    ensures var k := StockKey(scope, line.item);
      PlanLine(t, scope, line) == Allocate(t, scope, line, ConsumptionOrder(t, k), Min(line.quantity, Free(t, k)))
  {
    hide ConsumptionOrder;
  }

  // ---------------------------------------------------------- all its lines

  /** What a line gets of a key, out of this much that others leave free. */
  function Gets(k: StockKey, free: int): ReserveLine -> int {
    (line: ReserveLine) => if line.item == k.item then Min(line.quantity, free) else 0
  }

  /** The same, of the lines for one composition item. */
  function GetsFor(k: StockKey, compositionItem: nat, free: int): ReserveLine -> int {
    (line: ReserveLine) => if line.item == k.item && line.compositionItem == compositionItem then Min(line.quantity, free) else 0
  }

  /** A composition item's own active holds of a key. */
  function OwnHolds(k: StockKey, compositionItem: nat): Reservation -> int {
    (r: Reservation) => if r.key == k && r.status.ActiveHold? && r.compositionItem == compositionItem then r.quantity else 0
  }

  lemma LinePlansItsShare(t: Tables, scope: Scope, line: ReserveLine, k: StockKey, compositionItem: nat)
    requires Inv(t) && Covered(t) && line.quantity > 0 && k.scope == scope
    ensures Sum(PlanLine(t, scope, line), HeldOf(k)) == Gets(k, Free(t, k))(line)
    ensures Sum(PlanLine(t, scope, line), OwnHolds(k, compositionItem)) == GetsFor(k, compositionItem, Free(t, k))(line)
  {
    var plan := PlanLine(t, scope, line);
    var own := StockKey(scope, line.item);
    AllocatedRowsAreOf(t, scope, line, ConsumptionOrder(t, own), Min(line.quantity, Available(t, own)));
    LinePlansAll(t, scope, line);
    if line.item != k.item {
      SumZero(plan, HeldOf(k));
    }
    if line.item == k.item && line.compositionItem == compositionItem {
      SumAgree(plan, OwnHolds(k, compositionItem), HeldOf(k));
    } else {
      SumZero(plan, OwnHolds(k, compositionItem));
    }
  }

  lemma {:induction false} PlanHoldsAll(t: Tables, scope: Scope, lines: seq<ReserveLine>, k: StockKey, compositionItem: nat)
    requires Inv(t) && Covered(t) && Plan(t, scope, lines).Ok? && k.scope == scope
    ensures Sum(Plan(t, scope, lines).value, HeldOf(k)) == Sum(lines, Gets(k, Free(t, k)))
    ensures Sum(Plan(t, scope, lines).value, OwnHolds(k, compositionItem)) == Sum(lines, GetsFor(k, compositionItem, Free(t, k)))
    decreases lines
  {
    if lines != [] {
      PlanHoldsAll(t, scope, lines[1..], k, compositionItem);
      SumConcat(PlanLine(t, scope, lines[0]), Plan(t, scope, lines[1..]).value, HeldOf(k));
      SumConcat(PlanLine(t, scope, lines[0]), Plan(t, scope, lines[1..]).value, OwnHolds(k, compositionItem));
      SumFromHead(lines, Gets(k, Free(t, k)));
      SumFromHead(lines, GetsFor(k, compositionItem, Free(t, k)));
      LinePlansItsShare(t, scope, lines[0], k, compositionItem);
    }
  }

  lemma {:induction false} PlanSucceedsIff(t: Tables, scope: Scope, lines: seq<ReserveLine>)
    ensures Plan(t, scope, lines).Ok? <==> forall n :: 0 <= n < |lines| ==> lines[n].quantity > 0
    decreases lines
  {
    if lines != [] {
      PlanSucceedsIff(t, scope, lines[1..]);
      assert forall n :: 0 < n < |lines| ==> lines[n] == lines[1..][n - 1];
      assert forall n :: 0 <= n < |lines[1..]| ==> lines[1..][n] == lines[n + 1];
    }
  }

  // ------------------------------------------------- releasing its old holds

  /** Holds of a key for composition items outside the command. */
  function HeldByOthers(t: Tables, k: StockKey, ids: seq<nat>): int {
    Sum(t.reservations, HeldElse(k, ids))
  }

  lemma {:induction false} ReleasedLeaveOthers(rs: seq<Reservation>, scope: Scope, ids: seq<nat>, k: StockKey)
    ensures Sum(ReleaseRows(rs, HeldIn(scope, ids)), HeldOf(k)) == Sum(rs, if k.scope == scope then HeldElse(k, ids) else HeldOf(k))
  {
    if rs != [] {
      var n := |rs| - 1;
      assert ReleaseRows(rs, HeldIn(scope, ids))[..n] == ReleaseRows(rs[..n], HeldIn(scope, ids));
      ReleasedLeaveOthers(rs[..n], scope, ids, k);
    }
  }

  lemma {:induction false} AdjustEachSucceedsIff(
    t: Tables, scope: Scope, items: seq<nat>, rs: seq<Reservation>, p: Reservation -> bool, sign: int)
    requires forall x :: x in items ==> StockKey(scope, x) in t.balances
    requires forall a, b :: 0 <= a < b < |items| ==> items[a] != items[b]
    ensures AdjustEach(t, scope, items, rs, p, sign).Ok? <==> forall x :: x in items ==>
      var k := StockKey(scope, x); 0 <= Reserved(t, k) + sign * Sum(rs, QuantityOf(p, k)) <= OnHand(t, k)
    decreases items
  {
    if items != [] {
      var k := StockKey(scope, items[0]);
      var adjusted := AdjustReserved(t, k, sign * Sum(rs, QuantityOf(p, k)));
      assert forall x :: x in items <==> x == items[0] || x in items[1..];
      if adjusted.Ok? {
        assert items[0] !in items[1..];
        AdjustEachSucceedsIff(adjusted.value, scope, items[1..], rs, p, sign);
        forall x | x in items[1..] ensures Reserved(adjusted.value, StockKey(scope, x)) == Reserved(t, StockKey(scope, x))
          && OnHand(adjusted.value, StockKey(scope, x)) == OnHand(t, StockKey(scope, x))
        {
          assert x != items[0];
        }
      }
    }
  }

  lemma {:induction false} SelectedSums(rs: seq<Reservation>, p: Reservation -> bool, k: StockKey)
    requires forall r :: r in rs ==> r.quantity > 0
    requires forall r :: p(r) ==> r.status.ActiveHold?
    ensures 0 <= Sum(rs, QuantityOf(p, k)) <= Sum(rs, HeldOf(k))
  {
    if rs != [] {
      SelectedSums(rs[..|rs| - 1], p, k);
    }
  }

  lemma PositiveRows(t: Tables)
    requires HoldInv(t)
    ensures forall r :: r in t.reservations ==> r.quantity > 0
  {
    forall r | r in t.reservations ensures r.quantity > 0 {
      var i :| 0 <= i < |t.reservations| && t.reservations[i] == r;
      assert ReservationRowOk(t, t.reservations[i]);
    }
  }

  /** Releasing always goes through. */
  lemma ReleaseAlwaysCommits(t: Tables, scope: Scope, ids: seq<nat>)
    requires Inv(t)
    ensures ReleaseActive(t, scope, ids).Ok?
  {
    var active := HeldIn(scope, ids);
    var items := ItemsOf(t.reservations, active);
    var t1 := t.(reservations := ReleaseRows(t.reservations, active));
    PositiveRows(t);
    forall x | x in items
      ensures StockKey(scope, x) in t1.balances
      ensures var k := StockKey(scope, x); 0 <= Reserved(t1, k) - Sum(t.reservations, QuantityOf(active, k)) <= OnHand(t1, k)
    {
      var k := StockKey(scope, x);
      var r :| r in t.reservations && active(r) && r.key.item == x;
      SelectedItemHasBalance(t, scope, active, r);
      SelectedSums(t.reservations, active, k);
      assert ReservedAgrees(t, k);
    }
    AdjustEachSucceedsIff(t1, scope, items, t.reservations, active, -1);
  }

  /** After the release only the others' holds are left on the command's keys, and the stock is as it was. */
  lemma ReleasedState(t: Tables, scope: Scope, ids: seq<nat>, k: StockKey)
    requires Inv(t) && Covered(t)
    ensures ReleaseActive(t, scope, ids).Ok?
    ensures var t1 := ReleaseActive(t, scope, ids).value;
      && Inv(t1) && Covered(t1) && t1.batches == t.batches
      && t1.reservations == ReleaseRows(t.reservations, HeldIn(scope, ids))
      && OnHand(t1, k) == OnHand(t, k)
      && (k.scope == scope ==> Reserved(t1, k) == HeldByOthers(t, k, ids))
  {
    ReleaseAlwaysCommits(t, scope, ids);
    ReleaseActiveKeepsInv(t, scope, ids);
    ReleaseKeepsCovered(t, scope, ids);
    ReleaseActiveEffect(t, scope, ids);
    ReleasedLeaveOthers(t.reservations, scope, ids, k);
    var t1 := ReleaseActive(t, scope, ids).value;
    assert ReservedAgrees(t1, k) && OnHandAgrees(t, k) && OnHandAgrees(t1, k);
  }

  /** Releasing a composition commits and gives up exactly its holds, whatever their item. */
  lemma ReleaseGivesUpItsHolds(t: Tables, cmd: ReleaseCommand, k: StockKey, i: nat)
    requires Inv(t) && Covered(t) && i < |t.reservations|
    ensures ReleaseComposition(t, cmd).Ok?
    ensures var t' := ReleaseComposition(t, cmd).value; var r := t.reservations[i];
      && t'.batches == t.batches && OnHand(t', k) == OnHand(t, k) && |t'.reservations| == |t.reservations|
      && (k.scope == cmd.scope ==> Reserved(t', k) == HeldByOthers(t, k, cmd.compositionItems))
      && t'.reservations[i] == if r.key.scope == cmd.scope && r.compositionItem in cmd.compositionItems && r.status.ActiveHold?
                               then r.(status := ReleasedHold) else r
  {
    ReleasedState(t, cmd.scope, cmd.compositionItems, k);
  }

  // -------------------------------------------------------------- the command

  /** What others leave free of a key. */
  function LeftFree(t: Tables, k: StockKey, ids: seq<nat>): int {
    OnHand(t, k) - HeldByOthers(t, k, ids)
  }

  /** The lines' shares of every key fit what is free. */
  predicate SharesFit(t: Tables, cmd: ReserveCommand) {
    forall line :: line in cmd.lines ==>
      var k := StockKey(cmd.scope, line.item);
      var free := LeftFree(t, k, CompositionItems(cmd.lines));
      Sum(cmd.lines, Gets(k, free)) <= free
  }

  lemma PlannedKeysHaveBalance(t: Tables, scope: Scope, plan: seq<Reservation>)
    requires forall r :: r in plan ==> PlannedRow(t, scope, r)
    ensures forall x :: x in ItemsOf(plan, IsHeld()) ==> StockKey(scope, x) in t.balances
  {
    forall x | x in ItemsOf(plan, IsHeld()) ensures StockKey(scope, x) in t.balances {
      var r :| r in plan && IsHeld()(r) && r.key.item == x;
      assert r.key == StockKey(scope, x);
    }
  }

  lemma PlannedSums(t: Tables, scope: Scope, plan: seq<Reservation>, k: StockKey)
    requires Inv(t) && forall r :: r in plan ==> PlannedRow(t, scope, r)
    ensures Sum(plan, QuantityOf(IsHeld(), k)) == Sum(plan, HeldOf(k)) && Sum(plan, HeldOf(k)) >= 0 && Reserved(t, k) >= 0
  {
    SumAgree(plan, QuantityOf(IsHeld(), k), HeldOf(k));
    SumNonNegative(plan, HeldOf(k));
  }

  /** A plan can be stored exactly when it leaves no key with more reserved than on hand. */
  lemma StoreSucceedsIff(t: Tables, scope: Scope, plan: seq<Reservation>)
    requires Inv(t) && forall r :: r in plan ==> PlannedRow(t, scope, r)
    ensures StorePlan(t, scope, plan).Ok? <==>
      forall x :: x in ItemsOf(plan, IsHeld()) ==>
        var k := StockKey(scope, x); Reserved(t, k) + Sum(plan, HeldOf(k)) <= OnHand(t, k)
  {
    var items := ItemsOf(plan, IsHeld());
    var t1 := t.(reservations := t.reservations + plan);
    PlannedKeysHaveBalance(t, scope, plan);
    forall x | x in items
      ensures var k := StockKey(scope, x);
        Sum(plan, QuantityOf(IsHeld(), k)) == Sum(plan, HeldOf(k)) && Sum(plan, HeldOf(k)) >= 0 && Reserved(t, k) >= 0
    {
      PlannedSums(t, scope, plan, StockKey(scope, x));
    }
    hide Inv, ItemsOf;
    AdjustEachSucceedsIff(t1, scope, items, plan, IsHeld(), 1);
  }

  lemma {:induction false} SumPositiveMember<T>(s: seq<T>, f: T -> int)
    requires Sum(s, f) != 0
    ensures exists x :: x in s && f(x) != 0
  {
    if forall x :: x in s ==> f(x) == 0 {
      SumZero(s, f);
    }
  }

  lemma GetsFits(t: Tables, scope: Scope, lines: seq<ReserveLine>, k: StockKey)
    requires Inv(t) && Covered(t) && k.scope == scope && Plan(t, scope, lines).Ok?
    requires forall line :: line in lines ==>
      Sum(lines, Gets(StockKey(scope, line.item), Free(t, StockKey(scope, line.item)))) <= Free(t, StockKey(scope, line.item))
    ensures Reserved(t, k) + Sum(Plan(t, scope, lines).value, HeldOf(k)) <= OnHand(t, k)
  {
    PlanHoldsAll(t, scope, lines, k, 0);
    if Sum(lines, Gets(k, Free(t, k))) != 0 {
      SumPositiveMember(lines, Gets(k, Free(t, k)));
      var line :| line in lines && Gets(k, Free(t, k))(line) != 0;
      assert StockKey(scope, line.item) == k;
    } else {
      FreeLiesOnBatches(t, k);
      FreeUpToIsNatural(t, k, |t.batches|);
    }
  }

  lemma StoredPlanFits(t: Tables, scope: Scope, lines: seq<ReserveLine>, line: ReserveLine)
    requires Inv(t) && Covered(t) && Plan(t, scope, lines).Ok? && line in lines
    requires StorePlan(t, scope, Plan(t, scope, lines).value).Ok?
    ensures var k := StockKey(scope, line.item); Sum(lines, Gets(k, Free(t, k))) <= Free(t, k)
  {
    var k := StockKey(scope, line.item);
    var plan := Plan(t, scope, lines).value;
    PlanRows(t, scope, lines);
    PlanHoldsAll(t, scope, lines, k, 0);
    StorePlanKeepsInv(t, scope, plan);
    StorePlanMoves(t, scope, plan, k);
    assert Reserved(StorePlan(t, scope, plan).value, k) <= OnHand(StorePlan(t, scope, plan).value, k);
  }

  lemma StorePlanMoves(t: Tables, scope: Scope, plan: seq<Reservation>, k: StockKey)
    requires Inv(t) && StorePlan(t, scope, plan).Ok? && k.scope == scope
    requires forall r :: r in plan ==> PlannedRow(t, scope, r)
    ensures var t' := StorePlan(t, scope, plan).value;
      && t'.batches == t.batches && t'.reservations == t.reservations + plan && Inv(t')
      && OnHand(t', k) == OnHand(t, k) && Reserved(t', k) == Reserved(t, k) + Sum(plan, HeldOf(k))
  {
    var t' := StorePlan(t, scope, plan).value;
    StorePlanKeepsInv(t, scope, plan);
    StorePlanHolds(t, scope, plan, 0);
    AdjustEachEffect(t.(reservations := t.reservations + plan), scope, ItemsOf(plan, IsHeld()), plan, IsHeld(), 1);
    SumConcat(t.reservations, plan, HeldOf(k));
    assert ReservedAgrees(t, k) && ReservedAgrees(t', k);
  }

  /** The plan of released stock, in terms of the stock before. */
  lemma ReleasedShares(t: Tables, cmd: ReserveCommand, k: StockKey)
    requires Inv(t) && Covered(t) && k.scope == cmd.scope
    ensures var t1 := ReleaseActive(t, cmd.scope, CompositionItems(cmd.lines));
      t1.Ok? && Free(t1.value, k) == LeftFree(t, k, CompositionItems(cmd.lines))
  {
    ReleasedState(t, cmd.scope, CompositionItems(cmd.lines), k);
  }

  /**
   While holds are covered, a reservation commits exactly when every quantity is positive and its shares of
   each item, each as large as the quantity and the stock others leave free allow, together fit that stock.
   */
  lemma ReservationSucceedsIff(t: Tables, cmd: ReserveCommand)
    requires Inv(t) && Covered(t)
    ensures ReserveComposition(t, cmd).Ok?
      <==> (forall n :: 0 <= n < |cmd.lines| ==> cmd.lines[n].quantity > 0) && SharesFit(t, cmd)
  {
    var ids := CompositionItems(cmd.lines);
    ReleasedState(t, cmd.scope, ids, StockKey(cmd.scope, 0));
    var t1 := ReleaseActive(t, cmd.scope, ids).value;
    PlanSucceedsIff(t1, cmd.scope, cmd.lines);
    forall line | line in cmd.lines
      ensures var k := StockKey(cmd.scope, line.item); Free(t1, k) == LeftFree(t, k, ids)
    {
      ReleasedShares(t, cmd, StockKey(cmd.scope, line.item));
    }
    if Plan(t1, cmd.scope, cmd.lines).Ok? {
      var plan := Plan(t1, cmd.scope, cmd.lines).value;
      PlanRows(t1, cmd.scope, cmd.lines);
      StoreSucceedsIff(t1, cmd.scope, plan);
      if SharesFit(t, cmd) {
        forall x | x in ItemsOf(plan, IsHeld())
          ensures var k := StockKey(cmd.scope, x); Reserved(t1, k) + Sum(plan, HeldOf(k)) <= OnHand(t1, k)
        {
          GetsFits(t1, cmd.scope, cmd.lines, StockKey(cmd.scope, x));
        }
      }
      if StorePlan(t1, cmd.scope, plan).Ok? {
        forall line | line in cmd.lines
          ensures var k := StockKey(cmd.scope, line.item); Sum(cmd.lines, Gets(k, LeftFree(t, k, ids))) <= LeftFree(t, k, ids)
        {
          StoredPlanFits(t1, cmd.scope, cmd.lines, line);
        }
      }
    }
  }

  lemma ReservationIsPlanned(t: Tables, cmd: ReserveCommand, k: StockKey)
    requires Inv(t) && Covered(t) && ReserveComposition(t, cmd).Ok? && k.scope == cmd.scope
    ensures var ids := CompositionItems(cmd.lines); var released := ReleaseActive(t, cmd.scope, ids);
      && released.Ok? && Inv(released.value) && Covered(released.value) && released.value.batches == t.batches
      && released.value.reservations == ReleaseRows(t.reservations, HeldIn(cmd.scope, ids))
      && Free(released.value, k) == LeftFree(t, k, ids) && OnHand(released.value, k) == OnHand(t, k)
      && var plan := Plan(released.value, cmd.scope, cmd.lines); var t' := ReserveComposition(t, cmd).value;
      && plan.Ok? && t'.reservations == released.value.reservations + plan.value && t'.batches == t.batches && Inv(t')
      && OnHand(t', k) == OnHand(t, k)
      && Reserved(t', k) == HeldByOthers(t, k, ids) + Sum(plan.value, HeldOf(k))
  {
    ReleasedState(t, cmd.scope, CompositionItems(cmd.lines), k);
    var t1 := ReleaseActive(t, cmd.scope, CompositionItems(cmd.lines)).value;
    PlanRows(t1, cmd.scope, cmd.lines);
    StorePlanMoves(t1, cmd.scope, Plan(t1, cmd.scope, cmd.lines).value, k);
  }

  /** A committed reservation leaves an item reserved for others as before, and for itself all its lines get. */
  lemma ReservationReservesItsShares(t: Tables, cmd: ReserveCommand, k: StockKey)
    requires Inv(t) && Covered(t) && ReserveComposition(t, cmd).Ok? && k.scope == cmd.scope
    ensures var t' := ReserveComposition(t, cmd).value; var h := HeldByOthers(t, k, CompositionItems(cmd.lines));
      && OnHand(t', k) == OnHand(t, k)
      && Reserved(t', k) == h + Sum(cmd.lines, Gets(k, OnHand(t, k) - h))
  {
    hide Inv, Covered, ReserveComposition, ReleaseActive, Plan;
    ReservationIsPlanned(t, cmd, k);
    PlanHoldsAll(ReleaseActive(t, cmd.scope, CompositionItems(cmd.lines)).value, cmd.scope, cmd.lines, k, 0);
  }

  lemma {:induction false} ReleasedOwnNothing(rs: seq<Reservation>, scope: Scope, ids: seq<nat>, k: StockKey, compositionItem: nat)
    requires k.scope == scope && compositionItem in ids
    ensures Sum(ReleaseRows(rs, HeldIn(scope, ids)), OwnHolds(k, compositionItem)) == 0
  {
    var released := ReleaseRows(rs, HeldIn(scope, ids));
    SumZero(released, OwnHolds(k, compositionItem));
  }

  /** The holds of each of its composition items are what the lines for that item get. */
  lemma ReservationHoldsForItsItems(t: Tables, cmd: ReserveCommand, k: StockKey, compositionItem: nat)
    requires Inv(t) && Covered(t) && ReserveComposition(t, cmd).Ok? && k.scope == cmd.scope
    requires compositionItem in CompositionItems(cmd.lines)
    ensures var t' := ReserveComposition(t, cmd).value; var h := HeldByOthers(t, k, CompositionItems(cmd.lines));
      Sum(t'.reservations, OwnHolds(k, compositionItem)) == Sum(cmd.lines, GetsFor(k, compositionItem, OnHand(t, k) - h))
  {
    hide Inv, Covered, ReserveComposition, ReleaseActive, Plan, Reserved, OnHand, ReleaseRows;
    var ids := CompositionItems(cmd.lines);
    ReservationIsPlanned(t, cmd, k);
    var t1 := ReleaseActive(t, cmd.scope, ids).value;
    var plan := Plan(t1, cmd.scope, cmd.lines).value;
    PlanHoldsAll(t1, cmd.scope, cmd.lines, k, compositionItem);
    ReleasedOwnNothing(t.reservations, cmd.scope, ids, k, compositionItem);
    SumConcat(t1.reservations, plan, OwnHolds(k, compositionItem));
  }

  lemma {:induction false} SumOfOnly<T>(s: seq<T>, f: T -> int, n: nat)
    requires n < |s| && forall m :: 0 <= m < |s| && m != n ==> f(s[m]) == 0
    ensures Sum(s, f) == f(s[n])
  {
    var last := |s| - 1;
    if n == last {
      forall x | x in s[..last] ensures f(x) == 0 {
        var m :| 0 <= m < last && s[m] == x;
      }
      SumZero(s[..last], f);
    } else {
      SumOfOnly(s[..last], f, n);
    }
  }

  /**
   With every item on one line, as the order modules send them: each line holds its quantity, or all that
   others leave of its item if that is less, and the item is reserved for it on top of what others hold.
   */
  lemma EachLineHoldsWhatThereIs(t: Tables, cmd: ReserveCommand, n: nat)
    requires Inv(t) && Covered(t) && ReserveComposition(t, cmd).Ok? && n < |cmd.lines|
    requires forall a, b :: 0 <= a < b < |cmd.lines| ==> cmd.lines[a].item != cmd.lines[b].item
    ensures var t' := ReserveComposition(t, cmd).value; var line := cmd.lines[n];
      var k := StockKey(cmd.scope, line.item); var h := HeldByOthers(t, k, CompositionItems(cmd.lines));
      var gets := if line.quantity < OnHand(t, k) - h then line.quantity else OnHand(t, k) - h;
      && Reserved(t', k) == h + gets
      && Sum(t'.reservations, OwnHolds(k, line.compositionItem)) == gets
  {
    var line := cmd.lines[n];
    var k := StockKey(cmd.scope, line.item);
    var free := LeftFree(t, k, CompositionItems(cmd.lines));
    assert CompositionItems(cmd.lines)[n] == line.compositionItem;
    ReservationReservesItsShares(t, cmd, k);
    ReservationHoldsForItsItems(t, cmd, k, line.compositionItem);
    forall m | 0 <= m < |cmd.lines| && m != n
      ensures Gets(k, free)(cmd.lines[m]) == 0 && GetsFor(k, line.compositionItem, free)(cmd.lines[m]) == 0
    {
      if m < n { assert cmd.lines[m].item != cmd.lines[n].item; }
    }
    SumOfOnly(cmd.lines, Gets(k, free), n);
    SumOfOnly(cmd.lines, GetsFor(k, line.compositionItem, free), n);
  }

  /** And such a command always commits, whatever is in stock, if its quantities are positive. */
  lemma DistinctItemsAlwaysReserve(t: Tables, cmd: ReserveCommand)
    requires Inv(t) && Covered(t)
    requires forall n :: 0 <= n < |cmd.lines| ==> cmd.lines[n].quantity > 0
    requires forall a, b :: 0 <= a < b < |cmd.lines| ==> cmd.lines[a].item != cmd.lines[b].item
    ensures ReserveComposition(t, cmd).Ok?
  {
    var ids := CompositionItems(cmd.lines);
    forall line | line in cmd.lines
      ensures var k := StockKey(cmd.scope, line.item); Sum(cmd.lines, Gets(k, LeftFree(t, k, ids))) <= LeftFree(t, k, ids)
    {
      var k := StockKey(cmd.scope, line.item);
      var n :| 0 <= n < |cmd.lines| && cmd.lines[n] == line;
      forall m | 0 <= m < |cmd.lines| && m != n ensures Gets(k, LeftFree(t, k, ids))(cmd.lines[m]) == 0 {
        if m < n { assert cmd.lines[m].item != cmd.lines[n].item; }
      }
      SumOfOnly(cmd.lines, Gets(k, LeftFree(t, k, ids)), n);
    }
    ReservationSucceedsIff(t, cmd);
  }

  // ------------------------------------------------------ where the holds lie

  lemma {:induction false} PlannedByALine(t: Tables, scope: Scope, lines: seq<ReserveLine>, r: Reservation) returns (line: ReserveLine)
    requires Plan(t, scope, lines).Ok? && r in Plan(t, scope, lines).value
    ensures line in lines && r in PlanLine(t, scope, line) && line.quantity > 0
    ensures forall i :: Sum(PlanLine(t, scope, line), HeldOnBatch(i)) <= Sum(Plan(t, scope, lines).value, HeldOnBatch(i))
    decreases lines
  {
    var head, rest := PlanLine(t, scope, lines[0]), Plan(t, scope, lines[1..]).value;
    forall i ensures Sum(head + rest, HeldOnBatch(i)) == Sum(head, HeldOnBatch(i)) + Sum(rest, HeldOnBatch(i)) {
      SumConcat(head, rest, HeldOnBatch(i));
    }
    forall i ensures Sum(head, HeldOnBatch(i)) >= 0 && Sum(rest, HeldOnBatch(i)) >= 0 {
      SharesAreNatural(t, scope, lines[0], i);
      PlanSharesAreNatural(t, scope, lines[1..], i);
    }
    if r in head {
      line := lines[0];
    } else {
      line := PlannedByALine(t, scope, lines[1..], r);
    }
  }

  lemma PlanSharesAreNatural(t: Tables, scope: Scope, lines: seq<ReserveLine>, i: nat)
    requires Plan(t, scope, lines).Ok?
    ensures Sum(Plan(t, scope, lines).value, HeldOnBatch(i)) >= 0
  {
    PlanRows(t, scope, lines);
    SumNonNegative(Plan(t, scope, lines).value, HeldOnBatch(i));
  }

  /** Old holds of the command's composition items are released, all other old ones stay, and new ones are active holds of its lines. */
  lemma ReservationRows(t: Tables, cmd: ReserveCommand, i: nat)
    requires Inv(t) && Covered(t) && ReserveComposition(t, cmd).Ok?
    ensures var t' := ReserveComposition(t, cmd).value;
      && |t.reservations| <= |t'.reservations|
      && (i < |t.reservations| ==>
            var r := t.reservations[i];
            t'.reservations[i] == if r.key.scope == cmd.scope && r.compositionItem in CompositionItems(cmd.lines) && r.status.ActiveHold?
                                  then r.(status := ReleasedHold) else r)
      && (|t.reservations| <= i < |t'.reservations| ==>
            var r := t'.reservations[i];
            && r.status.ActiveHold? && r.quantity > 0 && r.batch < |t.batches| && t.batches[r.batch].key == r.key
            && exists line :: line in cmd.lines && r.key == StockKey(cmd.scope, line.item) && r.compositionItem == line.compositionItem)
  {
    hide Inv, Covered, ReserveComposition, ReleaseActive, Plan, ConsumptionOrder;
    ReservationIsPlanned(t, cmd, StockKey(cmd.scope, 0));
    var t1 := ReleaseActive(t, cmd.scope, CompositionItems(cmd.lines)).value;
    var t' := ReserveComposition(t, cmd).value;
    PlanRows(t1, cmd.scope, cmd.lines);
    if |t.reservations| <= i < |t'.reservations| {
      var r := t'.reservations[i];
      assert r == Plan(t1, cmd.scope, cmd.lines).value[i - |t.reservations|];
      var line := PlannedByALine(t1, cmd.scope, cmd.lines, r);
      var k := StockKey(cmd.scope, line.item);
      AllocatedRowsAreOf(t1, cmd.scope, line, ConsumptionOrder(t1, k), Min(line.quantity, Available(t1, k)));
    }
  }

  /** A new hold lies on a batch only if nothing is left free on any batch that comes before it, by receipt and then by expiry. */
  lemma ReservationFillsOldestFirst(t: Tables, cmd: ReserveCommand, i: nat, older: nat)
    requires Inv(t) && Covered(t) && ReserveComposition(t, cmd).Ok?
    requires |t.reservations| <= i < |ReserveComposition(t, cmd).value.reservations|
    requires var r := ReserveComposition(t, cmd).value.reservations[i];
      && older < |t.batches| && r.batch < |t.batches| && t.batches[older].key == r.key
      && t.batches[older].status.ActiveBatch? && t.batches[older].remaining > 0
      && Older(t.batches[older], t.batches[r.batch])
    ensures var t' := ReserveComposition(t, cmd).value;
      older < |t'.batches| && t'.batches[older].remaining <= Sum(t'.reservations, HeldOnBatch(older))
  {
    hide Inv, Covered, ReserveComposition, ReleaseActive, Plan, ConsumptionOrder, ConsumedBefore, Older, ReleaseRows;
    ReservationIsPlanned(t, cmd, StockKey(cmd.scope, 0));
    var t1 := ReleaseActive(t, cmd.scope, CompositionItems(cmd.lines)).value;
    var plan := Plan(t1, cmd.scope, cmd.lines).value;
    var t' := ReserveComposition(t, cmd).value;
    var r := t'.reservations[i];
    assert r == plan[i - |t.reservations|];
    var line := PlannedByALine(t1, cmd.scope, cmd.lines, r);
    var k := StockKey(cmd.scope, line.item);
    AllocatedRowsAreOf(t1, cmd.scope, line, ConsumptionOrder(t1, k), Min(line.quantity, Available(t1, k)));
    ReservationHoldsOldestFirst(t1, cmd.scope, line, older, r.batch);
    SumConcat(t1.reservations, plan, HeldOnBatch(older));
  }
}
