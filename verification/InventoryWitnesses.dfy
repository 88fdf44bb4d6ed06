/** Short runs in which every step commits and a hold, or the ledger, comes apart; and how a hold is mended. */
module InventoryWitnesses {
  import opened Wrappers
  import opened Sequences
  import opened InventoryTables
  import opened InventoryInvariant
  import opened InventoryPosting
  import opened InventoryIssue
  import opened InventoryIssueProofs
  import opened InventoryWriteOff
  import opened InventoryReservation
  import opened InventoryRuns
  import opened InventoryCoverage
  import opened InventoryOverbooking
  import opened InventoryBookings
  import opened InventoryIssuable

  const SHOP := Scope(1, 1, 1)
  const TULIP := StockKey(SHOP, 7)

  function Delivery(scope: Scope, receipt: nat, line: nat): PostCommand {
    PostCommand(scope, receipt, None, [ReceiptLine(line, 7, 10, 5, receipt, Material, None)])
  }

  function Stock(scope: Scope, line: nat, receipt: nat): Batch {
    Batch(StockKey(scope, 7), line, receipt, None, 10, 10, 5, ActiveBatch)
  }

  function ReceiptOf(scope: Scope, batch: nat, line: nat, receipt: nat): Movement {
    Movement(StockKey(scope, 7), batch, Receipt, 10, 5, GoodsReceiptItem, receipt, Given(line), None, receipt)
  }

  // ------------------------------------------------------- steps and runs

  lemma Committed(t: Tables, c: Command, t': Tables)
    requires Execute(t, c) == Ok(t')
    ensures Step(t, c) == t'
  {
  }

  /** A run, step by step. */
  lemma RunThrough(t: Tables, c: Command, t1: Tables, cs: seq<Command>, t': Tables)
    requires Step(t, c) == t1 && Run(t1, cs) == t'
    ensures Run(t, [c] + cs) == t'
  {
    assert ([c] + cs)[1..] == cs;
  }

  lemma RunOne(t: Tables, c: Command, t': Tables)
    requires Step(t, c) == t'
    ensures Run(t, [c]) == t'
  {
    assert [c][1..] == [];
  }

  /** A query over two rows looks at each once. */
  lemma MatchingPair<T>(s: seq<T>, p: T -> bool)
    requires |s| == 2
    ensures Matching(s, p) == (if p(s[0]) then [0] else []) + (if p(s[1]) then [1] else [])
  {
    assert s[..1] == [s[0]] && s[..1][..0] == [];
    assert Matching(s[..1], p) == if p(s[0]) then [0] else [];
  }

  lemma MatchingOne<T>(s: seq<T>, p: T -> bool)
    requires |s| == 1
    ensures Matching(s, p) == if p(s[0]) then [0] else []
  {
    assert s[..0] == [];
  }

  lemma SumOfPair<T>(s: seq<T>, f: T -> int)
    requires |s| == 2
    ensures Sum(s, f) == f(s[0]) + f(s[1])
  {
    assert s[..1] == [s[0]] && s[..1][..0] == [];
    assert Sum(s[..1], f) == f(s[0]);
  }

  lemma SumOfSingle<T>(s: seq<T>, f: T -> int)
    requires |s| == 1
    ensures Sum(s, f) == f(s[0])
  {
    assert s[..0] == [];
  }

  // ------------------------------------------------------------ deliveries

  /** A delivery of ten to a warehouse that has none of the item on a balance yet, or has so many. */
  function Delivered(t: Tables, scope: Scope, line: nat, receipt: nat, onHand: int): Tables {
    t.(balances := t.balances[StockKey(scope, 7) := Balance(onHand, 0, onHand)],
       batches := t.batches + [Stock(scope, line, receipt)],
       movements := t.movements + [ReceiptOf(scope, |t.batches|, line, receipt)])
  }

  lemma DeliveryCommits(t: Tables, scope: Scope, receipt: nat, line: nat, before: int)
    requires forall i :: 0 <= i < |t.batches| ==> t.batches[i].receiptLine != line
    requires forall j :: 0 <= j < |t.movements| ==> t.movements[j].sourceItem != Given(line)
    requires before == OnHand(t, StockKey(scope, 7)) >= 0 == Reserved(t, StockKey(scope, 7))
    ensures Execute(t, PostReceipt(Delivery(scope, receipt, line))) == Ok(Delivered(t, scope, line, receipt, before + 10))
  {
    var cmd := Delivery(scope, receipt, line);
    var l := cmd.lines[0];
    assert FindFirst(t.movements, ReceiptFor(scope.org, line)).None?;
    assert PostLine(t, cmd, l) == Ok(Delivered(t, scope, line, receipt, before + 10));
    assert cmd.lines[1..] == [];
    assert PostLines(t, cmd, cmd.lines) == PostLines(Delivered(t, scope, line, receipt, before + 10), cmd, []);
  }

  function OneDelivery(): Tables {
    Delivered(EMPTY, SHOP, 1, 100, 10)
  }

  function TwoDeliveries(): Tables {
    Tables(map[TULIP := Balance(20, 0, 20)], [Stock(SHOP, 1, 100), Stock(SHOP, 2, 200)],
           [ReceiptOf(SHOP, 0, 1, 100), ReceiptOf(SHOP, 1, 2, 200)], [], map[])
  }

  const FIRST := PostReceipt(Delivery(SHOP, 100, 1))
  const SECOND := PostReceipt(Delivery(SHOP, 200, 2))

  lemma AfterOneDelivery()
    ensures Step(EMPTY, FIRST) == OneDelivery()
  {
    DeliveryCommits(EMPTY, SHOP, 100, 1, 0);
  }

  lemma AfterTwoDeliveries()
    ensures Step(OneDelivery(), SECOND) == TwoDeliveries()
  {
    DeliveryCommits(OneDelivery(), SHOP, 200, 2, 10);
    assert Delivered(OneDelivery(), SHOP, 2, 200, 20) == TwoDeliveries();
  }

  // ---------------------------------------------------------- reservations

  function Hold(batch: nat, compositionItem: nat): Reservation {
    Reservation(TULIP, batch, compositionItem, 10, ActiveHold)
  }

  const HOLD_TEN := Reserve(ReserveCommand(SHOP, [ReserveLine(5, 7, 10)]))

  /** A line that wants all of the first batch in the order takes just that. */
  lemma LineTakesFirst(t: Tables, compositionItem: nat, first: nat, rest: seq<nat>)
    requires ConsumptionOrder(t, TULIP) == [first] + rest
    requires first < |t.batches| && FreeOn(t, first) == 10 && Available(t, TULIP) >= 10
    ensures PlanLine(t, SHOP, ReserveLine(compositionItem, 7, 10)) == [Hold(first, compositionItem)]
  {
    var line, order := ReserveLine(compositionItem, 7, 10), ConsumptionOrder(t, TULIP);
    assert order[0] == first;
    assert Allocate(t, SHOP, line, order[1..], 0) == [];
    assert Allocate(t, SHOP, line, order, 10) == [Hold(first, compositionItem)] + [];
  }

  lemma OrderOfOne(t: Tables, k: StockKey, i: nat)
    requires i < |t.batches| && Matching(t.batches, Eligible(k)) == [i]
    ensures ConsumptionOrder(t, k) == [i]
  {
    assert [i][..0] == [] && [] + [i] == [i];
    assert InConsumptionOrder(t.batches, []) == [];
  }

  lemma OrderOfTwo(t: Tables, k: StockKey, i: nat, j: nat)
    requires i < |t.batches| && j < |t.batches| && Matching(t.batches, Eligible(k)) == [i, j]
    requires ConsumedBefore(t.batches[i], t.batches[j])
    ensures ConsumptionOrder(t, k) == [i, j]
  {
    assert [i, j][..1] == [i] && [i][..0] == [] && [] + [i] == [i] && [i] + [j] == [i, j];
    assert InConsumptionOrder(t.batches, [i]) == InsertInOrder(t.batches, [], i) == [i];
  }

  lemma PlanCons(t: Tables, scope: Scope, line: ReserveLine, rest: seq<ReserveLine>, rows: seq<Reservation>, more: seq<Reservation>)
    requires line.quantity > 0 && PlanLine(t, scope, line) == rows && Plan(t, scope, rest) == Ok(more)
    ensures Plan(t, scope, [line] + rest) == Ok(rows + more)
  {
    assert ([line] + rest)[1..] == rest;
  }

  lemma PlanOfOne(t: Tables, line: ReserveLine, row: Reservation)
    requires line.quantity > 0 && PlanLine(t, SHOP, line) == [row]
    ensures Plan(t, SHOP, [line]) == Ok([row])
  {
    PlanCons(t, SHOP, line, [], [row], []);
    assert [line] + [] == [line] && [row] + [] == [row];
  }

  lemma PlanOfTwo(t: Tables, a: ReserveLine, b: ReserveLine, ra: Reservation, rb: Reservation)
    requires a.quantity > 0 && PlanLine(t, SHOP, a) == [ra]
    requires b.quantity > 0 && PlanLine(t, SHOP, b) == [rb]
    ensures Plan(t, SHOP, [a, b]) == Ok([ra, rb])
  {
    PlanOfOne(t, b, rb);
    PlanCons(t, SHOP, a, [b], [ra], [rb]);
    assert [a] + [b] == [a, b] && [ra] + [rb] == [ra, rb];
  }

  lemma ItemsOfOne(r: Reservation, p: Reservation -> bool)
    requires p(r)
    ensures ItemsOf([r], p) == [r.key.item]
  {
    assert [r][..0] == [];
    assert ItemsOf([], p) == [];
  }

  lemma ItemsOfTwo(a: Reservation, b: Reservation, p: Reservation -> bool)
    requires p(a) && p(b) && a.key.item == b.key.item
    ensures ItemsOf([a, b], p) == [a.key.item]
  {
    assert [a, b][..1] == [a];
    ItemsOfOne(a, p);
  }

  /** Adjusting the one item concerned. */
  lemma AdjustOne(t: Tables, rs: seq<Reservation>, p: Reservation -> bool, sign: int, onHand: int, reserved: int)
    requires TULIP in t.balances && t.balances[TULIP].onHand == onHand
    requires t.balances[TULIP].reserved + sign * Sum(rs, QuantityOf(p, TULIP)) == reserved
    requires 0 <= reserved <= onHand
    ensures AdjustEach(t, SHOP, [7], rs, p, sign)
            == Ok(t.(balances := t.balances[TULIP := Balance(onHand, reserved, onHand - reserved)]))
  {
    var t1 := t.(balances := t.balances[TULIP := Balance(onHand, reserved, onHand - reserved)]);
    assert AdjustReserved(t, TULIP, sign * Sum(rs, QuantityOf(p, TULIP))) == Ok(t1);
    assert [7][1..] == [];
    assert AdjustEach(t1, SHOP, [], rs, p, sign) == Ok(t1);
  }

  lemma NothingToRelease(t: Tables, compositionItems: seq<nat>)
    requires t.reservations == []
    ensures ReleaseActive(t, SHOP, compositionItems) == Ok(t)
  {
    var active := HeldIn(SHOP, compositionItems);
    assert ItemsOf(t.reservations, active) == [];
    assert ReleaseRows(t.reservations, active) == [];
  }

  lemma ReserveIs(t: Tables, cmd: ReserveCommand, t1: Tables, plan: seq<Reservation>, t2: Tables)
    requires ReleaseActive(t, cmd.scope, CompositionItems(cmd.lines)) == Ok(t1)
    requires Plan(t1, cmd.scope, cmd.lines) == Ok(plan) && StorePlan(t1, cmd.scope, plan) == Ok(t2)
    ensures Execute(t, Reserve(cmd)) == Ok(t2)
  {
  }

  function AfterHold(): Tables {
    TwoDeliveries().(balances := map[TULIP := Balance(20, 10, 10)], reservations := [Hold(0, 5)])
  }

  lemma FirstBatchFirst()
    ensures ConsumptionOrder(TwoDeliveries(), TULIP) == [0, 1] && FreeOn(TwoDeliveries(), 0) == 10
  {
    MatchingPair(TwoDeliveries().batches, Eligible(TULIP));
    OrderOfTwo(TwoDeliveries(), TULIP, 0, 1);
  }

  lemma HoldIsPlanned(compositionItem: nat)
    ensures PlanLine(TwoDeliveries(), SHOP, ReserveLine(compositionItem, 7, 10)) == [Hold(0, compositionItem)]
  {
    FirstBatchFirst();
    assert [0, 1] == [0] + [1];
    LineTakesFirst(TwoDeliveries(), compositionItem, 0, [1]);
  }

  lemma HoldIsStored()
    ensures Step(TwoDeliveries(), HOLD_TEN) == AfterHold()
  {
    hide StorePlan, PlanLine, ReleaseActive;
    var t, cmd := TwoDeliveries(), HOLD_TEN.reserve;
    var plan := [Hold(0, 5)];
    assert CompositionItems(cmd.lines) == [5];
    NothingToRelease(t, [5]);
    HoldIsPlanned(5);
    PlanOfOne(t, cmd.lines[0], Hold(0, 5));
    OneHoldStored();
    ReserveIs(t, cmd, t, plan, AfterHold());
  }

  /** Storing holds of one item. */
  lemma StoreOnTwoDeliveries(plan: seq<Reservation>, total: int)
    requires ItemsOf(plan, IsHeld()) == [7] && Sum(plan, QuantityOf(IsHeld(), TULIP)) == total
    requires 0 <= total <= 20
    ensures StorePlan(TwoDeliveries(), SHOP, plan)
            == Ok(TwoDeliveries().(balances := map[TULIP := Balance(20, total, 20 - total)], reservations := plan))
  {
    var t := TwoDeliveries();
    assert t.reservations + plan == plan;
    AdjustOne(t.(reservations := plan), plan, IsHeld(), 1, 20, total);
    assert t.balances[TULIP := Balance(20, total, 20 - total)] == map[TULIP := Balance(20, total, 20 - total)];
  }

  lemma OneHoldStored()
    ensures StorePlan(TwoDeliveries(), SHOP, [Hold(0, 5)]) == Ok(AfterHold())
  {
    ItemsOfOne(Hold(0, 5), IsHeld());
    SumOfSingle([Hold(0, 5)], QuantityOf(IsHeld(), TULIP));
    StoreOnTwoDeliveries([Hold(0, 5)], 10);
  }

  // -------------------------------------------------- two lines, one batch

  const TWO_LINES := Reserve(ReserveCommand(SHOP, [ReserveLine(5, 7, 10), ReserveLine(6, 7, 10)]))

  function Overbooked(): Tables {
    TwoDeliveries().(balances := map[TULIP := Balance(20, 20, 0)], reservations := [Hold(0, 5), Hold(0, 6)])
  }

  lemma TwoHoldsStored()
    ensures StorePlan(TwoDeliveries(), SHOP, [Hold(0, 5), Hold(0, 6)]) == Ok(Overbooked())
  {
    ItemsOfTwo(Hold(0, 5), Hold(0, 6), IsHeld());
    SumOfPair([Hold(0, 5), Hold(0, 6)], QuantityOf(IsHeld(), TULIP));
    StoreOnTwoDeliveries([Hold(0, 5), Hold(0, 6)], 20);
  }

  lemma BothLinesAreStored()
    ensures Step(TwoDeliveries(), TWO_LINES) == Overbooked()
  {
    hide StorePlan, PlanLine, ReleaseActive;
    var t, cmd := TwoDeliveries(), TWO_LINES.reserve;
    assert CompositionItems(cmd.lines) == [5, 6];
    NothingToRelease(t, [5, 6]);
    HoldIsPlanned(5);
    HoldIsPlanned(6);
    PlanOfTwo(t, cmd.lines[0], cmd.lines[1], Hold(0, 5), Hold(0, 6));
    TwoHoldsStored();
    ReserveIs(t, cmd, t, [Hold(0, 5), Hold(0, 6)], Overbooked());
  }

  lemma FromTwoDeliveries(c: Command, t': Tables)
    requires Step(TwoDeliveries(), c) == t'
    ensures Run(EMPTY, [FIRST, SECOND, c]) == t'
  {
    hide *;
    AfterOneDelivery();
    AfterTwoDeliveries();
    RunOne(TwoDeliveries(), c, t');
    RunThrough(OneDelivery(), SECOND, TwoDeliveries(), [c], t');
    RunThrough(EMPTY, FIRST, OneDelivery(), [SECOND] + [c], t');
    assert [FIRST] + ([SECOND] + [c]) == [FIRST, SECOND, c];
  }

  /**
   Two deliveries of ten, then two lines of ten for the item in one command: both are planned against the
   same free stock, so both holds land on the first batch. The adapter takes such a command; the order modules
   cannot send it, as their rows are unique per item.
   */
  lemma RepeatedItemOverbooksABatch()
    ensures Run(EMPTY, [FIRST, SECOND, TWO_LINES]).reservations == [Hold(0, 5), Hold(0, 6)]
    ensures !Covered(Run(EMPTY, [FIRST, SECOND, TWO_LINES]))
  {
    BothLinesAreStored();
    FromTwoDeliveries(TWO_LINES, Overbooked());
    SumOfPair(Overbooked().reservations, HeldOnBatch(0));
    assert Held(Overbooked(), 0) == 20;
  }

  // --------------------------------------------------- a receipt taken back

  const TAKE_BACK := ReverseReceipt(ReverseCommand(SHOP, 100, [1], None, 3))
  const COMPLETE_ORDER := IssueCommand(SHOP, Order, 50, OrderIssueComplete, "k", 9, [IssueLine(7, 10, [5])])

  function AfterTakeBack(): Tables {
    Tables(map[TULIP := Balance(10, 10, 0)],
           [Stock(SHOP, 1, 100).(remaining := 0, status := ReversedBatch), Stock(SHOP, 2, 200)],
           [ReceiptOf(SHOP, 0, 1, 100), ReceiptOf(SHOP, 1, 2, 200),
            Movement(TULIP, 0, ReceiptReversal, -10, 5, GoodsReceiptItem, 100, Given(1), Some(0), 3)],
           [Hold(0, 5)], map[])
  }

  lemma FirstReceiptIsFound()
    ensures FindFirst(AfterHold().movements, ReceiptOfBatch(1, 0)) == Some(0)
    ensures FindFirst(AfterHold().movements, ReversalFor(1, 1)).None?
  {
    assert ReceiptOfBatch(1, 0)(AfterHold().movements[0]);
  }

  lemma FirstBatchReverses()
    ensures ReverseBatch(AfterHold(), TAKE_BACK.reverse, 0) == Ok(AfterTakeBack())
  {
    var t, r := AfterHold(), TAKE_BACK.reverse;
    FirstReceiptIsFound();
    var t1 := t.(balances := map[TULIP := Balance(10, 10, 0)]);
    assert t.balances[TULIP := Balance(10, 10, 0)] == t1.balances;
    assert AdjustBalance(t, TULIP, -10) == Ok(t1);
    var m := ReversalMovement(r, 0, t.batches[0], 0);
    var t2 := t1.(movements := t1.movements + [m]);
    assert AddMovement(t1, m) == Ok(t2);
    assert t2.movements == AfterTakeBack().movements;
    var b := t.batches[0].(remaining := 0, status := ReversedBatch);
    assert t2.batches[0 := b] == AfterTakeBack().batches;
  }

  lemma OneBatchReverses(t: Tables, r: ReverseCommand, t': Tables)
    requires |t.batches| > 0 && ReverseBatch(t, r, 0) == Ok(t')
    ensures ReverseBatches(t, r, [0]) == Ok(t')
  {
    hide ReverseBatch;
    assert [0][1..] == [];
    assert ReverseBatches(t', r, []) == Ok(t');
  }

  lemma TakeBackCommits()
    ensures Step(AfterHold(), TAKE_BACK) == AfterTakeBack()
  {
    var t, r := AfterHold(), TAKE_BACK.reverse;
    MatchingPair(t.batches, InReceipt(r));
    assert Matching(t.batches, InReceipt(r)) == [0];
    FirstBatchReverses();
    OneBatchReverses(t, r, AfterTakeBack());
  }

  const STRANDING := [FIRST, SECOND, HOLD_TEN, TAKE_BACK]

  lemma FromTwoDeliveriesTwice(c: Command, t1: Tables, d: Command, t2: Tables)
    requires Step(TwoDeliveries(), c) == t1 && Step(t1, d) == t2
    ensures Run(EMPTY, [FIRST, SECOND, c, d]) == t2
  {
    hide *;
    AfterOneDelivery();
    AfterTwoDeliveries();
    RunOne(t1, d, t2);
    RunThrough(TwoDeliveries(), c, t1, [d], t2);
    RunThrough(OneDelivery(), SECOND, TwoDeliveries(), [c] + [d], t2);
    RunThrough(EMPTY, FIRST, OneDelivery(), [SECOND] + ([c] + [d]), t2);
    assert [FIRST] + ([SECOND] + ([c] + [d])) == [FIRST, SECOND, c, d];
  }

  lemma StrandingRun()
    ensures Run(EMPTY, STRANDING) == AfterTakeBack()
  {
    hide Run, Step;
    HoldIsStored();
    TakeBackCommits();
    FromTwoDeliveriesTwice(HOLD_TEN, AfterHold(), TAKE_BACK, AfterTakeBack());
  }

  lemma {:induction false} NoObligations(t: Tables, cs: seq<Command>)
    requires forall n :: 0 <= n < |cs| ==> !cs[n].AdjustItem? && !cs[n].ReverseSale? && !cs[n].ReverseWaste?
    ensures RunAddressed(t, cs)
    decreases cs
  {
    if cs != [] {
      NoObligations(Step(t, cs[0]), cs[1..]);
    }
  }

  lemma StrandedHoldIsRefused()
    ensures ConsumeHold(AfterTakeBack(), COMPLETE_ORDER, TULIP, 0, 10) == Rejected(ConstraintViolation)
  {
  }

  lemma StrandedLineIsRefused()
    ensures IssueOneLine(AfterTakeBack(), COMPLETE_ORDER, IssueLine(7, 10, [5])) == Rejected(ConstraintViolation)
  {
    hide ConsumeHold;
    var t := AfterTakeBack();
    MatchingOne(t.reservations, HeldFor(TULIP, [5]));
    StrandedHoldIsRefused();
    assert ConsumeHolds(t, COMPLETE_ORDER, TULIP, [0], 10) == Rejected(ConstraintViolation);
  }

  lemma StrandedIssueFails()
    ensures IssueStock(AfterTakeBack(), COMPLETE_ORDER) == Rejected(ConstraintViolation)
  {
    hide IssueOneLine;
    StrandedLineIsRefused();
  }

  /**
   Two deliveries of ten, ten reserved on the first, the first taken back: every step commits and the ledger
   agrees, but the hold now sits on an empty batch, and until its order is reserved again it cannot be issued.
   */
  lemma ReversalCanStrandAHold()
    ensures RunAddressed(EMPTY, STRANDING) && Inv(Run(EMPTY, STRANDING))
    ensures !Covered(Run(EMPTY, STRANDING))
    ensures IssueStock(Run(EMPTY, STRANDING), COMPLETE_ORDER) == Rejected(ConstraintViolation)
  {
    NoObligations(EMPTY, STRANDING);
    EmptyInv();
    RunKeepsInv(EMPTY, STRANDING);
    StrandingRun();
    SumOfSingle(AfterTakeBack().reservations, HeldOnBatch(0));
    assert Held(AfterTakeBack(), 0) == 10;
    StrandedIssueFails();
  }

  // ---------------------------------------------------------- reserved again

  function Freed(): Tables {
    AfterTakeBack().(balances := map[TULIP := Balance(10, 0, 10)], reservations := [Release(Hold(0, 5))])
  }

  function Mended(): Tables {
    Freed().(balances := map[TULIP := Balance(10, 10, 0)], reservations := [Release(Hold(0, 5)), Hold(1, 5)])
  }

  lemma StrandedHoldIsReleased()
    ensures ReleaseActive(AfterTakeBack(), SHOP, [5]) == Ok(Freed())
  {
    var t, active := AfterTakeBack(), HeldIn(SHOP, [5]);
    ItemsOfOne(Hold(0, 5), active);
    SumOfSingle(t.reservations, QuantityOf(active, TULIP));
    assert ReleaseRows(t.reservations, active) == Freed().reservations;
    AdjustOne(t.(reservations := Freed().reservations), t.reservations, active, -1, 10, 0);
    assert t.balances[TULIP := Balance(10, 0, 10)] == Freed().balances;
  }

  lemma SecondBatchIsPlanned()
    ensures PlanLine(Freed(), SHOP, ReserveLine(5, 7, 10)) == [Hold(1, 5)]
  {
    var t := Freed();
    MatchingPair(t.batches, Eligible(TULIP));
    OrderOfOne(t, TULIP, 1);
    SumOfSingle(t.reservations, HeldOnBatch(1));
    assert [1] == [1] + [];
    LineTakesFirst(t, 5, 1, []);
  }

  lemma SecondHoldIsStored()
    ensures StorePlan(Freed(), SHOP, [Hold(1, 5)]) == Ok(Mended())
  {
    var t, plan := Freed(), [Hold(1, 5)];
    ItemsOfOne(plan[0], IsHeld());
    SumOfSingle(plan, QuantityOf(IsHeld(), TULIP));
    assert t.reservations + plan == Mended().reservations;
    AdjustOne(t.(reservations := Mended().reservations), plan, IsHeld(), 1, 10, 10);
    assert t.balances[TULIP := Balance(10, 10, 0)] == Mended().balances;
  }

  lemma ReservingAgainCommits()
    ensures Step(AfterTakeBack(), HOLD_TEN) == Mended()
  {
    hide StorePlan, PlanLine, ReleaseActive;
    var cmd := HOLD_TEN.reserve;
    assert CompositionItems(cmd.lines) == [5];
    StrandedHoldIsReleased();
    SecondBatchIsPlanned();
    PlanOfOne(Freed(), cmd.lines[0], Hold(1, 5));
    SecondHoldIsStored();
    ReserveIs(AfterTakeBack(), cmd, Freed(), [Hold(1, 5)], Mended());
  }

  lemma MendedIsCovered()
    ensures Covered(Mended())
  {
    SumOfPair(Mended().reservations, HeldOnBatch(0));
    SumOfPair(Mended().reservations, HeldOnBatch(1));
  }

  lemma MendedCanIssue()
    ensures CanIssue(Mended(), SHOP, COMPLETE_ORDER.lines)
    ensures IdempotencyKey(SHOP.org, COMPLETE_ORDER.keyScope, COMPLETE_ORDER.key) !in Mended().keys
  {
    EnoughForOne(Mended(), SHOP, COMPLETE_ORDER.lines);
    SumOfPair(Mended().reservations, QuantityOf(HeldFor(TULIP, [5]), TULIP));
  }

  /** Reserving the order again moves its hold to the other batch, and then the same issue commits. */
  lemma ReservingAgainMendsAHold()
    ensures var t := Step(Run(EMPTY, STRANDING), HOLD_TEN); Covered(t) && IssueStock(t, COMPLETE_ORDER).Ok?
  {
    hide Run, Inv, Covered, CanIssue, IssueStock, AfterTakeBack, Mended, Step;
    StrandingRun();
    ReservingAgainCommits();
    EmptyInv();
    NoObligations(EMPTY, STRANDING);
    RunKeepsInv(EMPTY, STRANDING);
    StepKeepsInv(AfterTakeBack(), HOLD_TEN);
    RunStaysUnbooked(EMPTY, STRANDING);
    StepStaysUnbooked(AfterTakeBack(), HOLD_TEN);
    MendedIsCovered();
    MendedCanIssue();
    IssueSucceedsIff(Mended(), COMPLETE_ORDER);
  }

  // ------------------------------------------------------- a receipt cut down

  const CUT_DOWN := AdjustItem(AdjustCommand(SHOP, 100, 1, 7, 5, 5, 3))

  function AfterCut(): Tables {
    AfterHold().(balances := map[TULIP := Balance(15, 10, 5)],
                 batches := [Stock(SHOP, 1, 100).(initial := 5, remaining := 5), Stock(SHOP, 2, 200)],
                 movements := AfterHold().movements +
                   [Movement(TULIP, 0, CountAdjustmentOut, 5, 5, GoodsReceiptItem, 100, Minted(2), None, 3)])
  }

  lemma CutCommits()
    ensures Step(AfterHold(), CUT_DOWN) == AfterCut()
  {
    var t, a := AfterHold(), CUT_DOWN.adjust;
    assert Corrected(a)(t.batches[0]);
    assert FindFirst(t.batches, Corrected(a)) == Some(0);
    assert AddMovement(t, CorrectionMovement(t, a, 0, -5)) == Ok(t.(movements := AfterCut().movements));
    assert t.balances[TULIP := Balance(15, 10, 5)] == AfterCut().balances;
    assert t.batches[0 := CorrectedBatch(a, t.batches[0])] == AfterCut().batches;
  }

  /** Correcting the first receipt from ten to five, with ten reserved on it, commits and leaves the hold short. */
  lemma CorrectionCanStrandAHold()
    ensures RunAddressed(EMPTY, [FIRST, SECOND, HOLD_TEN, CUT_DOWN])
    ensures !Covered(Run(EMPTY, [FIRST, SECOND, HOLD_TEN, CUT_DOWN]))
  {
    HoldIsStored();
    CutCommits();
    CutIsAddressed();
    FromTwoDeliveriesTwice(HOLD_TEN, AfterHold(), CUT_DOWN, AfterCut());
    SumOfSingle(AfterCut().reservations, HeldOnBatch(0));
    assert Held(AfterCut(), 0) == 10;
  }

  lemma {:induction false} AddressedConcat(t: Tables, a: seq<Command>, b: seq<Command>)
    requires RunAddressed(t, a) && RunAddressed(Run(t, a), b)
    ensures RunAddressed(t, a + b)
    decreases a
  {
    hide Addressed, Step;
    if a == [] {
      assert [] + b == b;
    } else {
      assert (a + b)[1..] == a[1..] + b;
      AddressedConcat(Step(t, a[0]), a[1..], b);
    }
  }

  lemma CutNamesItsItem()
    ensures RunAddressed(AfterHold(), [CUT_DOWN])
  {
    assert Corrected(CUT_DOWN.adjust)(AfterHold().batches[0]);
    assert [CUT_DOWN][1..] == [];
  }

  lemma CutIsAddressed()
    ensures RunAddressed(EMPTY, [FIRST, SECOND, HOLD_TEN, CUT_DOWN])
  {
    hide Run, RunAddressed;
    NoObligations(EMPTY, [FIRST, SECOND, HOLD_TEN]);
    HoldIsStored();
    FromTwoDeliveries(HOLD_TEN, AfterHold());
    CutNamesItsItem();
    AddressedConcat(EMPTY, [FIRST, SECOND, HOLD_TEN], [CUT_DOWN]);
    assert [FIRST, SECOND, HOLD_TEN] + [CUT_DOWN] == [FIRST, SECOND, HOLD_TEN, CUT_DOWN];
  }

  // --------------------------------------------------- misnamed corrections

  const MISNAMED := AdjustItem(AdjustCommand(SHOP, 100, 1, 8, 12, 5, 3))

  function AfterMisnamed(): Tables {
    OneDelivery().(balances := OneDelivery().balances[StockKey(SHOP, 8) := Balance(2, 0, 2)],
                   batches := [Stock(SHOP, 1, 100).(initial := 12, remaining := 12)],
                   movements := OneDelivery().movements +
                     [Movement(StockKey(SHOP, 8), 0, CountAdjustmentIn, 2, 5, GoodsReceiptItem, 100, Minted(1), None, 3)])
  }

  lemma MisnamedCommits()
    ensures Step(OneDelivery(), MISNAMED) == AfterMisnamed()
  {
    var t, a := OneDelivery(), MISNAMED.adjust;
    assert Corrected(a)(t.batches[0]);
    assert FindFirst(t.batches, Corrected(a)) == Some(0);
    assert AddMovement(t, CorrectionMovement(t, a, 0, 2)) == Ok(t.(movements := AfterMisnamed().movements));
    assert t.batches[0 := CorrectedBatch(a, t.batches[0])] == AfterMisnamed().batches;
  }

  lemma MisnamedRun()
    ensures Run(EMPTY, [FIRST, MISNAMED]) == AfterMisnamed()
  {
    hide *;
    AfterOneDelivery();
    MisnamedCommits();
    RunOne(OneDelivery(), MISNAMED, AfterMisnamed());
    RunThrough(EMPTY, FIRST, OneDelivery(), [MISNAMED], AfterMisnamed());
    assert [FIRST] + [MISNAMED] == [FIRST, MISNAMED];
  }

  /** A correction that names item 8 for a batch of item 7 puts the two added on item 8's balance. */
  lemma MisnamedCorrectionDisagrees()
    ensures !OnHandAgrees(Run(EMPTY, [FIRST, MISNAMED]), TULIP)
  {
    hide Run;
    MisnamedRun();
    SumOfSingle(AfterMisnamed().batches, RemainingOf(TULIP));
  }

  // ----------------------------------------------------- misplaced reversals

  const ANNEX := Scope(1, 1, 2)

  const SALE := IssueGoods(IssueCommand(SHOP, Sale, 60, SaleIssue, "s", 2, [IssueLine(7, 4, [])]))
  const RETURN_TO_ANNEX := ReverseSale(ReverseIssueCommand(ANNEX, 60, "r", 3))

  function Sold(): Movement {
    Movement(TULIP, 0, Issue, 4, 5, Sale, 60, Minted(1), None, 2)
  }

  function AfterSale(): Tables {
    OneDelivery().(balances := map[TULIP := Balance(6, 0, 6)],
                   batches := [Stock(SHOP, 1, 100).(remaining := 6)],
                   movements := [ReceiptOf(SHOP, 0, 1, 100), Sold()],
                   keys := map[IdempotencyKey(1, SaleIssue, "s") := 60])
  }

  lemma SliceIsSold()
    ensures TakeFree(OneDelivery(), SALE.issue, TULIP, 0, 4) == Ok(Progress(AfterSale().(keys := map[]), 0))
  {
    var t := OneDelivery();
    assert FreeOn(t, 0) == 10;
    assert t.movements + [Sold()] == AfterSale().movements;
    assert AddMovement(t, Sold()) == Ok(t.(movements := AfterSale().movements));
    assert t.batches[0 := Take(t.batches[0], 4)] == AfterSale().batches;
    assert t.balances[TULIP := Balance(6, 0, 6)] == AfterSale().balances;
  }

  lemma FreeStockIsSold()
    ensures IssueFromFreeStock(OneDelivery(), SALE.issue, TULIP, 4) == Ok(AfterSale().(keys := map[]))
  {
    hide TakeFree;
    var t := OneDelivery();
    MatchingOne(t.batches, Eligible(TULIP));
    OrderOfOne(t, TULIP, 0);
    SliceIsSold();
    assert [0][1..] == [];
    assert TakeFreeStock(AfterSale().(keys := map[]), SALE.issue, TULIP, [], 0)
           == Ok(Progress(AfterSale().(keys := map[]), 0));
  }

  lemma SaleCommits()
    ensures Step(OneDelivery(), SALE) == AfterSale()
  {
    hide IssueFromFreeStock;
    FreeStockIsSold();
    var sold := AfterSale().(keys := map[]);
    assert IssueOneLine(OneDelivery(), SALE.issue, IssueLine(7, 4, [])) == Ok(sold);
    assert SALE.issue.lines[1..] == [];
    assert IssueLines(OneDelivery(), SALE.issue, SALE.issue.lines) == IssueLines(sold, SALE.issue, []);
  }

  function AfterReturn(): Tables {
    AfterSale().(balances := map[TULIP := Balance(6, 0, 6), StockKey(ANNEX, 7) := Balance(4, 0, 4)],
                 batches := [Stock(SHOP, 1, 100)],
                 movements := AfterSale().movements +
                   [Movement(StockKey(ANNEX, 7), 0, IssueReversal, -4, 5, Sale, 60, Minted(1), Some(1), 3)],
                 keys := AfterSale().keys[IdempotencyKey(1, SaleIssueReverse, "r") := 60])
  }

  lemma SliceIsReturned()
    ensures ReverseSlice(AfterSale(), RETURN_TO_ANNEX.reverseIssue, 1) == Ok(AfterReturn().(keys := AfterSale().keys))
  {
    var t, m := AfterSale(), Sold();
    assert t.batches[0 := GiveBack(t.batches[0], 4)] == AfterReturn().batches;
    assert t.balances[StockKey(ANNEX, 7) := Balance(4, 0, 4)] == AfterReturn().balances;
    var c := Compensation(ANNEX, 1, m, IssueReversal, 3);
    assert SourceFree(t.movements, c);
    assert t.movements + [c] == AfterReturn().movements;
  }

  lemma ReturnCommits()
    ensures Step(AfterSale(), RETURN_TO_ANNEX) == AfterReturn()
  {
    hide ReverseSlice;
    var t, r := AfterSale(), RETURN_TO_ANNEX.reverseIssue;
    MatchingPair(t.movements, OfDocument(1, Sale, 60, Issue));
    assert FindFirst(t.movements, OfDocument(1, Sale, 60, IssueReversal)).None?;
    SliceIsReturned();
    assert [1][1..] == [];
    assert ReverseSlices(t, r, [1]) == ReverseSlices(AfterReturn().(keys := t.keys), r, []);
  }

  lemma ReturnRun()
    ensures Run(EMPTY, [FIRST, SALE, RETURN_TO_ANNEX]) == AfterReturn()
  {
    hide *;
    AfterOneDelivery();
    SaleCommits();
    ReturnCommits();
    RunOne(AfterSale(), RETURN_TO_ANNEX, AfterReturn());
    RunThrough(OneDelivery(), SALE, AfterSale(), [RETURN_TO_ANNEX], AfterReturn());
    RunThrough(EMPTY, FIRST, OneDelivery(), [SALE] + [RETURN_TO_ANNEX], AfterReturn());
    assert [FIRST] + ([SALE] + [RETURN_TO_ANNEX]) == [FIRST, SALE, RETURN_TO_ANNEX];
  }

  /** Ten delivered, four sold, and the sale reversed into another warehouse: the batch is full, its balance is not. */
  lemma MisplacedReturnDisagrees()
    ensures !OnHandAgrees(Run(EMPTY, [FIRST, SALE, RETURN_TO_ANNEX]), TULIP)
  {
    hide Run;
    ReturnRun();
    SumOfSingle(AfterReturn().batches, RemainingOf(TULIP));
  }

  const TO_ANNEX := PostReceipt(Delivery(ANNEX, 200, 2))
  const WASTE := PostWaste(WriteOffCommand(SHOP, 70, "w", 2, [WriteOffLine(71, 7, 4)]))
  const UNWASTE_IN_ANNEX := ReverseWaste(ReverseWriteOffCommand(ANNEX, 70, "u", 3))

  function BothStocked(): Tables {
    Delivered(OneDelivery(), ANNEX, 2, 200, 10)
  }

  function Thrown(): Movement {
    Movement(TULIP, 0, WriteOff, 4, 5, WriteOffItem, 70, Given(71), None, 2)
  }

  function AfterWaste(): Tables {
    BothStocked().(balances := BothStocked().balances[TULIP := Balance(6, 0, 6)],
                   batches := [Stock(SHOP, 1, 100).(remaining := 6), Stock(ANNEX, 2, 200)],
                   movements := BothStocked().movements + [Thrown()],
                   keys := map[IdempotencyKey(1, InventoryTables.PostingScope.WriteOffPost, "w") := 70])
  }

  lemma SliceIsThrown()
    ensures WriteOffSlice(BothStocked(), WASTE.writeOff, WASTE.writeOff.lines[0], 0, 4)
            == Ok(Progress(AfterWaste().(keys := map[]), 0))
  {
    var t := BothStocked();
    assert FreeOn(t, 0) == 10;
    assert AddMovement(t, Thrown()) == Ok(t.(movements := AfterWaste().movements));
    assert t.batches[0 := Take(t.batches[0], 4)] == AfterWaste().batches;
  }

  lemma LineIsThrown()
    ensures PostWriteOffLine(BothStocked(), WASTE.writeOff, WASTE.writeOff.lines[0]) == Ok(AfterWaste().(keys := map[]))
  {
    hide WriteOffSlice;
    var t, line := BothStocked(), WASTE.writeOff.lines[0];
    MatchingPair(t.batches, Eligible(TULIP));
    OrderOfOne(t, TULIP, 0);
    SliceIsThrown();
    assert [0][1..] == [];
    assert WriteOffSlices(t, WASTE.writeOff, line, [0], 4)
           == WriteOffSlices(AfterWaste().(keys := map[]), WASTE.writeOff, line, [], 0);
  }

  lemma WasteCommits()
    ensures Step(BothStocked(), WASTE) == AfterWaste()
  {
    hide PostWriteOffLine;
    LineIsThrown();
    var w := WASTE.writeOff;
    assert w.lines[1..] == [];
    assert PostWriteOffLines(BothStocked(), w, w.lines) == PostWriteOffLines(AfterWaste().(keys := map[]), w, []);
  }

  function AfterUnwaste(): Tables {
    AfterWaste().(balances := AfterWaste().balances[StockKey(ANNEX, 7) := Balance(14, 0, 14)],
                  batches := [Stock(SHOP, 1, 100), Stock(ANNEX, 2, 200)],
                  movements := AfterWaste().movements +
                    [Movement(StockKey(ANNEX, 7), 0, WriteOffReversal, -4, 5, WriteOffItem, 70, Given(71), Some(2), 3)],
                  keys := AfterWaste().keys[IdempotencyKey(1, InventoryTables.PostingScope.WriteOffReverse, "u") := 70])
  }

  lemma SliceIsUnwasted()
    ensures ReverseWriteOffSlice(AfterWaste(), UNWASTE_IN_ANNEX.reverseWriteOff, 2) == Ok(AfterUnwaste().(keys := AfterWaste().keys))
  {
    var t := AfterWaste();
    assert t.movements[2] == Thrown();
    assert t.batches[0 := GiveBack(t.batches[0], 4)] == AfterUnwaste().batches;
    assert StockKey(ANNEX, 7) != TULIP && t.balances[StockKey(ANNEX, 7)] == Balance(10, 0, 10);
    var c := Compensation(ANNEX, 2, Thrown(), WriteOffReversal, 3);
    assert SourceFree(t.movements, c);
    assert t.movements + [c] == AfterUnwaste().movements;
  }

  lemma WasteIsFound()
    ensures Matching(AfterWaste().movements, Wasted()) == [2]
  {
    var ms := AfterWaste().movements;
    assert ms[..2] == BothStocked().movements;
    MatchingPair(ms[..2], Wasted());
  }

  function Wasted(): Movement -> bool {
    OfDocument(1, WriteOffItem, 70, WriteOff)
  }

  lemma RowsAreUnwasted()
    ensures ReverseWriteOffSlices(AfterWaste(), UNWASTE_IN_ANNEX.reverseWriteOff, [2]) == Ok(AfterUnwaste().(keys := AfterWaste().keys))
  {
    hide ReverseWriteOffSlice, AfterWaste, AfterUnwaste;
    SliceIsUnwasted();
    assert [2][1..] == [];
  }

  lemma UnwasteCommits()
    ensures Step(AfterWaste(), UNWASTE_IN_ANNEX) == AfterUnwaste()
  {
    hide ReverseWriteOffSlices;
    WasteIsFound();
    RowsAreUnwasted();
  }

  lemma UnwasteRun()
    ensures Run(EMPTY, [FIRST, TO_ANNEX, WASTE, UNWASTE_IN_ANNEX]) == AfterUnwaste()
  {
    hide *;
    AfterOneDelivery();
    AnnexIsStocked();
    WasteCommits();
    UnwasteCommits();
    RunOne(AfterWaste(), UNWASTE_IN_ANNEX, AfterUnwaste());
    RunThrough(BothStocked(), WASTE, AfterWaste(), [UNWASTE_IN_ANNEX], AfterUnwaste());
    RunThrough(OneDelivery(), TO_ANNEX, BothStocked(), [WASTE] + [UNWASTE_IN_ANNEX], AfterUnwaste());
    RunThrough(EMPTY, FIRST, OneDelivery(), [TO_ANNEX] + ([WASTE] + [UNWASTE_IN_ANNEX]), AfterUnwaste());
    assert [FIRST] + ([TO_ANNEX] + ([WASTE] + [UNWASTE_IN_ANNEX])) == [FIRST, TO_ANNEX, WASTE, UNWASTE_IN_ANNEX];
  }

  lemma AnnexIsStocked()
    ensures Step(OneDelivery(), TO_ANNEX) == BothStocked()
  {
    DeliveryCommits(OneDelivery(), ANNEX, 200, 2, 0);
    Committed(OneDelivery(), TO_ANNEX, BothStocked());
  }

  /** The same for a write-off reversed into another warehouse that stocks the item. */
  lemma MisplacedUnwasteDisagrees()
    ensures !OnHandAgrees(Run(EMPTY, [FIRST, TO_ANNEX, WASTE, UNWASTE_IN_ANNEX]), TULIP)
  {
    hide Run;
    UnwasteRun();
    SumOfPair(AfterUnwaste().batches, RemainingOf(TULIP));
  }
}
