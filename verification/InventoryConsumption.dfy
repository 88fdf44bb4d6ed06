/** Free stock is issued, written off and reserved oldest batch first; an issue takes exactly what was asked for. */
module InventoryConsumption {
  import opened Wrappers
  import opened Sequences
  import opened InventoryTables
  import opened InventoryInvariant
  import opened InventoryIssue
  import opened InventoryIssueProofs
  import opened InventoryWriteOff
  import opened InventoryReservation
  import opened InventoryOverbooking

  ghost predicate InOrder(batches: seq<Batch>, order: seq<nat>)
    requires forall n :: 0 <= n < |order| ==> order[n] < |batches|
  {
    forall a, b :: 0 <= a < b < |order| ==> ConsumedBefore(batches[order[a]], batches[order[b]])
  }

  /** Received first; of two received at once, expiring first; and of those one that expires before one that never does. */
  predicate Older(a: Batch, b: Batch) {
    || a.receivedAt < b.receivedAt
    || (a.receivedAt == b.receivedAt &&
        match a.expiresAt
        case None => false
        case Some(at) => b.expiresAt.None? || at < b.expiresAt.value)
  }

  /** A batch may be consumed before any other that is not older; of any two one may go first, consistently. */
  lemma ConsumedBeforeIsTotalPreorder(a: Batch, b: Batch, c: Batch)
    ensures ConsumedBefore(a, b) <==> !Older(b, a)
    ensures ConsumedBefore(a, b) || ConsumedBefore(b, a)
    ensures ConsumedBefore(a, b) && ConsumedBefore(b, c) ==> ConsumedBefore(a, c)
  {
  }

  lemma {:induction false} InsertKeepsOrder(batches: seq<Batch>, order: seq<nat>, i: nat)
    requires i < |batches| && (forall n :: 0 <= n < |order| ==> order[n] < |batches|) && InOrder(batches, order)
    ensures InOrder(batches, InsertInOrder(batches, order, i))
  {
    if order != [] {
      var last, pre := order[|order| - 1], order[..|order| - 1];
      if ConsumedBefore(batches[last], batches[i]) {
        forall a | 0 <= a < |order| ensures ConsumedBefore(batches[order[a]], batches[i]) {
          ConsumedBeforeIsTotalPreorder(batches[order[a]], batches[last], batches[i]);
        }
      } else {
        InsertKeepsOrder(batches, pre, i);
        var rest := InsertInOrder(batches, pre, i);
        ConsumedBeforeIsTotalPreorder(batches[last], batches[i], batches[i]);
        forall a | 0 <= a < |rest| ensures ConsumedBefore(batches[rest[a]], batches[last]) {
          assert rest[a] in rest;
          assert rest[a] in pre || rest[a] == i;
        }
      }
    }
  }

  lemma {:induction false} SortingOrders(batches: seq<Batch>, rows: seq<nat>)
    requires forall n :: 0 <= n < |rows| ==> rows[n] < |batches|
    ensures InOrder(batches, InConsumptionOrder(batches, rows))
  {
    if rows != [] {
      SortingOrders(batches, rows[..|rows| - 1]);
      InsertKeepsOrder(batches, InConsumptionOrder(batches, rows[..|rows| - 1]), rows[|rows| - 1]);
    }
  }

  /** What a walk over some batches does: the rest stays, and nothing later is touched while something earlier is free. */
  ghost predicate FrontFirst(t: Tables, t': Tables, order: seq<nat>)
    requires forall n :: 0 <= n < |order| ==> order[n] < |t.batches|
  {
    && |t'.batches| == |t.batches| && t'.reservations == t.reservations
    && (forall i :: 0 <= i < |t.batches| && i !in order ==> t'.batches[i] == t.batches[i])
    && (forall a, b :: 0 <= a < b < |order| && t'.batches[order[b]] != t.batches[order[b]] ==> FreeOn(t', order[a]) <= 0)
  }

  lemma FrontFirstCons(t: Tables, t1: Tables, t': Tables, order: seq<nat>)
    requires order != [] && Distinct(order) && forall n :: 0 <= n < |order| ==> order[n] < |t.batches|
    requires FrontFirst(t, t1, [order[0]]) && FrontFirst(t1, t', order[1..])
    requires FreeOn(t1, order[0]) <= 0 || t' == t1
    ensures FrontFirst(t, t', order)
  {
    assert forall i :: i in order <==> i == order[0] || i in order[1..];
    assert order[0] !in order[1..];
    forall a, b | 0 <= a < b < |order| && t'.batches[order[b]] != t.batches[order[b]]
      ensures FreeOn(t', order[a]) <= 0
    {
      assert order[b] == order[1..][b - 1] && order[b] != order[0];
      assert t1.batches[order[b]] == t.batches[order[b]];
      if a > 0 { assert order[a] == order[1..][a - 1]; }
    }
  }

  lemma {:induction false} WalkTakesFrontFirst(t: Tables, cmd: IssueCommand, k: StockKey, order: seq<nat>, remaining: int)
    requires forall n :: 0 <= n < |order| ==> order[n] < |t.batches|
    requires Distinct(order) && remaining > 0 && TakeFreeStock(t, cmd, k, order, remaining).Ok?
    ensures FrontFirst(t, TakeFreeStock(t, cmd, k, order, remaining).value.tables, order)
    decreases order
  {
    if order != [] {
      var p := TakeFree(t, cmd, k, order[0], remaining).value;
      var t' := TakeFreeStock(t, cmd, k, order, remaining).value.tables;
      assert FrontFirst(t, p.tables, [order[0]]);
      if p.remaining > 0 {
        WalkTakesFrontFirst(p.tables, cmd, k, order[1..], p.remaining);
      } else {
        assert t' == p.tables;
      }
      FrontFirstCons(t, p.tables, t', order);
    }
  }

  lemma {:induction false} WalkTakesExactly(t: Tables, cmd: IssueCommand, k: StockKey, order: seq<nat>, remaining: int)
    requires forall n :: 0 <= n < |order| ==> order[n] < |t.batches|
    requires remaining > 0 && TakeFreeStock(t, cmd, k, order, remaining).Ok?
    ensures var p := TakeFreeStock(t, cmd, k, order, remaining).value;
      && 0 <= p.remaining <= remaining
      && OnHand(p.tables, k) == OnHand(t, k) - (remaining - p.remaining)
      && Reserved(p.tables, k) == Reserved(t, k)
    decreases order
  {
    if order != [] {
      var p := TakeFree(t, cmd, k, order[0], remaining).value;
      if p.remaining > 0 {
        WalkTakesExactly(p.tables, cmd, k, order[1..], p.remaining);
      }
    }
  }

  /** Where one batch is consumed before another and not the other way round, it stands before it in the order. */
  lemma ConsumedFirstStandsFirst(t: Tables, k: StockKey, older: nat, newer: nat) returns (a: nat, b: nat)
    requires older < |t.batches| && newer < |t.batches|
    requires Eligible(k)(t.batches[older]) && Eligible(k)(t.batches[newer])
    requires Older(t.batches[older], t.batches[newer])
    ensures a < b < |ConsumptionOrder(t, k)|
    ensures ConsumptionOrder(t, k)[a] == older && ConsumptionOrder(t, k)[b] == newer
  {
    var order := ConsumptionOrder(t, k);
    SortingOrders(t.batches, Matching(t.batches, Eligible(k)));
    assert older in order && newer in order;
    a :| 0 <= a < |order| && order[a] == older;
    b :| 0 <= b < |order| && order[b] == newer;
    ConsumedBeforeIsTotalPreorder(t.batches[newer], t.batches[newer], t.batches[newer]);
  }

  /** A walk over the order leaves a later batch alone while an earlier one has anything free. */
  lemma EarlierIsEmptiedFirst(t: Tables, t': Tables, k: StockKey, older: nat, newer: nat)
    requires FrontFirst(t, t', ConsumptionOrder(t, k))
    requires older < |t.batches| && newer < |t.batches| && Eligible(k)(t.batches[older])
    requires Older(t.batches[older], t.batches[newer])
    ensures t'.batches[newer] != t.batches[newer] ==> FreeOn(t', older) <= 0
  {
    if t'.batches[newer] != t.batches[newer] {
      assert newer in ConsumptionOrder(t, k);
      var a, b := ConsumedFirstStandsFirst(t, k, older, newer);
    }
  }

  /**
   A committed issue from free stock lowers on-hand by exactly the quantity asked for, leaves every
   reservation alone, and draws on a batch only when every eligible batch that comes before it, by receipt
   and then by expiry, has no free stock left.
   */
  lemma IssueDrawsOldestFirst(t: Tables, cmd: IssueCommand, k: StockKey, needed: int, older: nat, newer: nat)
    requires needed > 0 && IssueFromFreeStock(t, cmd, k, needed).Ok?
    requires older < |t.batches| && newer < |t.batches|
    requires t.batches[older].key == k && t.batches[older].status == ActiveBatch && t.batches[older].remaining > 0
    requires Older(t.batches[older], t.batches[newer])
    ensures var t' := IssueFromFreeStock(t, cmd, k, needed).value;
      && OnHand(t', k) == OnHand(t, k) - needed
      && Reserved(t', k) == Reserved(t, k) && t'.reservations == t.reservations
      && |t'.batches| == |t.batches|
      && (t'.batches[newer] != t.batches[newer] ==> FreeOn(t', older) <= 0)
  {
    var order := ConsumptionOrder(t, k);
    WalkTakesFrontFirst(t, cmd, k, order, needed);
    WalkTakesExactly(t, cmd, k, order, needed);
    EarlierIsEmptiedFirst(t, IssueFromFreeStock(t, cmd, k, needed).value, k, older, newer);
  }

  lemma {:induction false} WriteOffTakesFrontFirst(t: Tables, cmd: WriteOffCommand, line: WriteOffLine, order: seq<nat>, needed: int)
    requires forall n :: 0 <= n < |order| ==> order[n] < |t.batches|
    requires Distinct(order) && needed > 0 && WriteOffSlices(t, cmd, line, order, needed).Ok?
    ensures FrontFirst(t, WriteOffSlices(t, cmd, line, order, needed).value.tables, order)
    decreases order
  {
    if order != [] {
      var p := WriteOffSlice(t, cmd, line, order[0], needed).value;
      var t' := WriteOffSlices(t, cmd, line, order, needed).value.tables;
      assert FrontFirst(t, p.tables, [order[0]]);
      if p.remaining > 0 {
        WriteOffTakesFrontFirst(p.tables, cmd, line, order[1..], p.remaining);
      } else {
        assert t' == p.tables;
      }
      FrontFirstCons(t, p.tables, t', order);
    }
  }

  /** A written-off line draws on a batch only when every eligible one before it has no free stock left. */
  lemma WriteOffDrawsOldestFirst(t: Tables, cmd: WriteOffCommand, line: WriteOffLine, older: nat, newer: nat)
    requires line.quantity > 0 && PostWriteOffLine(t, cmd, line).Ok?
    requires older < |t.batches| && newer < |t.batches|
    requires t.batches[older].key == StockKey(cmd.scope, line.item)
    requires t.batches[older].status == ActiveBatch && t.batches[older].remaining > 0
    requires Older(t.batches[older], t.batches[newer])
    ensures var t' := PostWriteOffLine(t, cmd, line).value;
      && |t'.batches| == |t.batches|
      && (t'.batches[newer] != t.batches[newer] ==> FreeOn(t', older) <= 0)
  {
    var k := StockKey(cmd.scope, line.item);
    WriteOffTakesFrontFirst(t, cmd, line, ConsumptionOrder(t, k), line.quantity);
    EarlierIsEmptiedFirst(t, PostWriteOffLine(t, cmd, line).value, k, older, newer);
  }

  /** A plan that reaches a later batch holds all that was free on an earlier one. */
  lemma {:induction false} PlanTakesFrontFirst(
    t: Tables, scope: Scope, line: ReserveLine, order: seq<nat>, remaining: int, a: nat, b: nat)
    requires forall n :: 0 <= n < |order| ==> order[n] < |t.batches|
    requires Distinct(order) && a < b < |order|
    requires exists r :: r in Allocate(t, scope, line, order, remaining) && r.batch == order[b]
    ensures FreeOn(t, order[a]) <= Sum(Allocate(t, scope, line, order, remaining), HeldOnBatch(order[a]))
    decreases order
  {
    var free := FreeOn(t, order[0]);
    var left := if free <= 0 then remaining else remaining - Min(free, remaining);
    var rest := Allocate(t, scope, line, order[1..], left);
    var r :| r in Allocate(t, scope, line, order, remaining) && r.batch == order[b];
    assert r in rest by { assert order[b] != order[0]; }
    if free > 0 {
      var row := Reservation(StockKey(scope, line.item), order[0], line.compositionItem, Min(free, remaining), ActiveHold);
      SumConcat([row], rest, HeldOnBatch(order[a]));
      assert Sum([row], HeldOnBatch(order[a])) == HeldOnBatch(order[a])(row);
    }
    if a == 0 {
      AllocateMisses(t, scope, line, order[1..], left, order[0]);
      assert left > 0;
    } else {
      assert order[1..][a - 1] == order[a] && order[1..][b - 1] == order[b];
      PlanTakesFrontFirst(t, scope, line, order[1..], left, a - 1, b - 1);
    }
  }

  /** A reservation line holds a batch only when it holds all that is free on every eligible one before it. */
  lemma ReservationHoldsOldestFirst(t: Tables, scope: Scope, line: ReserveLine, older: nat, newer: nat)
    requires older < |t.batches| && newer < |t.batches|
    requires t.batches[older].key == StockKey(scope, line.item)
    requires t.batches[older].status == ActiveBatch && t.batches[older].remaining > 0
    requires Older(t.batches[older], t.batches[newer])
    requires exists r :: r in PlanLine(t, scope, line) && r.batch == newer
    ensures FreeOn(t, older) <= Sum(PlanLine(t, scope, line), HeldOnBatch(older))
  {
    var k := StockKey(scope, line.item);
    var toReserve := Min(line.quantity, Available(t, k));
    var order := ConsumptionOrder(t, k);
    var r :| r in PlanLine(t, scope, line) && r.batch == newer;
    AllocatedLiesInOrder(t, scope, line, order, toReserve);
    var a, b := ConsumedFirstStandsFirst(t, k, older, newer);
    PlanTakesFrontFirst(t, scope, line, order, toReserve, a, b);
  }

  lemma {:induction false} AllocatedLiesInOrder(t: Tables, scope: Scope, line: ReserveLine, order: seq<nat>, remaining: int)
    requires forall n :: 0 <= n < |order| ==> order[n] < |t.batches|
    ensures forall r :: r in Allocate(t, scope, line, order, remaining) ==> r.batch in order
    decreases order
  {
    if order != [] && remaining > 0 {
      var free := FreeOn(t, order[0]);
      AllocatedLiesInOrder(t, scope, line, order[1..], if free <= 0 then remaining else remaining - Min(free, remaining));
      assert forall i :: i in order[1..] ==> i in order;
    }
  }
}
