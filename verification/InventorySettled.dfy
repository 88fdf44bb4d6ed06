/**
 What an issue line makes of the holds it names: they are drawn on in the order they were made, each as far as
 the line still needs it; one that was needed whole is consumed, any other is released for what is left of it.
 */
module InventorySettled {
  import opened Wrappers
  import opened Sequences
  import opened InventoryTables
  import opened InventoryInvariant
  import opened InventoryIssue
  import opened InventoryIssueProofs
  import opened InventoryIssuable

  /** What a line still in need of some quantity draws from a hold. */
  function Share(need: int, quantity: int): int {
    if need <= 0 then 0 else if need < quantity then need else quantity
  }

  /** What the line's holds made before a row amount to. */
  function HeldBefore(rs: seq<Reservation>, k: StockKey, sources: seq<nat>, row: nat): int
    requires row <= |rs|
  {
    HeldBy(rs[..row], k, sources)
  }

  /** The row while holds are being drawn on, and once the line is done with them. */
  function Drained(r: Reservation, drawn: int): Reservation {
    if drawn <= 0 then r
    else if drawn == r.quantity then r.(status := ConsumedHold) else r.(quantity := r.quantity - drawn)
  }

  function Settled(r: Reservation, drawn: int): Reservation {
    if drawn == r.quantity then r.(status := ConsumedHold) else r.(quantity := r.quantity - drawn, status := ReleasedHold)
  }

  predicate PositiveRows(rs: seq<Reservation>) {
    forall i :: 0 <= i < |rs| ==> rs[i].quantity > 0
  }

  lemma InvHasPositiveRows(t: Tables)
    requires Inv(t)
    ensures PositiveRows(t.reservations)
  {
    forall i | 0 <= i < |t.reservations| ensures t.reservations[i].quantity > 0 {
      assert ReservationRowOk(t, t.reservations[i]);
    }
  }

  /** These rows are all of the line's holds from a row on, in their order. */
  predicate OwnFrom(rs: seq<Reservation>, k: StockKey, sources: seq<nat>, rows: seq<nat>, from: nat) {
    && from <= |rs| && (forall n :: 0 <= n < |rows| ==> from <= rows[n] < |rs|)
    && (forall i :: from <= i < |rs| ==> (HeldFor(k, sources)(rs[i]) <==> i in rows))
    && (forall a, b :: 0 <= a < b < |rows| ==> rows[a] < rows[b])
  }

  lemma HeldOfOneMore(rs: seq<Reservation>, k: StockKey, sources: seq<nat>, row: nat)
    requires row < |rs|
    ensures HeldBefore(rs, k, sources, row + 1)
      == HeldBefore(rs, k, sources, row) + (if HeldFor(k, sources)(rs[row]) then rs[row].quantity else 0)
  {
    assert rs[..row + 1] == rs[..row] + [rs[row]];
    SumAppend(rs[..row], rs[row], QuantityOf(HeldFor(k, sources), k));
  }

  lemma {:induction false} NoneBetween(rs: seq<Reservation>, k: StockKey, sources: seq<nat>, from: nat, until: nat)
    requires from <= until <= |rs| && forall i :: from <= i < until ==> !HeldFor(k, sources)(rs[i])
    ensures HeldBefore(rs, k, sources, until) == HeldBefore(rs, k, sources, from)
    decreases until
  {
    if from < until {
      NoneBetween(rs, k, sources, from, until - 1);
      HeldOfOneMore(rs, k, sources, until - 1);
    }
  }

  lemma {:induction false} HeldGrows(rs: seq<Reservation>, k: StockKey, sources: seq<nat>, from: nat, until: nat)
    requires PositiveRows(rs) && from <= until <= |rs|
    ensures HeldBefore(rs, k, sources, from) <= HeldBefore(rs, k, sources, until)
    decreases until
  {
    if from < until {
      HeldGrows(rs, k, sources, from, until - 1);
      HeldOfOneMore(rs, k, sources, until - 1);
    }
  }

  /** A change before a row moves what is held before every later row alike. */
  lemma {:induction false} HeldBehind(rs: seq<Reservation>, rs': seq<Reservation>, k: StockKey, sources: seq<nat>, from: nat, until: nat)
    requires |rs'| == |rs| && from <= until <= |rs| && forall i :: from <= i < until ==> rs'[i] == rs[i]
    ensures HeldBefore(rs', k, sources, until) - HeldBefore(rs', k, sources, from)
         == HeldBefore(rs, k, sources, until) - HeldBefore(rs, k, sources, from)
    decreases until
  {
    if from < until {
      HeldBehind(rs, rs', k, sources, from, until - 1);
      HeldOfOneMore(rs, k, sources, until - 1);
      HeldOfOneMore(rs', k, sources, until - 1);
    }
  }

  /** What a row gives when the line comes to the rows from some row on with a need. */
  function Gives(rs: seq<Reservation>, k: StockKey, sources: seq<nat>, from: nat, need: int, i: nat): int
    requires from <= i < |rs|
  {
    if HeldFor(k, sources)(rs[i])
    then Share(need - (HeldBefore(rs, k, sources, i) - HeldBefore(rs, k, sources, from)), rs[i].quantity) else 0
  }

  ghost predicate DrawnFrom(rs: seq<Reservation>, rs': seq<Reservation>, k: StockKey, sources: seq<nat>, from: nat, need: int) {
    && |rs'| == |rs| && from <= |rs|
    && (forall i :: 0 <= i < from ==> rs'[i] == rs[i])
    && forall i :: from <= i < |rs| ==> rs'[i] == Drained(rs[i], Gives(rs, k, sources, from, need, i))
  }

  lemma NothingNeeded(rs: seq<Reservation>, k: StockKey, sources: seq<nat>, rows: seq<nat>, from: nat, need: int)
    requires PositiveRows(rs) && OwnFrom(rs, k, sources, rows, from) && (rows == [] || need <= 0)
    ensures DrawnFrom(rs, rs, k, sources, from, need)
  {
    forall i | from <= i < |rs| ensures Gives(rs, k, sources, from, need, i) == 0 {
      HeldGrows(rs, k, sources, from, i);
    }
  }

  /** Drawing on the first hold leaves the others to give what they would have given. */
  lemma FirstThenRest(rs: seq<Reservation>, k: StockKey, sources: seq<nat>, rows: seq<nat>, from: nat, need: int, i: nat)
    requires PositiveRows(rs) && OwnFrom(rs, k, sources, rows, from) && rows != [] && need > 0 && rows[0] < i < |rs|
    ensures var h, drawn := rows[0], Share(need, rs[rows[0]].quantity);
      var rs1 := rs[h := Drained(rs[h], drawn)];
      Gives(rs1, k, sources, h + 1, need - drawn, i) == Gives(rs, k, sources, from, need, i)
  {
    var h, drawn := rows[0], Share(need, rs[rows[0]].quantity);
    var rs1 := rs[h := Drained(rs[h], drawn)];
    assert h in rows;
    HeadIsNext(rs, k, sources, rows, from);
    HeldOfOneMore(rs, k, sources, h);
    HeldBehind(rs, rs1, k, sources, h + 1, i);
    HeldGrows(rs, k, sources, h + 1, i);
  }

  lemma HeadIsNext(rs: seq<Reservation>, k: StockKey, sources: seq<nat>, rows: seq<nat>, from: nat)
    requires OwnFrom(rs, k, sources, rows, from) && rows != []
    ensures HeldBefore(rs, k, sources, rows[0]) == HeldBefore(rs, k, sources, from)
    ensures forall i :: from <= i < rows[0] ==> !HeldFor(k, sources)(rs[i])
  {
    forall i | from <= i < rows[0] ensures !HeldFor(k, sources)(rs[i]) {
      assert forall n :: 0 <= n < |rows| ==> rows[0] <= rows[n];
    }
    NoneBetween(rs, k, sources, from, rows[0]);
  }

  lemma RestIsOwn(rs: seq<Reservation>, rs1: seq<Reservation>, k: StockKey, sources: seq<nat>, rows: seq<nat>, from: nat)
    requires OwnFrom(rs, k, sources, rows, from) && rows != [] && |rs1| == |rs|
    requires forall i :: rows[0] < i < |rs| ==> rs1[i] == rs[i]
    ensures OwnFrom(rs1, k, sources, rows[1..], rows[0] + 1)
  {
    forall i | rows[0] + 1 <= i < |rs| ensures HeldFor(k, sources)(rs1[i]) <==> i in rows[1..] {
      assert i in rows <==> i in rows[1..];
    }
  }

  /** Composing the first draw with the rest. */
  lemma DrawnThen(rs: seq<Reservation>, rs': seq<Reservation>, k: StockKey, sources: seq<nat>, rows: seq<nat>, from: nat, need: int)
    requires PositiveRows(rs) && OwnFrom(rs, k, sources, rows, from) && rows != [] && need > 0
    requires var h, drawn := rows[0], Share(need, rs[rows[0]].quantity);
      DrawnFrom(rs[h := Drained(rs[h], drawn)], rs', k, sources, h + 1, need - drawn)
    ensures DrawnFrom(rs, rs', k, sources, from, need)
  {
    var h, drawn := rows[0], Share(need, rs[rows[0]].quantity);
    assert h in rows;
    HeadIsNext(rs, k, sources, rows, from);
    forall i | from <= i < |rs| ensures rs'[i] == Drained(rs[i], Gives(rs, k, sources, from, need, i)) {
      if i > h {
        FirstThenRest(rs, k, sources, rows, from, need, i);
      }
    }
  }

  lemma {:induction false} HoldsAreDrawnInOrder(t: Tables, cmd: IssueCommand, k: StockKey, sources: seq<nat>, rows: seq<nat>, from: nat, need: int)
    requires PositiveRows(t.reservations) && OwnFrom(t.reservations, k, sources, rows, from)
    requires ConsumeHolds(t, cmd, k, rows, need).Ok?
    ensures DrawnFrom(t.reservations, ConsumeHolds(t, cmd, k, rows, need).value.tables.reservations, k, sources, from, need)
    decreases rows
  {
    hide ConsumeHold, Drained, Gives, DrawnFrom, HeldFor, HeldBefore, Share;
    if rows == [] || need <= 0 {
      NothingNeeded(t.reservations, k, sources, rows, from, need);
    } else {
      var p := ConsumeHold(t, cmd, k, rows[0], need).value;
      OneHoldIsDrawn(t, cmd, k, rows[0], need);
      RestIsOwn(t.reservations, p.tables.reservations, k, sources, rows, from);
      HoldsAreDrawnInOrder(p.tables, cmd, k, sources, rows[1..], rows[0] + 1, p.remaining);
      DrawnThen(t.reservations, ConsumeHolds(t, cmd, k, rows, need).value.tables.reservations, k, sources, rows, from, need);
    }
  }

  lemma OneHoldIsDrawn(t: Tables, cmd: IssueCommand, k: StockKey, row: nat, need: int)
    requires PositiveRows(t.reservations) && row < |t.reservations| && need > 0 && ConsumeHold(t, cmd, k, row, need).Ok?
    ensures var p, drawn := ConsumeHold(t, cmd, k, row, need).value, Share(need, t.reservations[row].quantity);
      && p.remaining == need - drawn && PositiveRows(p.tables.reservations)
      && p.tables.reservations == t.reservations[row := Drained(t.reservations[row], drawn)]
  {
  }

  lemma FreeStockKeepsHolds(t: Tables, cmd: IssueCommand, k: StockKey, order: seq<nat>, needed: int)
    requires forall n :: 0 <= n < |order| ==> order[n] < |t.batches|
    requires TakeFreeStock(t, cmd, k, order, needed).Ok?
    ensures TakeFreeStock(t, cmd, k, order, needed).value.tables.reservations == t.reservations
    decreases order
  {
    if order != [] && needed > 0 {
      FreeStockKeepsHolds(TakeFree(t, cmd, k, order[0], needed).value.tables, cmd, k, order[1..], TakeFree(t, cmd, k, order[0], needed).value.remaining);
    }
  }

  lemma ReservedPartKept(t: Tables, cmd: IssueCommand, line: IssueLine)
    requires IssueOneLine(t, cmd, line).Ok?
    ensures var k := StockKey(cmd.scope, line.item);
      IssueReserved(t, cmd, k, line).Ok?
      && IssueOneLine(t, cmd, line).value.reservations == IssueReserved(t, cmd, k, line).value.tables.reservations
  {
    var k := StockKey(cmd.scope, line.item);
    var p := IssueReserved(t, cmd, k, line).value;
    if p.remaining > 0 {
      FreeStockKeepsHolds(p.tables, cmd, k, ConsumptionOrder(p.tables, k), p.remaining);
    }
  }

  lemma ReleaseKeepsRows(t: Tables, k: StockKey, sources: seq<nat>)
    requires ReleaseExcess(t, k, sources).Ok?
    ensures ReleaseExcess(t, k, sources).value.reservations == ReleaseRows(t.reservations, HeldFor(k, sources))
  {
  }

  /** A hold drawn on and then released, if it is still there. */
  lemma DrainedThenReleased(rs: seq<Reservation>, k: StockKey, sources: seq<nat>, need: int, i: nat)
    requires PositiveRows(rs) && i < |rs|
    ensures var r, give := rs[i], Gives(rs, k, sources, 0, need, i);
      var drained := Drained(r, give);
      (if HeldFor(k, sources)(drained) then Release(drained) else drained)
      == if HeldFor(k, sources)(r) then Settled(r, Share(need - HeldBefore(rs, k, sources, i), r.quantity)) else r
  {
    assert HeldBefore(rs, k, sources, 0) == 0;
  }

  lemma HoldsAreSettled(t: Tables, cmd: IssueCommand, k: StockKey, line: IssueLine, i: nat)
    requires PositiveRows(t.reservations) && IssueReserved(t, cmd, k, line).Ok? && i < |t.reservations|
    ensures var r, rs' := t.reservations[i], IssueReserved(t, cmd, k, line).value.tables.reservations;
      && |rs'| == |t.reservations|
      && rs'[i] == if HeldFor(k, line.sources)(r)
                   then Settled(r, Share(line.quantity - HeldBefore(t.reservations, k, line.sources, i), r.quantity)) else r
  {
    if line.sources != [] {
      var rows := Matching(t.reservations, HeldFor(k, line.sources));
      HoldsAreDrawnInOrder(t, cmd, k, line.sources, rows, 0, line.quantity);
      var p := ConsumeHolds(t, cmd, k, rows, line.quantity).value;
      ReleaseKeepsRows(p.tables, k, line.sources);
      hide ConsumeHolds, ReleaseExcess, Drained, Gives, Settled, Share, HeldBefore;
      DrainedThenReleased(t.reservations, k, line.sources, line.quantity, i);
    }
  }

  /**
   A line that goes through leaves every hold it does not name as it was. Of those it names, the older ones give
   first: each gives what the line still needs behind the holds before it, up to all it has. A hold that gave
   all is CONSUMED, any other is RELEASED for the rest.
   */
  lemma LineSettlesItsHolds(t: Tables, cmd: IssueCommand, line: IssueLine, i: nat)
    requires Inv(t) && IssueOneLine(t, cmd, line).Ok? && i < |t.reservations|
    ensures var k, r, rs' := StockKey(cmd.scope, line.item), t.reservations[i], IssueOneLine(t, cmd, line).value.reservations;
      && |rs'| == |t.reservations|
      && rs'[i] == if r.key == k && r.compositionItem in line.sources && r.status == ActiveHold
                   then Settled(r, Share(line.quantity - HeldBefore(t.reservations, k, line.sources, i), r.quantity))
                   else r
  {
    hide IssueReserved, Inv, Settled, Share, HeldBefore;
    var k := StockKey(cmd.scope, line.item);
    InvHasPositiveRows(t);
    ReservedPartKept(t, cmd, line);
    HoldsAreSettled(t, cmd, k, line, i);
  }
  // ------------------------------------------------------- the rows booked

  /** What movements book on a hold: the issue rows it is given for carry its own identifier. */
  function BookedFor(row: nat): Movement -> int {
    (m: Movement) => if m.sourceItem == Given(row) then m.quantity else 0
  }

  /** New movements that are given for a hold lie on that hold's batch. */
  predicate OnTheirBatches(before: seq<Movement>, after: seq<Movement>, rs: seq<Reservation>) {
    && before <= after
    && forall j :: |before| <= j < |after| && after[j].sourceItem.Given? ==>
         after[j].sourceItem.id < |rs| && after[j].batch == rs[after[j].sourceItem.id].batch
  }

  lemma OneHoldIsBooked(t: Tables, cmd: IssueCommand, k: StockKey, row: nat, need: int, i: nat)
    requires PositiveRows(t.reservations) && row < |t.reservations| && need > 0 && ConsumeHold(t, cmd, k, row, need).Ok?
    ensures var p := ConsumeHold(t, cmd, k, row, need).value;
      && OnTheirBatches(t.movements, p.tables.movements, t.reservations)
      && Sum(p.tables.movements, BookedFor(i))
         == Sum(t.movements, BookedFor(i)) + (if i == row then Share(need, t.reservations[row].quantity) else 0)
  {
    var hold := t.reservations[row];
    var m := SliceMovement(cmd, k, hold.batch, t.batches[hold.batch], Min(hold.quantity, need), Given(row));
    SumAppend(t.movements, m, BookedFor(i));
  }

  lemma {:induction false} HoldsAreBooked(t: Tables, cmd: IssueCommand, k: StockKey, sources: seq<nat>, rows: seq<nat>, from: nat, need: int, i: nat)
    requires PositiveRows(t.reservations) && OwnFrom(t.reservations, k, sources, rows, from) && i < |t.reservations|
    requires ConsumeHolds(t, cmd, k, rows, need).Ok?
    ensures var p := ConsumeHolds(t, cmd, k, rows, need).value;
      && OnTheirBatches(t.movements, p.tables.movements, t.reservations)
      && Sum(p.tables.movements, BookedFor(i))
         == Sum(t.movements, BookedFor(i)) + (if from <= i then Gives(t.reservations, k, sources, from, need, i) else 0)
    decreases rows
  {
    hide ConsumeHold, DrawnFrom, HeldBefore, HeldFor;
    if rows == [] || need <= 0 {
      if from <= i {
        GivesNothing(t.reservations, k, sources, rows, from, need, i);
      }
    } else {
      var rs, h := t.reservations, rows[0];
      var p := ConsumeHold(t, cmd, k, h, need).value;
      OneHoldIsDrawn(t, cmd, k, h, need);
      OneHoldIsBooked(t, cmd, k, h, need, i);
      RestIsOwn(rs, p.tables.reservations, k, sources, rows, from);
      HoldsAreBooked(p.tables, cmd, k, sources, rows[1..], h + 1, p.remaining, i);
      if from <= i {
        FirstGives(rs, k, sources, rows, from, need, i);
      }
    }
  }

  lemma GivesNothing(rs: seq<Reservation>, k: StockKey, sources: seq<nat>, rows: seq<nat>, from: nat, need: int, i: nat)
    requires PositiveRows(rs) && OwnFrom(rs, k, sources, rows, from) && (rows == [] || need <= 0) && from <= i < |rs|
    ensures Gives(rs, k, sources, from, need, i) == 0
  {
    HeldGrows(rs, k, sources, from, i);
  }

  /** What a row gives is what the first hold gives, if it is that, or what it would give behind it. */
  lemma FirstGives(rs: seq<Reservation>, k: StockKey, sources: seq<nat>, rows: seq<nat>, from: nat, need: int, i: nat)
    requires PositiveRows(rs) && OwnFrom(rs, k, sources, rows, from) && rows != [] && need > 0 && from <= i < |rs|
    ensures var h, drawn := rows[0], Share(need, rs[rows[0]].quantity);
      var rs1 := rs[h := Drained(rs[h], drawn)];
      Gives(rs, k, sources, from, need, i)
      == (if i == h then drawn else 0) + (if h < i then Gives(rs1, k, sources, h + 1, need - drawn, i) else 0)
  {
    assert rows[0] in rows;
    HeadIsNext(rs, k, sources, rows, from);
    if rows[0] < i {
      FirstThenRest(rs, k, sources, rows, from, need, i);
    }
  }

  /** New movements that are given for nothing. */
  predicate AllMinted(before: seq<Movement>, after: seq<Movement>) {
    before <= after && forall j :: |before| <= j < |after| ==> after[j].sourceItem.Minted?
  }

  lemma {:induction false} FreeStockBooksNoHold(t: Tables, cmd: IssueCommand, k: StockKey, order: seq<nat>, needed: int, i: nat)
    requires forall n :: 0 <= n < |order| ==> order[n] < |t.batches|
    requires TakeFreeStock(t, cmd, k, order, needed).Ok?
    ensures var t' := TakeFreeStock(t, cmd, k, order, needed).value.tables;
      AllMinted(t.movements, t'.movements) && Sum(t'.movements, BookedFor(i)) == Sum(t.movements, BookedFor(i))
    decreases order
  {
    if order != [] && needed > 0 {
      hide TakeFree;
      var p := TakeFree(t, cmd, k, order[0], needed).value;
      FreeSliceBooksNoHold(t, cmd, k, order[0], needed, i);
      FreeStockBooksNoHold(p.tables, cmd, k, order[1..], p.remaining, i);
    }
  }

  lemma FreeSliceBooksNoHold(t: Tables, cmd: IssueCommand, k: StockKey, b: nat, needed: int, i: nat)
    requires b < |t.batches| && TakeFree(t, cmd, k, b, needed).Ok?
    ensures var t' := TakeFree(t, cmd, k, b, needed).value.tables;
      && AllMinted(t.movements, t'.movements) && Sum(t'.movements, BookedFor(i)) == Sum(t.movements, BookedFor(i))
  {
    if FreeOn(t, b) > 0 {
      SumAppend(t.movements, SliceMovement(cmd, k, b, t.batches[b], Min(FreeOn(t, b), needed), Minted(|t.movements|)), BookedFor(i));
    }
  }

  lemma ReleaseBooksNothing(t: Tables, k: StockKey, sources: seq<nat>)
    requires ReleaseExcess(t, k, sources).Ok?
    ensures ReleaseExcess(t, k, sources).value.movements == t.movements
  {
  }

  lemma ReservedPartBooks(t: Tables, cmd: IssueCommand, k: StockKey, line: IssueLine, i: nat)
    requires PositiveRows(t.reservations) && IssueReserved(t, cmd, k, line).Ok? && i < |t.reservations|
    ensures var r, t' := t.reservations[i], IssueReserved(t, cmd, k, line).value.tables;
      && OnTheirBatches(t.movements, t'.movements, t.reservations)
      && Sum(t'.movements, BookedFor(i)) - Sum(t.movements, BookedFor(i))
         == if HeldFor(k, line.sources)(r)
            then Share(line.quantity - HeldBefore(t.reservations, k, line.sources, i), r.quantity) else 0
  {
    if line.sources != [] {
      var rows := Matching(t.reservations, HeldFor(k, line.sources));
      HoldsAreBooked(t, cmd, k, line.sources, rows, 0, line.quantity, i);
      ReleaseBooksNothing(ConsumeHolds(t, cmd, k, rows, line.quantity).value.tables, k, line.sources);
      assert HeldBefore(t.reservations, k, line.sources, 0) == 0;
    }
  }

  /** What the new rows book on a hold is what it gave, on the hold's own batch; free stock is booked on no hold. */
  lemma LineBooksItsHolds(t: Tables, cmd: IssueCommand, line: IssueLine, i: nat)
    requires Inv(t) && IssueOneLine(t, cmd, line).Ok? && i < |t.reservations|
    ensures var k, r, t' := StockKey(cmd.scope, line.item), t.reservations[i], IssueOneLine(t, cmd, line).value;
      && OnTheirBatches(t.movements, t'.movements, t.reservations)
      && Sum(t'.movements, BookedFor(i)) - Sum(t.movements, BookedFor(i))
         == if r.key == k && r.compositionItem in line.sources && r.status == ActiveHold
            then Share(line.quantity - HeldBefore(t.reservations, k, line.sources, i), r.quantity) else 0
  {
    hide Inv, IssueReserved, TakeFreeStock, HeldBefore, Share, BookedFor, Sum;
    var k := StockKey(cmd.scope, line.item);
    InvHasPositiveRows(t);
    ReservedPartBooks(t, cmd, k, line, i);
    var p := IssueReserved(t, cmd, k, line).value;
    if p.remaining > 0 {
      FreeStockBooksNoHold(p.tables, cmd, k, ConsumptionOrder(p.tables, k), p.remaining, i);
    }
  }
}
