/**
 Issuing stock for a sale or an order, and reversing a sale's issue. An issue first consumes the
 reservations it names, releases what is left of them, then tops up from free stock, oldest first.
 */
module InventoryIssue {
  import opened Wrappers
  import opened Sequences
  import opened InventoryTables
  import opened InventoryInvariant

  datatype IssueLine = IssueLine(item: nat, quantity: int, sources: seq<nat>)

  datatype IssueCommand = IssueCommand(
    scope: Scope, sourceType: SourceType, document: nat, keyScope: PostingScope, key: string,
    occurredAt: int, lines: seq<IssueLine>)

  datatype ReverseIssueCommand = ReverseIssueCommand(scope: Scope, sale: nat, key: string, occurredAt: int)

  // ------------------------------------------------------------- balances

  function AdjustBalanceOnIssue(t: Tables, k: StockKey, onHandDelta: int, reservedDelta: int): Result<Tables, Error> {
    if k !in t.balances then Rejected(NoBalance)
    else
      var onHand := t.balances[k].onHand - onHandDelta;
      var reserved := t.balances[k].reserved - reservedDelta;
      if onHand < 0 || reserved < 0 || onHand - reserved < 0 then Rejected(NegativeBalance)
      else PutBalance(t, k, onHand, reserved)
  }

  function AdjustBalanceOnReverse(t: Tables, k: StockKey, onHandDelta: int): Result<Tables, Error> {
    if k !in t.balances then PutBalance(t, k, onHandDelta, 0)
    else PutBalance(t, k, t.balances[k].onHand + onHandDelta, t.balances[k].reserved)
  }

  /** Moves only the reserved quantity; a missing balance refuses a hold and ignores a release. */
  function AdjustReserved(t: Tables, k: StockKey, delta: int): Result<Tables, Error> {
    if k !in t.balances then
      if delta > 0 then Rejected(NoBalance) else Ok(t)
    else
      var reserved := t.balances[k].reserved + delta;
      if reserved < 0 || t.balances[k].onHand - reserved < 0 then Rejected(NegativeAvailable)
      else PutBalance(t, k, t.balances[k].onHand, reserved)
  }

  // ------------------------------------------------ one slice of an issue

  function SliceMovement(cmd: IssueCommand, k: StockKey, i: nat, b: Batch, take: int, source: SourceItem): Movement {
    Movement(k, i, Issue, take, b.unitCost, cmd.sourceType, cmd.document, source, None, cmd.occurredAt)
  }

  function Take(b: Batch, take: int): Batch {
    b.(remaining := b.remaining - take, status := if b.remaining - take == 0 then DepletedBatch else b.status)
  }

  /** Books a taken slice: the movement, the batch, then the balance (with the part that was reserved). */
  function BookSlice(t: Tables, cmd: IssueCommand, k: StockKey, i: nat, take: int, reserved: int, source: SourceItem)
    : (r: Result<Tables, Error>)
    requires i < |t.batches|
    ensures r.Ok? ==> Extends(t, r.value)
  {
    var b := t.batches[i];
    var t1 :- AddMovement(t, SliceMovement(cmd, k, i, b, take, source));
    var t2 :- PutBatch(t1, i, Take(b, take));
    AdjustBalanceOnIssue(t2, k, take, reserved)
  }

  // ----------------------------------------------- consuming reservations

  function HeldFor(k: StockKey, sources: seq<nat>): Reservation -> bool {
    (r: Reservation) => r.key == k && r.compositionItem in sources && r.status.ActiveHold?
  }

  /** Progress of an issue line: the tables so far and the quantity still to find. */
  datatype Progress = Progress(tables: Tables, remaining: int)

  function Min(a: int, b: int): int {
    if a < b then a else b
  }

  function ConsumeHold(t: Tables, cmd: IssueCommand, k: StockKey, row: nat, remaining: int): (r: Result<Progress, Error>)
    requires row < |t.reservations|
    ensures r.Ok? ==> Extends(t, r.value.tables)
  {
    var hold := t.reservations[row];
    var take := Min(hold.quantity, remaining);
    if take <= 0 then Ok(Progress(t, remaining))
    else if hold.batch >= |t.batches| then Rejected(ConstraintViolation)
    else
      var t1 :- BookSlice(t, cmd, k, hold.batch, take, take, Given(row));
      var hold' := if take == hold.quantity then hold.(status := ConsumedHold) else hold.(quantity := hold.quantity - take);
      Ok(Progress(t1.(reservations := t1.reservations[row := hold']), remaining - take))
  }

  function ConsumeHolds(t: Tables, cmd: IssueCommand, k: StockKey, rows: seq<nat>, remaining: int): (r: Result<Progress, Error>)
    requires forall n :: 0 <= n < |rows| ==> rows[n] < |t.reservations|
    ensures r.Ok? ==> Extends(t, r.value.tables)
    decreases rows
  {
    if rows == [] || remaining <= 0 then Ok(Progress(t, remaining))
    else
      var p :- ConsumeHold(t, cmd, k, rows[0], remaining);
      ConsumeHolds(p.tables, cmd, k, rows[1..], p.remaining)
  }

  // --------------------------------------------------- releasing the rest

  function Release(r: Reservation): Reservation {
    r.(status := ReleasedHold)
  }

  function ReleaseRows(rs: seq<Reservation>, p: Reservation -> bool): (rs': seq<Reservation>)
    ensures |rs'| == |rs|
  {
    seq(|rs|, i requires 0 <= i < |rs| => if p(rs[i]) then Release(rs[i]) else rs[i])
  }

  function QuantityOf(p: Reservation -> bool, k: StockKey): Reservation -> int {
    (r: Reservation) => if p(r) && r.key == k then r.quantity else 0
  }

  /** Marks every remaining hold of the line released and gives its quantity back to the balance. */
  function ReleaseExcess(t: Tables, k: StockKey, sources: seq<nat>): (r: Result<Tables, Error>)
    ensures r.Ok? ==> Extends(t, r.value)
  {
    var excess := HeldFor(k, sources);
    var total := Sum(t.reservations, QuantityOf(excess, k));
    var t1 := t.(reservations := ReleaseRows(t.reservations, excess));
    if total > 0 then AdjustReserved(t1, k, -total) else Ok(t1)
  }

  // ----------------------------------------------------------- free stock

  function Eligible(k: StockKey): Batch -> bool {
    (b: Batch) => b.key == k && b.status.ActiveBatch? && b.remaining > 0
  }

  /** Oldest receipt first; on a tie the earlier expiry, batches without one last. */
  predicate ConsumedBefore(a: Batch, b: Batch) {
    if a.receivedAt != b.receivedAt then a.receivedAt < b.receivedAt
    else b.expiresAt.None? || (a.expiresAt.Some? && a.expiresAt.value <= b.expiresAt.value)
  }

  predicate Distinct(rows: seq<nat>) {
    forall a, b :: 0 <= a < b < |rows| ==> rows[a] != rows[b]
  }

  function InsertInOrder(batches: seq<Batch>, order: seq<nat>, i: nat): (order': seq<nat>)
    requires i < |batches| && forall n :: 0 <= n < |order| ==> order[n] < |batches|
    ensures forall n :: 0 <= n < |order'| ==> order'[n] < |batches|
    ensures forall x :: x in order' <==> x in order || x == i
    ensures Distinct(order) && i !in order ==> Distinct(order')
  {
    if order == [] then [i]
    else if ConsumedBefore(batches[order[|order| - 1]], batches[i]) then order + [i]
    else
      var last := order[|order| - 1];
      var rest := InsertInOrder(batches, order[..|order| - 1], i);
      assert Distinct(order) && i !in order ==> last !in rest;
      rest + [last]
  }

  /** Sorts the selected rows into consumption order; rows that tie keep their creation order. */
  function InConsumptionOrder(batches: seq<Batch>, rows: seq<nat>): (order: seq<nat>)
    requires forall n :: 0 <= n < |rows| ==> rows[n] < |batches|
    ensures forall n :: 0 <= n < |order| ==> order[n] < |batches|
    ensures forall x :: x in order <==> x in rows
    ensures Distinct(rows) ==> Distinct(order)
  {
    if rows == [] then []
    else
      assert forall x :: x in rows <==> x in rows[..|rows| - 1] || x == rows[|rows| - 1];
      InsertInOrder(batches, InConsumptionOrder(batches, rows[..|rows| - 1]), rows[|rows| - 1])
  }

  function ConsumptionOrder(t: Tables, k: StockKey): (order: seq<nat>)
    ensures forall n :: 0 <= n < |order| ==> order[n] < |t.batches|
    ensures forall x :: x in order <==> 0 <= x < |t.batches| && Eligible(k)(t.batches[x])
    ensures Distinct(order)
  {
    InConsumptionOrder(t.batches, Matching(t.batches, Eligible(k)))
  }

  function TakeFree(t: Tables, cmd: IssueCommand, k: StockKey, i: nat, remaining: int): (r: Result<Progress, Error>)
    requires i < |t.batches|
    ensures r.Ok? ==> Extends(t, r.value.tables)
  {
    var free := FreeOn(t, i);
    if free <= 0 then Ok(Progress(t, remaining))
    else
      var take := Min(free, remaining);
      var t1 :- BookSlice(t, cmd, k, i, take, 0, Minted(|t.movements|));
      Ok(Progress(t1, remaining - take))
  }

  function TakeFreeStock(t: Tables, cmd: IssueCommand, k: StockKey, order: seq<nat>, remaining: int): (r: Result<Progress, Error>)
    requires forall n :: 0 <= n < |order| ==> order[n] < |t.batches|
    ensures r.Ok? ==> Extends(t, r.value.tables)
    decreases order
  {
    if order == [] || remaining <= 0 then Ok(Progress(t, remaining))
    else
      var p :- TakeFree(t, cmd, k, order[0], remaining);
      TakeFreeStock(p.tables, cmd, k, order[1..], p.remaining)
  }

  function IssueFromFreeStock(t: Tables, cmd: IssueCommand, k: StockKey, needed: int): (r: Result<Tables, Error>)
    ensures r.Ok? ==> Extends(t, r.value)
  {
    var p :- TakeFreeStock(t, cmd, k, ConsumptionOrder(t, k), needed);
    if p.remaining > 0 then Rejected(InsufficientStock) else Ok(p.tables)
  }

  // ------------------------------------------------------------ the issue

  function IssueReserved(t: Tables, cmd: IssueCommand, k: StockKey, line: IssueLine): (r: Result<Progress, Error>)
    ensures r.Ok? ==> Extends(t, r.value.tables)
  {
    if line.sources == [] then Ok(Progress(t, line.quantity))
    else
      var p :- ConsumeHolds(t, cmd, k, Matching(t.reservations, HeldFor(k, line.sources)), line.quantity);
      var t1 :- ReleaseExcess(p.tables, k, line.sources);
      Ok(Progress(t1, p.remaining))
  }

  function IssueOneLine(t: Tables, cmd: IssueCommand, line: IssueLine): (r: Result<Tables, Error>)
    ensures r.Ok? ==> Extends(t, r.value)
  {
    if line.quantity <= 0 then Rejected(InvalidQuantity)
    else
      var k := StockKey(cmd.scope, line.item);
      var p :- IssueReserved(t, cmd, k, line);
      if p.remaining > 0 then IssueFromFreeStock(p.tables, cmd, k, p.remaining) else Ok(p.tables)
  }

  function IssueLines(t: Tables, cmd: IssueCommand, lines: seq<IssueLine>): (r: Result<Tables, Error>)
    ensures r.Ok? ==> Extends(t, r.value)
    decreases lines
  {
    if lines == [] then Ok(t)
    else
      var t1 :- IssueOneLine(t, cmd, lines[0]);
      IssueLines(t1, cmd, lines[1..])
  }

  /** The key is looked up first but bound only after every line has been issued. */
  function IssueStock(t: Tables, cmd: IssueCommand): (r: Result<Tables, Error>)
    ensures r.Ok? ==> Extends(t, r.value)
  {
    var k := IdempotencyKey(cmd.scope.org, cmd.keyScope, cmd.key);
    if k in t.keys then if t.keys[k] == cmd.document then Ok(t) else Rejected(IdempotencyKeyReused)
    else
      var t1 :- IssueLines(t, cmd, cmd.lines);
      Ok(t1.(keys := t1.keys[k := cmd.document]))
  }

  // --------------------------------------------------- reversing an issue

  function OfDocument(org: nat, sourceType: SourceType, document: nat, kind: MovementType): Movement -> bool {
    (m: Movement) =>
      m.key.scope.org == org && m.sourceType == sourceType && m.document == document && m.kind == kind
  }

  function GiveBack(b: Batch, quantity: int): Batch {
    var restored := b.remaining + quantity;
    b.(remaining := restored, status := if b.status.DepletedBatch? && restored > 0 then ActiveBatch else b.status)
  }

  /** The compensating row: booked in the command's scope, on the original's item, batch and source line. */
  function Compensation(scope: Scope, row: nat, m: Movement, kind: MovementType, occurredAt: int): Movement {
    Movement(StockKey(scope, m.key.item), m.batch, kind, -m.quantity, m.unitCost,
             m.sourceType, m.document, m.sourceItem, Some(row), occurredAt)
  }

  function ReverseSlice(t: Tables, cmd: ReverseIssueCommand, row: nat): (r: Result<Tables, Error>)
    requires row < |t.movements|
    ensures r.Ok? ==> Extends(t, r.value)
  {
    var m := t.movements[row];
    if m.batch >= |t.batches| then Rejected(ConstraintViolation)
    else
      var t1 :- PutBatch(t, m.batch, GiveBack(t.batches[m.batch], m.quantity));
      var t2 :- AdjustBalanceOnReverse(t1, StockKey(cmd.scope, m.key.item), m.quantity);
      AddMovement(t2, Compensation(cmd.scope, row, m, IssueReversal, cmd.occurredAt))
  }

  function ReverseSlices(t: Tables, cmd: ReverseIssueCommand, rows: seq<nat>): (r: Result<Tables, Error>)
    requires forall n :: 0 <= n < |rows| ==> rows[n] < |t.movements|
    ensures r.Ok? ==> Extends(t, r.value)
    decreases rows
  {
    if rows == [] then Ok(t)
    else
      var t1 :- ReverseSlice(t, cmd, rows[0]);
      ReverseSlices(t1, cmd, rows[1..])
  }

  function ReverseIssue(t: Tables, cmd: ReverseIssueCommand): (r: Result<Tables, Error>)
    ensures r.Ok? ==> Extends(t, r.value)
  {
    var k := IdempotencyKey(cmd.scope.org, SaleIssueReverse, cmd.key);
    if k in t.keys then if t.keys[k] == cmd.sale then Ok(t) else Rejected(IdempotencyKeyReused)
    else if FindFirst(t.movements, OfDocument(cmd.scope.org, Sale, cmd.sale, IssueReversal)).Some? then
      Ok(t.(keys := t.keys[k := cmd.sale]))
    else
      var t1 :- ReverseSlices(t, cmd, Matching(t.movements, OfDocument(cmd.scope.org, Sale, cmd.sale, Issue)));
      Ok(t1.(keys := t1.keys[k := cmd.sale]))
  }
}
