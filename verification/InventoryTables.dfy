/**
 The stock tables and the guarded writes every inventory adapter is built from.
 Quantities are exact thousandths (the columns are DECIMAL(18,3)); unit costs are exact
 ten-thousandths. Row identifiers are row positions: rows are created and updated, never deleted.
 */
module InventoryTables {
  import opened Wrappers
  import opened Sequences

  datatype Scope = Scope(org: nat, store: nat, warehouse: nat)

  datatype StockKey = StockKey(scope: Scope, item: nat)

  datatype Balance = Balance(onHand: int, reserved: int, available: int)

  datatype BatchStatus = ActiveBatch | DepletedBatch | ReversedBatch

  datatype Batch = Batch(
    key: StockKey, receiptLine: nat, receivedAt: int, expiresAt: Option<int>,
    initial: int, remaining: int, unitCost: int, status: BatchStatus)

  datatype MovementType =
    | Receipt
    | ReceiptReversal
    | Issue
    | IssueReversal
    | WriteOff
    | WriteOffReversal
    | CountAdjustmentOut
    | CountAdjustmentIn

  datatype SourceType = GoodsReceiptItem | Sale | Order | WriteOffItem

  /** The row a movement was made for: an identifier handed in, or one minted with randomUUID. */
  datatype SourceItem = Given(id: nat) | Minted(serial: nat)

  datatype Movement = Movement(
    key: StockKey, batch: nat, kind: MovementType, quantity: int, unitCost: int,
    sourceType: SourceType, document: nat, sourceItem: SourceItem,
    reversalOf: Option<nat>, occurredAt: int)

  datatype ReservationStatus = ActiveHold | ConsumedHold | ReleasedHold

  datatype Reservation = Reservation(
    key: StockKey, batch: nat, compositionItem: nat, quantity: int, status: ReservationStatus)

  datatype PostingScope =
    | GoodsReceiptPost
    | GoodsReceiptReverse
    | SaleIssue
    | OrderIssueComplete
    | SaleIssueReverse
    | WriteOffPost
    | WriteOffReverse

  datatype IdempotencyKey = IdempotencyKey(org: nat, scope: PostingScope, key: string)

  datatype Tables = Tables(
    balances: map<StockKey, Balance>,
    batches: seq<Batch>,
    movements: seq<Movement>,
    reservations: seq<Reservation>,
    keys: map<IdempotencyKey, nat>)

  datatype Error =
    | IdempotencyKeyReused
    | GoodsReceiptAlreadyPosted
    | GoodsReceiptAlreadyReversed
    | BatchAlreadyUsed
    | BatchNotFound
    | BatchIsReversed
    | InvalidReceiptQuantity
    | InvalidUnitPrice
    | InvalidQuantity
    | NegativeBalance
    | NegativeAvailable
    | NoBalance
    | InsufficientStock
    | ReceiptMovementMissing
    | ConstraintViolation

  /** Nothing a command does removes a movement, a batch, a reservation or an idempotency key. */
  predicate Extends(t: Tables, t': Tables) {
    && t.movements <= t'.movements
    && SameBatches(t, t')
    && |t.reservations| <= |t'.reservations|
    && (forall k :: k in t.keys ==> k in t'.keys && t'.keys[k] == t.keys[k])
  }

  predicate SameBatches(t: Tables, t': Tables) {
    && |t.batches| <= |t'.batches|
    && forall i :: 0 <= i < |t.batches| ==>
         t'.batches[i].key == t.batches[i].key && t'.batches[i].receiptLine == t.batches[i].receiptLine
  }

  const EMPTY := Tables(map[], [], [], [], map[])

  // ---------------------------------------------------------------- signs

  /** The signed effect of a movement on stock, as the query side defines it. */
  function SignedMovementDelta(kind: MovementType, quantity: int): int {
    match kind
    case Receipt | WriteOffReversal | CountAdjustmentIn | IssueReversal => quantity
    case ReceiptReversal | WriteOff | CountAdjustmentOut | Issue => -quantity
  }

  predicate IsReversal(kind: MovementType) {
    kind.ReceiptReversal? || kind.IssueReversal? || kind.WriteOffReversal?
  }

  function Abs(x: int): int {
    if x < 0 then -x else x
  }

  /** What a stored movement did to stock: its kind gives the sign, its quantity only the size. */
  function Delta(m: Movement): int {
    SignedMovementDelta(m.kind, Abs(m.quantity))
  }

  /** How much of its batch a movement took for a customer or for waste; corrections take nothing. */
  function Drawn(m: Movement): int {
    match m.kind
    case Issue | WriteOff => Abs(m.quantity)
    case IssueReversal | WriteOffReversal => -Abs(m.quantity)
    case _ => 0
  }

  // ------------------------------------------------------------- measures

  function RemainingOf(k: StockKey): Batch -> int {
    (b: Batch) => if b.key == k then b.remaining else 0
  }

  function DeltaOf(k: StockKey): Movement -> int {
    (m: Movement) => if m.key == k then Delta(m) else 0
  }

  function DeltaOnBatch(i: nat): Movement -> int {
    (m: Movement) => if m.batch == i then Delta(m) else 0
  }

  function DrawnFromBatch(i: nat): Movement -> int {
    (m: Movement) => if m.batch == i then Drawn(m) else 0
  }

  function CountOnBatch(kind: MovementType, i: nat): Movement -> int {
    (m: Movement) => if m.batch == i && m.kind == kind then 1 else 0
  }

  function HeldOf(k: StockKey): Reservation -> int {
    (r: Reservation) => if r.key == k && r.status.ActiveHold? then r.quantity else 0
  }

  function HeldOnBatch(i: nat): Reservation -> int {
    (r: Reservation) => if r.batch == i && r.status.ActiveHold? then r.quantity else 0
  }

  function OnHand(t: Tables, k: StockKey): int {
    if k in t.balances then t.balances[k].onHand else 0
  }

  function Reserved(t: Tables, k: StockKey): int {
    if k in t.balances then t.balances[k].reserved else 0
  }

  /** The part of a batch no active reservation holds, as the allocation loops compute it. */
  function FreeOn(t: Tables, i: nat): int
    requires i < |t.batches|
  {
    t.batches[i].remaining - Sum(t.reservations, HeldOnBatch(i))
  }

  // ------------------------------------------- writes and their constraints

  predicate SameSource(a: Movement, b: Movement) {
    && a.key.scope.org == b.key.scope.org
    && a.sourceType == b.sourceType
    && a.sourceItem == b.sourceItem
    && a.kind == b.kind
  }

  predicate SourceFree(ms: seq<Movement>, m: Movement) {
    forall j :: 0 <= j < |ms| ==> !SameSource(ms[j], m)
  }

  /** Insert into inventory_movements: one row per source line and type, never a zero quantity. */
  function AddMovement(t: Tables, m: Movement): Result<Tables, Error> {
    if m.quantity == 0 || !SourceFree(t.movements, m) then Rejected(ConstraintViolation)
    else Ok(t.(movements := t.movements + [m]))
  }

  predicate BatchQuantitiesValid(b: Batch) {
    0 < b.initial && 0 <= b.remaining <= b.initial
  }

  /** Insert into inventory_batches: one batch per receipt line. */
  function AddBatch(t: Tables, b: Batch): Result<Tables, Error> {
    if !BatchQuantitiesValid(b) || exists i :: 0 <= i < |t.batches| && t.batches[i].receiptLine == b.receiptLine
    then Rejected(ConstraintViolation)
    else Ok(t.(batches := t.batches + [b]))
  }

  function PutBatch(t: Tables, i: nat, b: Batch): Result<Tables, Error>
    requires i < |t.batches|
  {
    if BatchQuantitiesValid(b) then Ok(t.(batches := t.batches[i := b])) else Rejected(ConstraintViolation)
  }

  function PutBalance(t: Tables, k: StockKey, onHand: int, reserved: int): Result<Tables, Error> {
    if onHand < 0 || reserved < 0 || onHand < reserved then Rejected(ConstraintViolation)
    else Ok(t.(balances := t.balances[k := Balance(onHand, reserved, onHand - reserved)]))
  }

  // --------------------------------------------------------- idempotency

  datatype Claim = Fresh(tables: Tables) | Replay | Reused

  predicate HasKey(key: Option<string>) {
    key.Some? && key.value != ""
  }

  /** Looks a key up and binds it to the document when it is new. An absent or empty key claims nothing. */
  function ClaimKey(t: Tables, org: nat, scope: PostingScope, key: Option<string>, document: nat): Claim {
    if !HasKey(key) then Fresh(t)
    else
      var k := IdempotencyKey(org, scope, key.value);
      if k !in t.keys then Fresh(t.(keys := t.keys[k := document]))
      else if t.keys[k] == document then Replay
      else Reused
  }
}
