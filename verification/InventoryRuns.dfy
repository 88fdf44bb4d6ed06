/** Whole runs of the stock adapters: each command commits or rolls back as one serial transaction. */
module InventoryRuns {
  import opened Wrappers
  import opened Sequences
  import opened InventoryTables
  import opened InventoryInvariant
  import opened InventoryPosting
  import opened InventoryIssue
  import opened InventoryIssueProofs
  import opened InventoryWriteOff
  import opened InventoryReservation
  import opened InventoryLedger

  datatype Command =
    | PostReceipt(post: PostCommand)
    | ReverseReceipt(reverse: ReverseCommand)
    | AdjustItem(adjust: AdjustCommand)
    | IssueGoods(issue: IssueCommand)
    | ReverseSale(reverseIssue: ReverseIssueCommand)
    | PostWaste(writeOff: WriteOffCommand)
    | ReverseWaste(reverseWriteOff: ReverseWriteOffCommand)
    | Reserve(reserve: ReserveCommand)
    | ReleaseHolds(release: ReleaseCommand)

  function Execute(t: Tables, c: Command): Result<Tables, Error> {
    match c
    case PostReceipt(p) => PostGoodsReceipt(t, p)
    case ReverseReceipt(r) => ReverseGoodsReceipt(t, r)
    case AdjustItem(a) => AdjustGoodsReceiptItem(t, a)
    case IssueGoods(i) => IssueStock(t, i)
    case ReverseSale(r) => ReverseIssue(t, r)
    case PostWaste(w) => PostWriteOff(t, w)
    case ReverseWaste(r) => ReverseWriteOff(t, r)
    case Reserve(r) => ReserveComposition(t, r)
    case ReleaseHolds(r) => ReleaseComposition(t, r)
  }

  /** $transaction: the new tables on success, the old ones on any error. */
  function Step(t: Tables, c: Command): Tables {
    match Execute(t, c)
    case Ok(t') => t'
    case Rejected(_) => t
  }

  function Run(t: Tables, cs: seq<Command>): Tables
    decreases cs
  {
    if cs == [] then t else Run(Step(t, cs[0]), cs[1..])
  }

  /** What callers owe: a correction names its batch's item, a reversal the scope its rows were booked in. */
  predicate Addressed(t: Tables, c: Command) {
    match c
    case AdjustItem(a) => AdjustAddressed(t, a)
    case ReverseSale(r) => ReverseIssueAddressed(t, r)
    case ReverseWaste(r) => ReverseWriteOffAddressed(t, r)
    case _ => true
  }

  predicate RunAddressed(t: Tables, cs: seq<Command>)
    decreases cs
  {
    cs == [] || (Addressed(t, cs[0]) && RunAddressed(Step(t, cs[0]), cs[1..]))
  }

  lemma StepKeepsInv(t: Tables, c: Command)
    requires Inv(t) && Addressed(t, c)
    ensures Inv(Step(t, c))
  {
    if Execute(t, c).Ok? {
      match c
      case PostReceipt(p) => PostKeepsInv(t, p);
      case ReverseReceipt(r) => ReverseKeepsInv(t, r);
      case AdjustItem(a) => AdjustKeepsInv(t, a);
      case IssueGoods(i) => IssueKeepsInv(t, i);
      case ReverseSale(r) => ReverseIssueKeepsInv(t, r);
      case PostWaste(w) => PostWriteOffKeepsInv(t, w);
      case ReverseWaste(r) => ReverseWriteOffKeepsInv(t, r);
      case Reserve(r) => ReserveKeepsInv(t, r);
      case ReleaseHolds(r) => ReleaseActiveKeepsInv(t, r.scope, r.compositionItems);
    }
  }

  lemma {:induction false} RunKeepsInv(t: Tables, cs: seq<Command>)
    requires Inv(t) && RunAddressed(t, cs)
    ensures Inv(Run(t, cs))
    decreases cs
  {
    if cs != [] {
      StepKeepsInv(t, cs[0]);
      RunKeepsInv(Step(t, cs[0]), cs[1..]);
    }
  }

  lemma StepStaysSound(t: Tables, c: Command)
    requires Sound(t)
    ensures Sound(Step(t, c))
  {
    if Execute(t, c).Ok? {
      match c
      case PostReceipt(p) => PostStaysSound(t, p);
      case ReverseReceipt(r) => ReverseStaysSound(t, r);
      case AdjustItem(a) => AdjustStaysSound(t, a);
      case IssueGoods(i) => IssueStaysSound(t, i);
      case ReverseSale(r) => ReverseIssueStaysSound(t, r);
      case PostWaste(w) => PostWriteOffStaysSound(t, w);
      case ReverseWaste(r) => ReverseWriteOffStaysSound(t, r);
      case Reserve(r) => ReserveStaysSound(t, r);
      case ReleaseHolds(r) => ReleaseActiveStaysSound(t, r.scope, r.compositionItems);
    }
  }

  /** Batches, movements and holds stay in step on every run, whatever its callers name. */
  lemma {:induction false} RunStaysSound(t: Tables, cs: seq<Command>)
    requires Sound(t)
    ensures Sound(Run(t, cs))
    decreases cs
  {
    if cs != [] {
      StepStaysSound(t, cs[0]);
      RunStaysSound(Step(t, cs[0]), cs[1..]);
    }
  }

  /**
   After any run, every stock key's on-hand quantity is the sum of its batches and the replay of its
   movements, its reserved quantity is the sum of its active holds, and available is the difference, never
   negative.
   */
  lemma LedgerAgreesOnEveryRun(cs: seq<Command>, k: StockKey)
    requires RunAddressed(EMPTY, cs)
    ensures var t := Run(EMPTY, cs);
      && OnHand(t, k) == Sum(t.batches, RemainingOf(k))
      && OnHand(t, k) == Sum(t.movements, DeltaOf(k))
      && Reserved(t, k) == Sum(t.reservations, HeldOf(k))
      && 0 <= Reserved(t, k) <= OnHand(t, k)
      && (k in t.balances ==> t.balances[k].available == OnHand(t, k) - Reserved(t, k))
  {
    EmptyInv();
    RunKeepsInv(EMPTY, cs);
    var t := Run(EMPTY, cs);
    assert OnHandAgrees(t, k) && ReservedAgrees(t, k);
  }

  /** After any run each batch replays to its remaining quantity, and what is missing from it was drawn. */
  lemma BatchesReplayOnEveryRun(cs: seq<Command>, i: nat)
    requires i < |Run(EMPTY, cs).batches|
    ensures var t := Run(EMPTY, cs); var b := t.batches[i];
      && 0 < b.initial && 0 <= b.remaining <= b.initial
      && b.remaining == Sum(t.movements, DeltaOnBatch(i))
      && (!b.status.ReversedBatch? ==> b.initial - b.remaining == Sum(t.movements, DrawnFromBatch(i)))
      && (b.status.ReversedBatch? ==> b.remaining == 0 == Sum(t.movements, DrawnFromBatch(i)))
  {
    RunStaysSound(EMPTY, cs);
    assert BatchHistoryOk(Run(EMPTY, cs), i) && BatchShapeOk(Run(EMPTY, cs).batches[i]);
  }

  function OfReceiptLine(kind: MovementType, line: nat): Movement -> int {
    (m: Movement) => if m.sourceType.GoodsReceiptItem? && m.sourceItem == Given(line) && m.kind == kind then 1 else 0
  }

  /** Two different rows of a table cannot both be counted when the count is at most one. */
  lemma {:induction false} AtMostOneRow<T>(s: seq<T>, f: T -> int)
    requires forall x :: x in s ==> 0 <= f(x) <= 1
    requires forall a, b :: 0 <= a < b < |s| ==> f(s[a]) == 0 || f(s[b]) == 0
    ensures Sum(s, f) <= 1
  {
    if s != [] {
      var n := |s| - 1;
      AtMostOneRow(s[..n], f);
      if f(s[n]) == 1 {
        forall x | x in s[..n] ensures f(x) == 0 {
          var a :| 0 <= a < n && s[a] == x;
        }
        SumZero(s[..n], f);
      }
    }
  }

  lemma OneRowPerLine(t: Tables, kind: MovementType, line: nat)
    requires LedgerInv(t) && (kind == Receipt || kind == ReceiptReversal)
    ensures Sum(t.movements, OfReceiptLine(kind, line)) <= 1
  {
    var f := OfReceiptLine(kind, line);
    forall a, b | 0 <= a < b < |t.movements| ensures f(t.movements[a]) == 0 || f(t.movements[b]) == 0 {
      assert LedgerRowOk(t, a) && LedgerRowOk(t, b);
      assert !SameSource(t.movements[a], t.movements[b]);
    }
    AtMostOneRow(t.movements, f);
  }

  /** Each receipt line ever yields at most one batch, one RECEIPT and one RECEIPT_REVERSAL. */
  lemma ReceiptLinePostsOnce(cs: seq<Command>, line: nat)
    ensures var t := Run(EMPTY, cs);
      && Sum(t.movements, OfReceiptLine(Receipt, line)) <= 1
      && Sum(t.movements, OfReceiptLine(ReceiptReversal, line)) <= 1
      && (forall a, b | 0 <= a < |t.batches| && 0 <= b < |t.batches| ::
            t.batches[a].receiptLine == line && t.batches[b].receiptLine == line ==> a == b)
  {
    RunStaysSound(EMPTY, cs);
    OneRowPerLine(Run(EMPTY, cs), Receipt, line);
    OneRowPerLine(Run(EMPTY, cs), ReceiptReversal, line);
  }

  // ------------------------------------------------------- idempotency keys

  lemma StepExtends(t: Tables, c: Command)
    ensures Extends(t, Step(t, c))
  {
  }

  lemma {:induction false} RunExtends(t: Tables, cs: seq<Command>)
    ensures Extends(t, Run(t, cs))
    decreases cs
  {
    if cs != [] {
      StepExtends(t, cs[0]);
      RunExtends(Step(t, cs[0]), cs[1..]);
    }
  }

  /** The key a command carries and the document it binds that key to. */
  function Claimed(c: Command): Option<(IdempotencyKey, nat)> {
    match c
    case PostReceipt(p) =>
      if p.key != None && p.key != Some("") then Some((IdempotencyKey(p.scope.org, GoodsReceiptPost, p.key.value), p.goodsReceipt)) else None
    case ReverseReceipt(r) =>
      if r.key != None && r.key != Some("") then Some((IdempotencyKey(r.scope.org, GoodsReceiptReverse, r.key.value), r.goodsReceipt)) else None
    case IssueGoods(i) => Some((IdempotencyKey(i.scope.org, i.keyScope, i.key), i.document))
    case ReverseSale(r) => Some((IdempotencyKey(r.scope.org, SaleIssueReverse, r.key), r.sale))
    case PostWaste(w) => Some((IdempotencyKey(w.scope.org, InventoryTables.PostingScope.WriteOffPost, w.key), w.writeOff))
    case ReverseWaste(r) =>
      Some((IdempotencyKey(r.scope.org, InventoryTables.PostingScope.WriteOffReverse, r.key), r.writeOff))
    case _ => None
  }

  lemma CommitBindsKey(t: Tables, c: Command)
    requires Claimed(c).Some? && Execute(t, c).Ok?
    ensures Claimed(c).value.0 in Step(t, c).keys && Step(t, c).keys[Claimed(c).value.0] == Claimed(c).value.1
  {
  }

  /**
   Once a command with a key has committed, then whatever runs next, sending it again changes nothing, and
   any command that brings the same key for another document is refused.
   */
  lemma RetryChangesNothing(t: Tables, c: Command, cs: seq<Command>, other: Command)
    requires Claimed(c).Some? && Execute(t, c).Ok?
    requires Claimed(other).Some? && Claimed(other).value.0 == Claimed(c).value.0
    ensures var t' := Run(Step(t, c), cs);
      && Execute(t', c) == Ok(t')
      && (Claimed(other).value.1 != Claimed(c).value.1 ==> Execute(t', other) == Rejected(IdempotencyKeyReused))
      && (Claimed(other).value.1 == Claimed(c).value.1 ==> Execute(t', other) == Ok(t'))
  {
    CommitBindsKey(t, c);
    RunExtends(Step(t, c), cs);
  }

  // ------------------------------------------------------------ corrections

  /** A correction of a batch keeps what was drawn from it, exactly. */
  lemma CorrectionKeepsDrawn(t: Tables, a: AdjustCommand)
    requires Inv(t) && AdjustGoodsReceiptItem(t, a).Ok?
    ensures var t' := AdjustGoodsReceiptItem(t, a).value;
      && |t'.batches| == |t.batches|
      && (forall i :: 0 <= i < |t.batches| ==>
            t'.batches[i].initial - t'.batches[i].remaining == t.batches[i].initial - t.batches[i].remaining)
      && (forall i :: 0 <= i < |t.batches| && !Corrected(a)(t.batches[i]) ==> t'.batches[i] == t.batches[i])
      && (exists i :: 0 <= i < |t.batches| && Corrected(a)(t.batches[i]) && t'.batches[i].initial == a.acceptedQuantity > 0)
  {
    var i := FindFirst(t.batches, Corrected(a)).value;
    assert Corrected(a)(t.batches[i]);
  }

  /** A correction keeps on-hand stock in agreement exactly when it names its batch's item or moves nothing. */
  lemma CorrectionAgreesIffAddressed(t: Tables, a: AdjustCommand)
    requires Inv(t) && AdjustGoodsReceiptItem(t, a).Ok?
    ensures (forall k :: OnHandAgrees(AdjustGoodsReceiptItem(t, a).value, k)) <==> AdjustAddressed(t, a)
  {
    var t' := AdjustGoodsReceiptItem(t, a).value;
    if AdjustAddressed(t, a) {
      AdjustKeepsInv(t, a);
    } else {
      var i := FindFirst(t.batches, Corrected(a)).value;
      var k := StockKey(a.scope, a.item);
      assert OnHandAgrees(t, k);
      AdjustBalanceEffect(AddMovement(t, CorrectionMovement(t, a, i, a.acceptedQuantity - t.batches[i].initial)).value,
                          k, a.acceptedQuantity - t.batches[i].initial);
      SumUpdate(t.batches, i, CorrectedBatch(a, t.batches[i]), RemainingOf(k));
      assert !OnHandAgrees(t', k);
    }
  }

  // ------------------------------------------------------------------ signs

  /**
   The query-side sign applied to a stored quantity as it stands gives a movement's true effect exactly when
   the movement is no reversal: all three reversal kinds are stored already negated.
   */
  lemma RawDeltaIsTrueIffNotReversal(cs: seq<Command>, j: nat)
    requires j < |Run(EMPTY, cs).movements|
    ensures var m := Run(EMPTY, cs).movements[j];
      && (SignedMovementDelta(m.kind, m.quantity) == Delta(m) <==> !IsReversal(m.kind))
      && (IsReversal(m.kind) ==> SignedMovementDelta(m.kind, m.quantity) == -Delta(m))
  {
    RunStaysSound(EMPTY, cs);
    assert LedgerRowOk(Run(EMPTY, cs), j);
  }
}
