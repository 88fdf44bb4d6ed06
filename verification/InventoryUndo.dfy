/** Posting a receipt, correcting its lines any number of times and reversing it leaves no trace in stock. */
module InventoryUndo {
  import opened Wrappers
  import opened Sequences
  import opened InventoryTables
  import opened InventoryInvariant
  import opened InventoryPosting
  import opened InventoryIssueProofs
  import opened InventoryRuns

  function LineIds(lines: seq<ReceiptLine>): seq<nat> {
    seq(|lines|, i requires 0 <= i < |lines| => lines[i].receiptLine)
  }

  // ------------------------------------------------------------------ post

  /** The batches from position n on belong to the receipt; those before it are the ones there already. */
  ghost predicate OwnTail(batches: seq<Batch>, n: nat, scope: Scope, ids: seq<nat>) {
    && n <= |batches|
    && forall i :: n <= i < |batches| ==> batches[i].key.scope == scope && batches[i].receiptLine in ids
  }

  lemma {:induction false} PostLinesAppend(t: Tables, cmd: PostCommand, lines: seq<ReceiptLine>, ids: seq<nat>)
    requires PostLines(t, cmd, lines).Ok?
    requires forall i :: 0 <= i < |lines| ==> lines[i].receiptLine in ids
    ensures var t' := PostLines(t, cmd, lines).value;
      && t.batches <= t'.batches && OwnTail(t'.batches, |t.batches|, cmd.scope, ids)
      && t'.reservations == t.reservations
    decreases lines
  {
    if lines != [] {
      PostLinesAppend(PostLine(t, cmd, lines[0]).value, cmd, lines[1..], ids);
    }
  }

  // --------------------------------------------------------------- corrections

  predicate Corrections(cs: seq<Command>, scope: Scope, ids: seq<nat>) {
    forall n :: 0 <= n < |cs| ==>
      cs[n].AdjustItem? && cs[n].adjust.scope == scope && cs[n].adjust.receiptLine in ids
  }

  lemma CorrectionStaysInTail(t: Tables, a: AdjustCommand, n: nat, ids: seq<nat>)
    requires OwnTail(t.batches, n, a.scope, ids) && a.receiptLine in ids
    requires forall i :: 0 <= i < n ==> t.batches[i].receiptLine !in ids
    ensures var t' := Step(t, AdjustItem(a));
      |t'.batches| == |t.batches| && t'.batches[..n] == t.batches[..n] && OwnTail(t'.batches, n, a.scope, ids)
  {
    if AdjustGoodsReceiptItem(t, a).Ok? {
      var i := FindFirst(t.batches, Corrected(a)).value;
      assert Corrected(a)(t.batches[i]);
      assert Step(t, AdjustItem(a)).batches == t.batches[i := CorrectedBatch(a, t.batches[i])];
    }
  }

  lemma {:induction false} CorrectionsStayInTail(t: Tables, cs: seq<Command>, n: nat, scope: Scope, ids: seq<nat>)
    requires Corrections(cs, scope, ids) && OwnTail(t.batches, n, scope, ids)
    requires forall i :: 0 <= i < n ==> t.batches[i].receiptLine !in ids
    ensures var t' := Run(t, cs);
      |t'.batches| == |t.batches| && t'.batches[..n] == t.batches[..n] && OwnTail(t'.batches, n, scope, ids)
    decreases cs
  {
    if cs != [] {
      CorrectionStaysInTail(t, cs[0].adjust, n, ids);
      var t1 := Step(t, cs[0]);
      forall i | 0 <= i < n ensures t1.batches[i].receiptLine !in ids {
        assert t1.batches[i] == t1.batches[..n][i] == t.batches[i];
      }
      CorrectionsStayInTail(t1, cs[1..], n, scope, ids);
    }
  }

  // --------------------------------------------------------------- reversal

  ghost predicate Emptied(b: Batch) {
    b.status.ReversedBatch? && b.remaining == 0
  }

  /** The batches in these rows are emptied, the others and all reservations are as they were. */
  ghost predicate EmptiesExactly(t: Tables, t': Tables, rows: seq<nat>) {
    && |t'.batches| == |t.batches|
    && (forall i :: 0 <= i < |t.batches| && i in rows ==> Emptied(t'.batches[i]))
    && (forall i :: 0 <= i < |t.batches| && i !in rows ==> t'.batches[i] == t.batches[i])
    && t'.reservations == t.reservations
  }

  lemma ReverseBatchEmpties(t: Tables, cmd: ReverseCommand, i: nat)
    requires i < |t.batches| && ReverseBatch(t, cmd, i).Ok?
    ensures EmptiesExactly(t, ReverseBatch(t, cmd, i).value, [i])
  {
  }

  lemma EmptyBoth(t: Tables, t1: Tables, t2: Tables, row: nat, rows: seq<nat>)
    requires EmptiesExactly(t, t1, [row]) && EmptiesExactly(t1, t2, rows) && row !in rows
    ensures EmptiesExactly(t, t2, [row] + rows)
  {
  }

  lemma {:induction false} ReverseBatchesEmpty(t: Tables, cmd: ReverseCommand, rows: seq<nat>)
    requires RowsExist(t, rows) && ReverseBatches(t, cmd, rows).Ok?
    requires forall a, b :: 0 <= a < b < |rows| ==> rows[a] < rows[b]
    ensures EmptiesExactly(t, ReverseBatches(t, cmd, rows).value, rows)
    decreases rows
  {
    if rows != [] {
      var t1 := ReverseBatch(t, cmd, rows[0]).value;
      ReverseBatchEmpties(t, cmd, rows[0]);
      ReverseBatchesEmpty(t1, cmd, rows[1..]);
      assert rows == [rows[0]] + rows[1..];
      EmptyBoth(t, t1, ReverseBatches(t1, cmd, rows[1..]).value, rows[0], rows[1..]);
    }
  }

  predicate FreshReversal(t: Tables, r: ReverseCommand) {
    r.key == None || r.key == Some("") || IdempotencyKey(r.scope.org, GoodsReceiptReverse, r.key.value) !in t.keys
  }

  /** A committed reversal empties exactly the batches of the lines it names, and frees no reservation. */
  lemma ReversalEmptiesItsBatches(t: Tables, r: ReverseCommand)
    requires ReverseGoodsReceipt(t, r).Ok? && FreshReversal(t, r)
    ensures var t' := ReverseGoodsReceipt(t, r).value;
      && |t'.batches| == |t.batches|
      && (forall i :: 0 <= i < |t.batches| ==>
            if InReceipt(r)(t.batches[i]) then Emptied(t'.batches[i]) else t'.batches[i] == t.batches[i])
      && t'.reservations == t.reservations
  {
    var t1 := ClaimKey(t, r.scope.org, GoodsReceiptReverse, r.key, r.goodsReceipt).tables;
    ReverseBatchesEmpty(t1, r, Matching(t1.batches, InReceipt(r)));
  }

  // ------------------------------------------------------------------- undo

  lemma EmptyTailSum(batches: seq<Batch>, n: nat, k: StockKey)
    requires n <= |batches| && forall i :: n <= i < |batches| ==> batches[i].remaining == 0
    ensures Sum(batches, RemainingOf(k)) == Sum(batches[..n], RemainingOf(k))
  {
    assert batches == batches[..n] + batches[n..];
    SumConcat(batches[..n], batches[n..], RemainingOf(k));
    SumZero(batches[n..], RemainingOf(k));
  }

  lemma PostAppends(t: Tables, p: PostCommand)
    requires PostGoodsReceipt(t, p).Ok?
    requires ClaimKey(t, p.scope.org, GoodsReceiptPost, p.key, p.goodsReceipt).Fresh?
    ensures var t1 := PostGoodsReceipt(t, p).value;
      && t.batches <= t1.batches && OwnTail(t1.batches, |t.batches|, p.scope, LineIds(p.lines))
      && t1.reservations == t.reservations
  {
    var t0 := ClaimKey(t, p.scope.org, GoodsReceiptPost, p.key, p.goodsReceipt).tables;
    assert forall i :: 0 <= i < |p.lines| ==> p.lines[i].receiptLine == LineIds(p.lines)[i];
    PostLinesAppend(t0, p, p.lines, LineIds(p.lines));
  }

  /** Reversing the tail's lines leaves the head as it was and nothing in the tail. */
  lemma ReversalClearsTail(t: Tables, r: ReverseCommand, n: nat)
    requires ReverseGoodsReceipt(t, r).Ok? && FreshReversal(t, r)
    requires OwnTail(t.batches, n, r.scope, r.receiptLines)
    requires forall i :: 0 <= i < n ==> t.batches[i].receiptLine !in r.receiptLines
    ensures var t' := ReverseGoodsReceipt(t, r).value;
      && |t'.batches| == |t.batches| && t'.batches[..n] == t.batches[..n]
      && forall i :: n <= i < |t'.batches| ==> Emptied(t'.batches[i])
  {
    ReversalEmptiesItsBatches(t, r);
    forall i | 0 <= i < |t.batches| ensures InReceipt(r)(t.batches[i]) <==> n <= i {
    }
  }

  /** In an agreeing ledger a cleared tail counts for nothing. */
  lemma ClearedTailCountsNothing(t: Tables, n: nat, k: StockKey)
    requires OnHandAgrees(t, k)
    requires n <= |t.batches| && forall i :: n <= i < |t.batches| ==> Emptied(t.batches[i])
    ensures OnHand(t, k) == Sum(t.batches[..n], RemainingOf(k))
  {
    EmptyTailSum(t.batches, n, k);
  }

  /**
   From any reachable stock: a receipt of lines never posted before is posted, its lines are corrected any
   number of times (some corrections may be refused), and then a reversal of all its lines commits. Every
   on-hand quantity is back where it was, every batch of the receipt is reversed and empty, and every other
   batch is untouched.
   */
  lemma PostCorrectReverseIsUndone(t: Tables, p: PostCommand, cs: seq<Command>, r: ReverseCommand, k: StockKey)
    requires Inv(t) && PostGoodsReceipt(t, p).Ok?
    requires ClaimKey(t, p.scope.org, GoodsReceiptPost, p.key, p.goodsReceipt).Fresh?
    requires forall i :: 0 <= i < |t.batches| ==> t.batches[i].receiptLine !in LineIds(p.lines)
    requires var t1 := Step(t, PostReceipt(p));
      && Corrections(cs, p.scope, LineIds(p.lines)) && RunAddressed(t1, cs)
      && ReverseGoodsReceipt(Run(t1, cs), r).Ok? && FreshReversal(Run(t1, cs), r)
    requires r.scope == p.scope && r.receiptLines == LineIds(p.lines)
    ensures var t' := Step(Run(Step(t, PostReceipt(p)), cs), ReverseReceipt(r));
      && OnHand(t', k) == OnHand(t, k)
      && t.batches <= t'.batches
      && forall i :: |t.batches| <= i < |t'.batches| ==> Emptied(t'.batches[i])
  {
    var n := |t.batches|;
    PostAppends(t, p);
    var t1 := Step(t, PostReceipt(p));
    StepKeepsInv(t, PostReceipt(p));
    CorrectionsStayInTail(t1, cs, n, p.scope, LineIds(p.lines));
    RunKeepsInv(t1, cs);
    var t2 := Run(t1, cs);
    assert t2.batches[..n] == t.batches;
    forall i | 0 <= i < n ensures t2.batches[i].receiptLine !in r.receiptLines {
      assert t2.batches[i] == t2.batches[..n][i];
    }
    ReversalClearsTail(t2, r, n);
    StepKeepsInv(t2, ReverseReceipt(r));
    var t3 := Step(t2, ReverseReceipt(r));
    assert OnHandAgrees(t3, k) && OnHandAgrees(t, k);
    ClearedTailCountsNothing(t3, n, k);
  }
}
