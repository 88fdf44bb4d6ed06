/** Posting a write-off against free stock, and reversing it. */
module InventoryWriteOff {
  import opened Wrappers
  import opened Sequences
  import opened InventoryTables
  import opened InventoryInvariant
  import opened InventoryIssue
  import opened InventoryIssueProofs

  datatype WriteOffLine = WriteOffLine(writeOffItem: nat, item: nat, quantity: int)

  datatype WriteOffCommand = WriteOffCommand(
    scope: Scope, writeOff: nat, key: string, occurredAt: int, lines: seq<WriteOffLine>)

  datatype ReverseWriteOffCommand = ReverseWriteOffCommand(scope: Scope, writeOff: nat, key: string, occurredAt: int)

  function AdjustExisting(t: Tables, k: StockKey, delta: int): Result<Tables, Error> {
    if k !in t.balances then Rejected(NoBalance)
    else
      var onHand := t.balances[k].onHand + delta;
      if onHand < 0 || onHand - t.balances[k].reserved < 0 then Rejected(NegativeBalance)
      else PutBalance(t, k, onHand, t.balances[k].reserved)
  }

  lemma AdjustExistingEffect(t: Tables, k: StockKey, delta: int)
    requires BalanceInv(t) && AdjustExisting(t, k, delta).Ok?
    ensures var t' := AdjustExisting(t, k, delta).value;
      && t' == t.(balances := t'.balances) && BalanceInv(t')
      && (forall x :: OnHand(t', x) == OnHand(t, x) + (if x == k then delta else 0))
      && (forall x :: Reserved(t', x) == Reserved(t, x))
  {
  }

  // ------------------------------------------------------------------ post

  /** Only the first slice of a line carries the line's own identifier. */
  function WriteOffMovement(t: Tables, cmd: WriteOffCommand, line: WriteOffLine, i: nat, take: int, remaining: int): Movement
    requires i < |t.batches|
  {
    Movement(StockKey(cmd.scope, line.item), i, WriteOff, take, t.batches[i].unitCost, WriteOffItem, cmd.writeOff,
             if remaining == line.quantity then Given(line.writeOffItem) else Minted(|t.movements|),
             None, cmd.occurredAt)
  }

  function WriteOffSlice(t: Tables, cmd: WriteOffCommand, line: WriteOffLine, i: nat, remaining: int): (r: Result<Progress, Error>)
    requires i < |t.batches|
    ensures r.Ok? ==> Extends(t, r.value.tables)
  {
    var free := FreeOn(t, i);
    if free <= 0 then Ok(Progress(t, remaining))
    else
      var take := Min(free, remaining);
      var t1 :- AddMovement(t, WriteOffMovement(t, cmd, line, i, take, remaining));
      var t2 :- PutBatch(t1, i, Take(t.batches[i], take));
      var t3 :- AdjustExisting(t2, StockKey(cmd.scope, line.item), -take);
      Ok(Progress(t3, remaining - take))
  }

  function WriteOffSlices(t: Tables, cmd: WriteOffCommand, line: WriteOffLine, order: seq<nat>, remaining: int): (r: Result<Progress, Error>)
    requires forall n :: 0 <= n < |order| ==> order[n] < |t.batches|
    ensures r.Ok? ==> Extends(t, r.value.tables)
    decreases order
  {
    if order == [] || remaining <= 0 then Ok(Progress(t, remaining))
    else
      var p :- WriteOffSlice(t, cmd, line, order[0], remaining);
      WriteOffSlices(p.tables, cmd, line, order[1..], p.remaining)
  }

  function PostWriteOffLine(t: Tables, cmd: WriteOffCommand, line: WriteOffLine): (r: Result<Tables, Error>)
    ensures r.Ok? ==> Extends(t, r.value)
  {
    var order := ConsumptionOrder(t, StockKey(cmd.scope, line.item));
    var p :- WriteOffSlices(t, cmd, line, order, line.quantity);
    if p.remaining > 0 then Rejected(InsufficientStock) else Ok(p.tables)
  }

  function PostWriteOffLines(t: Tables, cmd: WriteOffCommand, lines: seq<WriteOffLine>): (r: Result<Tables, Error>)
    ensures r.Ok? ==> Extends(t, r.value)
    decreases lines
  {
    if lines == [] then Ok(t)
    else
      var t1 :- PostWriteOffLine(t, cmd, lines[0]);
      PostWriteOffLines(t1, cmd, lines[1..])
  }

  function PostWriteOff(t: Tables, cmd: WriteOffCommand): (r: Result<Tables, Error>)
    ensures r.Ok? ==> Extends(t, r.value)
  {
    var k := IdempotencyKey(cmd.scope.org, InventoryTables.PostingScope.WriteOffPost, cmd.key);
    if k in t.keys then if t.keys[k] == cmd.writeOff then Ok(t) else Rejected(IdempotencyKeyReused)
    else
      var t1 :- PostWriteOffLines(t, cmd, cmd.lines);
      Ok(t1.(keys := t1.keys[k := cmd.writeOff]))
  }

  lemma WriteOffSliceKeepsInv(t: Tables, cmd: WriteOffCommand, line: WriteOffLine, i: nat, remaining: int)
    requires Inv(t) && i < |t.batches| && t.batches[i].key == StockKey(cmd.scope, line.item) && remaining > 0
    requires WriteOffSlice(t, cmd, line, i, remaining).Ok?
    ensures var t' := WriteOffSlice(t, cmd, line, i, remaining).value.tables;
      Inv(t') && forall x :: 0 <= x < |t.batches| ==> t'.batches[x].key == t.batches[x].key
  {
    var free := FreeOn(t, i);
    if free > 0 {
      var take := Min(free, remaining);
      var m := WriteOffMovement(t, cmd, line, i, take, remaining);
      var t2 := PutBatch(AddMovement(t, m).value, i, Take(t.batches[i], take)).value;
      AdjustExistingEffect(t2, m.key, -take);
      var t' := WriteOffSlice(t, cmd, line, i, remaining).value.tables;
      StepKeepsStock(t, t', i, Take(t.batches[i], take), m);
      StepKeepsHolds(t, t');
    }
  }

  lemma {:induction false} WriteOffSlicesKeepsInv(t: Tables, cmd: WriteOffCommand, line: WriteOffLine, order: seq<nat>, remaining: int)
    requires Inv(t)
    requires forall n :: 0 <= n < |order| ==> order[n] < |t.batches|
    requires forall n :: 0 <= n < |order| ==> t.batches[order[n]].key == StockKey(cmd.scope, line.item)
    requires WriteOffSlices(t, cmd, line, order, remaining).Ok?
    ensures Inv(WriteOffSlices(t, cmd, line, order, remaining).value.tables)
    decreases order
  {
    if order != [] && remaining > 0 {
      WriteOffSliceKeepsInv(t, cmd, line, order[0], remaining);
      var p := WriteOffSlice(t, cmd, line, order[0], remaining).value;
      WriteOffSlicesKeepsInv(p.tables, cmd, line, order[1..], p.remaining);
    }
  }

  lemma {:induction false} PostWriteOffLinesKeepsInv(t: Tables, cmd: WriteOffCommand, lines: seq<WriteOffLine>)
    requires Inv(t) && PostWriteOffLines(t, cmd, lines).Ok?
    ensures Inv(PostWriteOffLines(t, cmd, lines).value)
    decreases lines
  {
    if lines != [] {
      var line := lines[0];
      var order := ConsumptionOrder(t, StockKey(cmd.scope, line.item));
      forall n | 0 <= n < |order| ensures t.batches[order[n]].key == StockKey(cmd.scope, line.item) {
        assert order[n] in order;
      }
      WriteOffSlicesKeepsInv(t, cmd, line, order, line.quantity);
      PostWriteOffLinesKeepsInv(PostWriteOffLine(t, cmd, line).value, cmd, lines[1..]);
    }
  }

  lemma PostWriteOffKeepsInv(t: Tables, cmd: WriteOffCommand)
    requires Inv(t) && PostWriteOff(t, cmd).Ok?
    ensures Inv(PostWriteOff(t, cmd).value)
  {
    if IdempotencyKey(cmd.scope.org, InventoryTables.PostingScope.WriteOffPost, cmd.key) !in t.keys {
      PostWriteOffLinesKeepsInv(t, cmd, cmd.lines);
      KeysKeepInv(PostWriteOffLines(t, cmd, cmd.lines).value, PostWriteOff(t, cmd).value);
    }
  }

  // --------------------------------------------------------------- reverse

  function ReverseWriteOffSlice(t: Tables, cmd: ReverseWriteOffCommand, row: nat): (r: Result<Tables, Error>)
    requires row < |t.movements|
    ensures r.Ok? ==> Extends(t, r.value)
  {
    var m := t.movements[row];
    if m.batch >= |t.batches| then Rejected(ConstraintViolation)
    else
      var t1 :- PutBatch(t, m.batch, GiveBack(t.batches[m.batch], m.quantity));
      var t2 :- AdjustExisting(t1, StockKey(cmd.scope, m.key.item), m.quantity);
      AddMovement(t2, Compensation(cmd.scope, row, m, WriteOffReversal, cmd.occurredAt))
  }

  function ReverseWriteOffSlices(t: Tables, cmd: ReverseWriteOffCommand, rows: seq<nat>): (r: Result<Tables, Error>)
    requires forall n :: 0 <= n < |rows| ==> rows[n] < |t.movements|
    ensures r.Ok? ==> Extends(t, r.value)
    decreases rows
  {
    if rows == [] then Ok(t)
    else
      var t1 :- ReverseWriteOffSlice(t, cmd, rows[0]);
      ReverseWriteOffSlices(t1, cmd, rows[1..])
  }

  /** Nothing looks for an earlier reversal: only the unique source line refuses the second one. */
  function ReverseWriteOff(t: Tables, cmd: ReverseWriteOffCommand): (r: Result<Tables, Error>)
    ensures r.Ok? ==> Extends(t, r.value)
  {
    var k := IdempotencyKey(cmd.scope.org, InventoryTables.PostingScope.WriteOffReverse, cmd.key);
    if k in t.keys then if t.keys[k] == cmd.writeOff then Ok(t) else Rejected(IdempotencyKeyReused)
    else
      var t1 :- ReverseWriteOffSlices(t, cmd,
        Matching(t.movements, OfDocument(cmd.scope.org, WriteOffItem, cmd.writeOff, WriteOff)));
      Ok(t1.(keys := t1.keys[k := cmd.writeOff]))
  }

  predicate ReverseWriteOffAddressed(t: Tables, cmd: ReverseWriteOffCommand) {
    RowsInScope(t, cmd.scope, Matching(t.movements, OfDocument(cmd.scope.org, WriteOffItem, cmd.writeOff, WriteOff)))
  }

  lemma ReverseWriteOffSliceKeepsInv(t: Tables, cmd: ReverseWriteOffCommand, row: nat)
    requires Inv(t) && row < |t.movements| && t.movements[row].kind.WriteOff? && t.movements[row].key.scope == cmd.scope
    requires ReverseWriteOffSlice(t, cmd, row).Ok?
    ensures Inv(ReverseWriteOffSlice(t, cmd, row).value)
  {
    var m := t.movements[row];
    assert MovementRowOk(t, row);
    var b := GiveBack(t.batches[m.batch], m.quantity);
    var c := Compensation(cmd.scope, row, m, WriteOffReversal, cmd.occurredAt);
    var t' := ReverseWriteOffSlice(t, cmd, row).value;
    assert BatchShapeOk(t.batches[m.batch]);
    CompensatedRowIsOpen(t, row, c);
    OpenDrawIsMissing(t, row);
    AdjustExistingEffect(PutBatch(t, m.batch, b).value, m.key, m.quantity);
    StepKeepsStock(t, t', m.batch, b, c);
    StepKeepsHolds(t, t');
  }

  lemma {:induction false} ReverseWriteOffSlicesKeepsInv(t: Tables, cmd: ReverseWriteOffCommand, rows: seq<nat>)
    requires Inv(t) && RowsInScope(t, cmd.scope, rows)
    requires forall n :: 0 <= n < |rows| ==> t.movements[rows[n]].kind.WriteOff?
    requires ReverseWriteOffSlices(t, cmd, rows).Ok?
    ensures Inv(ReverseWriteOffSlices(t, cmd, rows).value)
    decreases rows
  {
    if rows != [] {
      ReverseWriteOffSliceKeepsInv(t, cmd, rows[0]);
      ReverseWriteOffSlicesKeepsInv(ReverseWriteOffSlice(t, cmd, rows[0]).value, cmd, rows[1..]);
    }
  }

  lemma ReverseWriteOffKeepsInv(t: Tables, cmd: ReverseWriteOffCommand)
    requires Inv(t) && ReverseWriteOffAddressed(t, cmd) && ReverseWriteOff(t, cmd).Ok?
    ensures Inv(ReverseWriteOff(t, cmd).value)
  {
    if IdempotencyKey(cmd.scope.org, InventoryTables.PostingScope.WriteOffReverse, cmd.key) !in t.keys {
      var rows := Matching(t.movements, OfDocument(cmd.scope.org, WriteOffItem, cmd.writeOff, WriteOff));
      forall n | 0 <= n < |rows| ensures t.movements[rows[n]].kind.WriteOff? {
        assert rows[n] in rows;
      }
      ReverseWriteOffSlicesKeepsInv(t, cmd, rows);
      KeysKeepInv(ReverseWriteOffSlices(t, cmd, rows).value, ReverseWriteOff(t, cmd).value);
    }
  }
}
