/** No active hold has ever been booked by an issue: a line that books a hold spends or releases it. */
module InventoryBookings {
  import opened Wrappers
  import opened Sequences
  import opened InventoryTables
  import opened InventoryInvariant
  import opened InventoryPosting
  import opened InventoryIssue
  import opened InventoryWriteOff
  import opened InventoryReservation
  import opened InventoryLedger
  import opened InventoryRuns

  /** No issue row names this hold as its source. */
  predicate NotBooked(ms: seq<Movement>, row: nat) {
    forall j :: 0 <= j < |ms| && ms[j].kind.Issue? ==> ms[j].sourceItem != Given(row)
  }

  /** Issue rows name holds that exist and, but for those excepted, are no longer active. */
  predicate BookedAreSpent(t: Tables, excepted: Reservation -> bool) {
    forall j :: 0 <= j < |t.movements| && t.movements[j].kind.Issue? && t.movements[j].sourceItem.Given? ==>
      var row := t.movements[j].sourceItem.id;
      row < |t.reservations| && (t.reservations[row].status.ActiveHold? ==> excepted(t.reservations[row]))
  }

  function Nobody(): Reservation -> bool {
    (r: Reservation) => false
  }

  predicate Unbooked(t: Tables) {
    BookedAreSpent(t, Nobody())
  }

  lemma ActiveIsNotBooked(t: Tables, row: nat)
    requires Unbooked(t) && row < |t.reservations| && t.reservations[row].status.ActiveHold?
    ensures NotBooked(t.movements, row)
  {
  }

  // ----------------------------------------------------- rows of other kinds

  /** New movements are no issues, and no hold comes back to life. */
  ghost predicate BooksNothing(t: Tables, t': Tables) {
    && t.movements <= t'.movements && |t.reservations| <= |t'.reservations|
    && (forall j :: |t.movements| <= j < |t'.movements| ==> !t'.movements[j].kind.Issue?)
    && (forall i :: 0 <= i < |t.reservations| && t'.reservations[i].status.ActiveHold? ==> t.reservations[i].status.ActiveHold?)
  }

  lemma BooksNothingKeeps(t: Tables, t': Tables)
    requires Unbooked(t) && BooksNothing(t, t')
    ensures Unbooked(t')
  {
  }

  lemma {:induction false} PostLinesBookNothing(t: Tables, cmd: PostCommand, lines: seq<ReceiptLine>)
    requires PostLines(t, cmd, lines).Ok?
    ensures BooksNothing(t, PostLines(t, cmd, lines).value)
    decreases lines
  {
    if lines != [] {
      assert BooksNothing(t, PostLine(t, cmd, lines[0]).value);
      PostLinesBookNothing(PostLine(t, cmd, lines[0]).value, cmd, lines[1..]);
    }
  }

  lemma ReverseBatchBooksNothing(t: Tables, cmd: ReverseCommand, i: nat)
    requires i < |t.batches| && ReverseBatch(t, cmd, i).Ok?
    ensures BooksNothing(t, ReverseBatch(t, cmd, i).value)
  {
  }

  lemma {:induction false} ReverseBatchesBookNothing(t: Tables, cmd: ReverseCommand, rows: seq<nat>)
    requires RowsExist(t, rows) && ReverseBatches(t, cmd, rows).Ok?
    ensures BooksNothing(t, ReverseBatches(t, cmd, rows).value)
    decreases rows
  {
    if rows != [] {
      ReverseBatchBooksNothing(t, cmd, rows[0]);
      ReverseBatchesBookNothing(ReverseBatch(t, cmd, rows[0]).value, cmd, rows[1..]);
    }
  }

  lemma AdjustBooksNothing(t: Tables, cmd: AdjustCommand)
    requires AdjustGoodsReceiptItem(t, cmd).Ok?
    ensures BooksNothing(t, AdjustGoodsReceiptItem(t, cmd).value)
  {
  }

  lemma {:induction false} ReverseSlicesBookNothing(t: Tables, cmd: ReverseIssueCommand, rows: seq<nat>)
    requires (forall n :: 0 <= n < |rows| ==> rows[n] < |t.movements|) && ReverseSlices(t, cmd, rows).Ok?
    ensures BooksNothing(t, ReverseSlices(t, cmd, rows).value)
    decreases rows
  {
    if rows != [] {
      assert BooksNothing(t, ReverseSlice(t, cmd, rows[0]).value);
      ReverseSlicesBookNothing(ReverseSlice(t, cmd, rows[0]).value, cmd, rows[1..]);
    }
  }

  lemma {:induction false} WriteOffSlicesBookNothing(t: Tables, cmd: WriteOffCommand, line: WriteOffLine, order: seq<nat>, needed: int)
    requires (forall n :: 0 <= n < |order| ==> order[n] < |t.batches|) && WriteOffSlices(t, cmd, line, order, needed).Ok?
    ensures BooksNothing(t, WriteOffSlices(t, cmd, line, order, needed).value.tables)
    decreases order
  {
    if order != [] && needed > 0 {
      var p := WriteOffSlice(t, cmd, line, order[0], needed).value;
      assert BooksNothing(t, p.tables);
      WriteOffSlicesBookNothing(p.tables, cmd, line, order[1..], p.remaining);
    }
  }

  lemma {:induction false} WriteOffLinesBookNothing(t: Tables, cmd: WriteOffCommand, lines: seq<WriteOffLine>)
    requires PostWriteOffLines(t, cmd, lines).Ok?
    ensures BooksNothing(t, PostWriteOffLines(t, cmd, lines).value)
    decreases lines
  {
    if lines != [] {
      var order := ConsumptionOrder(t, StockKey(cmd.scope, lines[0].item));
      WriteOffSlicesBookNothing(t, cmd, lines[0], order, lines[0].quantity);
      WriteOffLinesBookNothing(PostWriteOffLine(t, cmd, lines[0]).value, cmd, lines[1..]);
    }
  }

  lemma {:induction false} ReverseWriteOffSlicesBookNothing(t: Tables, cmd: ReverseWriteOffCommand, rows: seq<nat>)
    requires (forall n :: 0 <= n < |rows| ==> rows[n] < |t.movements|) && ReverseWriteOffSlices(t, cmd, rows).Ok?
    ensures BooksNothing(t, ReverseWriteOffSlices(t, cmd, rows).value)
    decreases rows
  {
    if rows != [] {
      assert BooksNothing(t, ReverseWriteOffSlice(t, cmd, rows[0]).value);
      ReverseWriteOffSlicesBookNothing(ReverseWriteOffSlice(t, cmd, rows[0]).value, cmd, rows[1..]);
    }
  }

  lemma ReleaseBooksNothing(t: Tables, scope: Scope, compositionItems: seq<nat>)
    requires ReleaseActive(t, scope, compositionItems).Ok?
    ensures BooksNothing(t, ReleaseActive(t, scope, compositionItems).value)
  {
    var active := HeldIn(scope, compositionItems);
    AdjustEachMovesBalances(t.(reservations := ReleaseRows(t.reservations, active)), scope,
                            ItemsOf(t.reservations, active), t.reservations, active, -1);
  }

  lemma ReserveBooksNothing(t: Tables, cmd: ReserveCommand)
    requires ReserveComposition(t, cmd).Ok?
    ensures BooksNothing(t, ReserveComposition(t, cmd).value)
  {
    ReleaseBooksNothing(t, cmd.scope, CompositionItems(cmd.lines));
    var t1 := ReleaseActive(t, cmd.scope, CompositionItems(cmd.lines)).value;
    var plan := Plan(t1, cmd.scope, cmd.lines).value;
    AdjustEachMovesBalances(t1.(reservations := t1.reservations + plan), cmd.scope, ItemsOf(plan, IsHeld()), plan, IsHeld(), 1);
  }

  // ---------------------------------------------------------------- issues

  lemma {:induction false} ConsumedAreExcepted(t: Tables, cmd: IssueCommand, k: StockKey, sources: seq<nat>, rows: seq<nat>, needed: int)
    requires BookedAreSpent(t, HeldFor(k, sources))
    requires forall n :: 0 <= n < |rows| ==> rows[n] < |t.reservations| && HeldFor(k, sources)(t.reservations[rows[n]])
    requires forall a, b :: 0 <= a < b < |rows| ==> rows[a] < rows[b]
    requires ConsumeHolds(t, cmd, k, rows, needed).Ok?
    ensures BookedAreSpent(ConsumeHolds(t, cmd, k, rows, needed).value.tables, HeldFor(k, sources))
    decreases rows
  {
    if rows != [] && needed > 0 {
      var p := ConsumeHold(t, cmd, k, rows[0], needed).value;
      assert forall x :: 0 <= x < |t.reservations| && x != rows[0] ==> p.tables.reservations[x] == t.reservations[x];
      ConsumedAreExcepted(p.tables, cmd, k, sources, rows[1..], p.remaining);
    }
  }

  lemma {:induction false} FreeSlicesAreMinted(t: Tables, cmd: IssueCommand, k: StockKey, order: seq<nat>, needed: int)
    requires Unbooked(t) && (forall n :: 0 <= n < |order| ==> order[n] < |t.batches|)
    requires TakeFreeStock(t, cmd, k, order, needed).Ok?
    ensures Unbooked(TakeFreeStock(t, cmd, k, order, needed).value.tables)
    decreases order
  {
    if order != [] && needed > 0 {
      var p := TakeFree(t, cmd, k, order[0], needed).value;
      FreeSlicesAreMinted(p.tables, cmd, k, order[1..], p.remaining);
    }
  }

  lemma ReleaseSpends(t: Tables, k: StockKey, sources: seq<nat>)
    requires BookedAreSpent(t, HeldFor(k, sources)) && ReleaseExcess(t, k, sources).Ok?
    ensures Unbooked(ReleaseExcess(t, k, sources).value)
  {
  }

  lemma IssueReservedStaysUnbooked(t: Tables, cmd: IssueCommand, k: StockKey, line: IssueLine)
    requires Unbooked(t) && IssueReserved(t, cmd, k, line).Ok?
    ensures Unbooked(IssueReserved(t, cmd, k, line).value.tables)
  {
    if line.sources != [] {
      var rows := Matching(t.reservations, HeldFor(k, line.sources));
      forall n | 0 <= n < |rows| ensures HeldFor(k, line.sources)(t.reservations[rows[n]]) {
        assert rows[n] in rows;
      }
      ConsumedAreExcepted(t, cmd, k, line.sources, rows, line.quantity);
      ReleaseSpends(ConsumeHolds(t, cmd, k, rows, line.quantity).value.tables, k, line.sources);
    }
  }

  lemma IssueOneLineStaysUnbooked(t: Tables, cmd: IssueCommand, line: IssueLine)
    requires Unbooked(t) && IssueOneLine(t, cmd, line).Ok?
    ensures Unbooked(IssueOneLine(t, cmd, line).value)
  {
    var k := StockKey(cmd.scope, line.item);
    IssueReservedStaysUnbooked(t, cmd, k, line);
    var p := IssueReserved(t, cmd, k, line).value;
    if p.remaining > 0 {
      FreeSlicesAreMinted(p.tables, cmd, k, ConsumptionOrder(p.tables, k), p.remaining);
    }
  }

  lemma {:induction false} IssueLinesStayUnbooked(t: Tables, cmd: IssueCommand, lines: seq<IssueLine>)
    requires Unbooked(t) && IssueLines(t, cmd, lines).Ok?
    ensures Unbooked(IssueLines(t, cmd, lines).value)
    decreases lines
  {
    if lines != [] {
      IssueOneLineStaysUnbooked(t, cmd, lines[0]);
      IssueLinesStayUnbooked(IssueOneLine(t, cmd, lines[0]).value, cmd, lines[1..]);
    }
  }

  // ------------------------------------------------------------------ runs

  lemma PostStaysUnbooked(t: Tables, cmd: PostCommand)
    requires Unbooked(t) && PostGoodsReceipt(t, cmd).Ok?
    ensures Unbooked(PostGoodsReceipt(t, cmd).value)
  {
    var claim := ClaimKey(t, cmd.scope.org, GoodsReceiptPost, cmd.key, cmd.goodsReceipt);
    if claim.Fresh? {
      PostLinesBookNothing(claim.tables, cmd, cmd.lines);
      BooksNothingKeeps(t, PostGoodsReceipt(t, cmd).value);
    }
  }

  lemma ReverseStaysUnbooked(t: Tables, cmd: ReverseCommand)
    requires Unbooked(t) && ReverseGoodsReceipt(t, cmd).Ok?
    ensures Unbooked(ReverseGoodsReceipt(t, cmd).value)
  {
    var claim := ClaimKey(t, cmd.scope.org, GoodsReceiptReverse, cmd.key, cmd.goodsReceipt);
    if claim.Fresh? {
      ReverseBatchesBookNothing(claim.tables, cmd, Matching(claim.tables.batches, InReceipt(cmd)));
      BooksNothingKeeps(t, ReverseGoodsReceipt(t, cmd).value);
    }
  }

  lemma ReverseIssueStaysUnbooked(t: Tables, cmd: ReverseIssueCommand)
    requires Unbooked(t) && ReverseIssue(t, cmd).Ok?
    ensures Unbooked(ReverseIssue(t, cmd).value)
  {
    var rows := Matching(t.movements, OfDocument(cmd.scope.org, Sale, cmd.sale, Issue));
    if ReverseSlices(t, cmd, rows).Ok? {
      ReverseSlicesBookNothing(t, cmd, rows);
    }
    BooksNothingKeeps(t, ReverseIssue(t, cmd).value);
  }

  lemma WriteOffStaysUnbooked(t: Tables, cmd: WriteOffCommand)
    requires Unbooked(t) && PostWriteOff(t, cmd).Ok?
    ensures Unbooked(PostWriteOff(t, cmd).value)
  {
    if PostWriteOffLines(t, cmd, cmd.lines).Ok? {
      WriteOffLinesBookNothing(t, cmd, cmd.lines);
    }
    BooksNothingKeeps(t, PostWriteOff(t, cmd).value);
  }

  lemma ReverseWriteOffStaysUnbooked(t: Tables, cmd: ReverseWriteOffCommand)
    requires Unbooked(t) && ReverseWriteOff(t, cmd).Ok?
    ensures Unbooked(ReverseWriteOff(t, cmd).value)
  {
    var rows := Matching(t.movements, OfDocument(cmd.scope.org, WriteOffItem, cmd.writeOff, WriteOff));
    if ReverseWriteOffSlices(t, cmd, rows).Ok? {
      ReverseWriteOffSlicesBookNothing(t, cmd, rows);
    }
    BooksNothingKeeps(t, ReverseWriteOff(t, cmd).value);
  }

  lemma StepStaysUnbooked(t: Tables, c: Command)
    requires Unbooked(t)
    ensures Unbooked(Step(t, c))
  {
    if Execute(t, c).Ok? {
      match c
      case PostReceipt(p) => PostStaysUnbooked(t, p);
      case ReverseReceipt(r) => ReverseStaysUnbooked(t, r);
      case AdjustItem(a) =>
        AdjustBooksNothing(t, a);
        BooksNothingKeeps(t, Step(t, c));
      case IssueGoods(i) =>
        if IssueLines(t, i, i.lines).Ok? { IssueLinesStayUnbooked(t, i, i.lines); }
      case ReverseSale(r) => ReverseIssueStaysUnbooked(t, r);
      case PostWaste(w) => WriteOffStaysUnbooked(t, w);
      case ReverseWaste(r) => ReverseWriteOffStaysUnbooked(t, r);
      case Reserve(r) =>
        ReserveBooksNothing(t, r);
        BooksNothingKeeps(t, Step(t, c));
      case ReleaseHolds(r) =>
        ReleaseBooksNothing(t, r.scope, r.compositionItems);
        BooksNothingKeeps(t, Step(t, c));
    }
  }

  /** After any run no active hold has been booked by an issue. */
  lemma {:induction false} RunStaysUnbooked(t: Tables, cs: seq<Command>)
    requires Unbooked(t)
    ensures Unbooked(Run(t, cs))
    decreases cs
  {
    if cs != [] {
      StepStaysUnbooked(t, cs[0]);
      RunStaysUnbooked(Step(t, cs[0]), cs[1..]);
    }
  }
}
