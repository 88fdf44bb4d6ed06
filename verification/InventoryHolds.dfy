/** When every active hold stays covered by its batch, over whole runs. */
module InventoryHolds {
  import opened Wrappers
  import opened Sequences
  import opened InventoryTables
  import opened InventoryInvariant
  import opened InventoryPosting
  import opened InventoryReservation
  import opened InventoryRuns
  import opened InventoryUndo
  import opened InventoryCoverage
  import opened InventoryOverbooking

  /**
   The guards the adapters lack: a receipt is reversed or cut only where nothing on the batch is needed, and
   a reservation's lines do not compete for one batch. Every other command needs none.
   */
  ghost predicate Careful(t: Tables, c: Command) {
    match c
    case ReverseReceipt(r) => FreshReversal(t, r) ==> Unreserved(t, r)
    case AdjustItem(a) => RoomForHolds(t, a)
    case Reserve(r) => ReservationFits(t, r)
    case _ => true
  }

  /** A committed command leaves every hold covered exactly when it was careful. */
  lemma CommitCoversIffCareful(t: Tables, c: Command)
    requires Inv(t) && Covered(t) && Execute(t, c).Ok?
    ensures Covered(Step(t, c)) <==> Careful(t, c)
  {
    match c
    case PostReceipt(p) => PostKeepsCovered(t, p);
    case ReverseReceipt(r) => if FreshReversal(t, r) { ReversalCoversIffUnreserved(t, r); }
    case AdjustItem(a) => CorrectionCoversIffRoom(t, a);
    case IssueGoods(i) => IssueKeepsCovered(t, i);
    case ReverseSale(r) => ReverseIssueKeepsCovered(t, r);
    case PostWaste(w) => PostWriteOffKeepsCovered(t, w);
    case ReverseWaste(r) => ReverseWriteOffKeepsCovered(t, r);
    case Reserve(r) => ReservationCoversIffLinesFit(t, r);
    case ReleaseHolds(r) => ReleaseKeepsCovered(t, r.scope, r.compositionItems);
  }

  ghost predicate CoveredThroughout(t: Tables, cs: seq<Command>)
    decreases cs
  {
    Covered(t) && (cs == [] || CoveredThroughout(Step(t, cs[0]), cs[1..]))
  }

  /** Every command that commits along the run is careful where it runs. */
  ghost predicate RunCareful(t: Tables, cs: seq<Command>)
    decreases cs
  {
    cs == [] || ((Execute(t, cs[0]).Ok? ==> Careful(t, cs[0])) && RunCareful(Step(t, cs[0]), cs[1..]))
  }

  /** Along a run the holds are covered at every point exactly when every command that commits is careful. */
  lemma {:induction false} HoldsStayCoveredIffCareful(t: Tables, cs: seq<Command>)
    requires Inv(t) && Covered(t) && RunAddressed(t, cs)
    ensures CoveredThroughout(t, cs) <==> RunCareful(t, cs)
    decreases cs
  {
    if cs != [] {
      var t1 := Step(t, cs[0]);
      StepKeepsInv(t, cs[0]);
      if Execute(t, cs[0]).Ok? {
        CommitCoversIffCareful(t, cs[0]);
      }
      if Covered(t1) {
        HoldsStayCoveredIffCareful(t1, cs[1..]);
      }
    }
  }

  lemma {:induction false} CoveredToTheEnd(t: Tables, cs: seq<Command>)
    requires CoveredThroughout(t, cs)
    ensures Covered(Run(t, cs))
    decreases cs
  {
    if cs != [] {
      CoveredToTheEnd(Step(t, cs[0]), cs[1..]);
    }
  }

  /** In particular, careful runs end with every hold covered. */
  lemma CarefulRunsKeepHoldsCovered(t: Tables, cs: seq<Command>)
    requires Inv(t) && Covered(t) && RunAddressed(t, cs) && RunCareful(t, cs)
    ensures Covered(Run(t, cs))
  {
    HoldsStayCoveredIffCareful(t, cs);
    CoveredToTheEnd(t, cs);
  }
}
