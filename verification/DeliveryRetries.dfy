/** Repeating a delivery, a cancellation or a resolution under the same idempotency key. */
module DeliveryRetries {
  import opened Wrappers
  import opened Sequences
  import opened Text
  import opened DeliveryRules
  import opened DeliveryTables
  import opened DeliveryInvariant
  import opened DeliveryCommands
  import opened DeliveryCommandProofs
  import opened DeliveryRuns
  import opened DeliveryHistory

  /** Keys stay bound to their document, and a resolved problem stays resolved and with its job. */
  predicate Remembers(t: Tables, t': Tables) {
    && (forall k :: k in t.keys ==> k in t'.keys && t'.keys[k] == t.keys[k])
    && |t.problems| <= |t'.problems|
    && forall p :: 0 <= p < |t.problems| ==>
         && t'.problems[p].org == t.problems[p].org && t'.problems[p].job == t.problems[p].job
         && (t.problems[p].status.ResolvedProblem? ==> t'.problems[p].status.ResolvedProblem?)
  }

  lemma DeliverRemembers(t: Tables, c: Command)
    requires c.Deliver?
    ensures Remembers(t, Step(t, c))
  {
  }

  lemma ReportRemembers(t: Tables, c: Command)
    requires c.Report?
    ensures Remembers(t, Step(t, c))
  {
  }

  lemma CancelRemembers(t: Tables, at: Target, key: string, now: int)
    requires CancelDelivery(t, at, key, now).Ok?
    ensures Remembers(t, CancelDelivery(t, at, key, now).value)
  {
  }

  lemma ResolveRemembers(t: Tables, c: Command)
    requires c.Resolve?
    ensures Remembers(t, Step(t, c))
  {
  }

  lemma EditsRemember(t: Tables, c: Command)
    requires c.Plan? || c.ChangeAddress? || c.PlacePin? || c.MarkReady? || c.HandOver? || c.Depart?
    ensures Remembers(t, Step(t, c))
  {
  }

  lemma AssignmentsRemember(t: Tables, c: Command)
    requires c.Assign? || c.Unassign?
    ensures Remembers(t, Step(t, c))
  {
  }

  lemma CouriersRemember(t: Tables, c: Command)
    requires c.AddCourierProfile? || c.Archive? || c.Sync?
    ensures Remembers(t, Step(t, c))
  {
  }

  lemma OthersRemember(t: Tables, c: Command)
    requires c.Create? || c.OrderReady? || c.OrderPlaced? || c.OrderChanged?
    ensures Remembers(t, Step(t, c))
  {
  }

  lemma LocateRemembers(t: Tables, c: Command)
    requires c.Locate?
    ensures Remembers(t, Step(t, c))
  {
    if Step(t, c) != t {
      GeocodeEffect(t, c.at, c.answer);
    }
  }

  lemma EnsureRemembers(t: Tables, o: OrderRef, r: DeliveryRequest, nested: bool, now: int)
    ensures Remembers(t, EnsureDelivery(t, o, r, nested, now).tables)
  {
    EnsureAddsOnly(t, o, r, nested, now);
  }

  lemma PickupRemembers(t: Tables, o: OrderRef, nested: bool, now: int)
    ensures Remembers(t, SwitchToPickup(t, o, nested, now).tables)
  {
    var at, key := PickupIsCancel(t, o, nested, now);
    if SwitchToPickup(t, o, nested, now).tables != t {
      CancelRemembers(t, at, key, now);
    }
  }

  lemma StepRemembers(t: Tables, c: Command)
    ensures Remembers(t, Step(t, c))
  {
    if c.Deliver? {
      DeliverRemembers(t, c);
    } else if c.Report? {
      ReportRemembers(t, c);
    } else if c.Cancel? {
      if CancelDelivery(t, c.at, c.key, c.now).Ok? {
        CancelRemembers(t, c.at, c.key, c.now);
      }
    } else if c.Resolve? {
      ResolveRemembers(t, c);
    } else if c.Locate? {
      LocateRemembers(t, c);
    } else if c.Ensure? || c.SwitchType? {
      EnsureRemembers(t, c.o, c.request, c.nested, c.now);
      if c.SwitchType? {
        PickupRemembers(t, c.o, c.nested, c.now);
      }
    } else if c.Assign? || c.Unassign? {
      AssignmentsRemember(t, c);
    } else if TargetOf(c).Some? {
      EditsRemember(t, c);
    } else if c.AddCourierProfile? || c.Archive? || c.Sync? {
      CouriersRemember(t, c);
    } else {
      OthersRemember(t, c);
    }
  }

  lemma {:induction false} RunRemembers(t: Tables, cs: seq<Command>)
    ensures Remembers(t, Run(t, cs))
    decreases cs
  {
    if cs != [] {
      StepRemembers(t, cs[0]);
      RunRemembers(Step(t, cs[0]), cs[1..]);
    }
  }

  /** The same request sent again: the clock has moved and the caller may name any version. */
  predicate SameRequest(c: Command, retry: Command) {
    && TargetOf(c).Some? && TargetOf(retry).Some?
    && TargetOf(retry).value == TargetOf(c).value.(expected := TargetOf(retry).value.expected)
    && match c
       case Deliver(_, key, _) => retry.Deliver? && retry.key == key
       case Cancel(_, key, _) => retry.Cancel? && retry.key == key
       case Resolve(_, problem, resolveTo, key, _) =>
         retry.Resolve? && retry.problem == problem && retry.resolveTo == resolveTo && retry.key == key
       case _ => false
  }

  /** The key a request brings, and the document it binds it to. */
  function RequestKey(c: Command): (IdempotencyKey, nat)
    requires c.Deliver? || c.Cancel? || c.Resolve?
  {
    match c
    case Deliver(at, key, _) => (IdempotencyKey(at.org, DeliverKey, Trim(key)), at.job)
    case Cancel(at, key, _) => (IdempotencyKey(at.org, CancelKey, Trim(key)), at.job)
    case Resolve(at, problem, _, key, _) => (IdempotencyKey(at.org, ResolveProblemKey, Trim(key)), problem)
  }

  /** What a committed delivery, cancellation or resolution leaves for good: its key, its job, its problem. */
  predicate Bound(t: Tables, c: Command)
    requires c.Deliver? || c.Cancel? || c.Resolve?
  {
    var (k, document) := RequestKey(c);
    && k.key != "" && k in t.keys && t.keys[k] == document
    && RequireJob(t, c.at.org, c.at.store, c.at.job).Ok?
    && (c.Resolve? ==> GetProblem(t, c.at.org, c.at.job, c.problem).Some? && t.problems[c.problem].status.ResolvedProblem?)
  }

  /** The job is still where the request put it; a resolution is only asked about its problem. */
  predicate StillThere(t: Tables, c: Command)
    requires (c.Deliver? || c.Cancel? || c.Resolve?) && c.at.job < |t.jobs|
  {
    match c
    case Deliver(at, _, _) => t.jobs[at.job].status.Delivered?
    case Cancel(at, _, _) => t.jobs[at.job].status.Cancelled?
    case Resolve(_, _, _, _, _) => true
  }

  lemma DeliverBinds(t: Tables, c: Command)
    requires c.Deliver? && Execute(t, c).error.None?
    ensures Bound(Step(t, c), c) && StillThere(Step(t, c), c)
  {
  }

  lemma CancelBinds(t: Tables, c: Command)
    requires c.Cancel? && Execute(t, c).error.None?
    ensures Bound(Step(t, c), c) && StillThere(Step(t, c), c)
  {
  }

  lemma ResolveBinds(t: Tables, c: Command)
    requires c.Resolve? && Execute(t, c).error.None?
    ensures Bound(Step(t, c), c)
  {
  }

  lemma CommitBinds(t: Tables, c: Command)
    requires (c.Deliver? || c.Cancel? || c.Resolve?) && Execute(t, c).error.None?
    ensures Bound(Step(t, c), c) && StillThere(Step(t, c), c)
  {
    if c.Deliver? {
      DeliverBinds(t, c);
    } else if c.Cancel? {
      CancelBinds(t, c);
    } else {
      ResolveBinds(t, c);
    }
  }

  lemma BoundIsRemembered(t: Tables, c: Command, cs: seq<Command>)
    requires (c.Deliver? || c.Cancel? || c.Resolve?) && Bound(t, c)
    ensures Bound(Run(t, cs), c)
  {
    RunRemembers(t, cs);
    JobOverRun(t, cs, c.at.job);
  }

  lemma DeliveryReplaysIff(t: Tables, c: Command, retry: Command)
    requires c.Deliver? && Bound(t, c) && SameRequest(c, retry)
    ensures Execute(t, retry) == Outcome(t, None) <==> t.jobs[c.at.job].status.Delivered?
  {
  }

  lemma CancellationReplaysIff(t: Tables, c: Command, retry: Command)
    requires c.Cancel? && Bound(t, c) && SameRequest(c, retry)
    ensures Execute(t, retry) == Outcome(t, None) <==> t.jobs[c.at.job].status.Cancelled?
  {
  }

  lemma ResolutionReplays(t: Tables, c: Command, retry: Command)
    requires c.Resolve? && Bound(t, c) && SameRequest(c, retry)
    ensures Execute(t, retry) == Outcome(t, None)
  {
  }

  /**
   A committed delivery, cancellation or resolution sent again, whatever ran in between and whatever version
   the retry names, succeeds without changing anything exactly when the job is still delivered or cancelled
   as it left it; a resolution always does.
   */
  lemma RetryReplaysIff(t: Tables, c: Command, between: seq<Command>, retry: Command)
    requires SameRequest(c, retry) && Execute(t, c).error.None?
    ensures var t2 := Run(Step(t, c), between);
      c.at.job < |t2.jobs| && (Execute(t2, retry) == Outcome(t2, None) <==> StillThere(t2, c))
  {
    CommitBinds(t, c);
    BoundIsRemembered(Step(t, c), c, between);
    var t2 := Run(Step(t, c), between);
    if c.Deliver? {
      DeliveryReplaysIff(t2, c, retry);
    } else if c.Cancel? {
      CancellationReplaysIff(t2, c, retry);
    } else {
      ResolutionReplays(t2, c, retry);
    }
  }

  /** So it is always replayed unless a problem on that job was resolved in between. */
  lemma RetryChangesNothing(t: Tables, c: Command, between: seq<Command>, retry: Command)
    requires SameRequest(c, retry) && Execute(t, c).error.None?
    requires c.Resolve? || forall d :: d in between ==> !ResolvesJob(d, c.at.job)
    ensures var t2 := Run(Step(t, c), between); Execute(t2, retry) == Outcome(t2, None)
  {
    RetryReplaysIff(t, c, between, retry);
    if !c.Resolve? {
      CommitBinds(t, c);
      TerminalIsAbsorbing(Step(t, c), between, c.at.job);
    }
  }
}
