/** What runs of delivery commands guarantee: versions, terminal jobs, retries and the switch of fulfilment. */
module DeliveryHistory {
  import opened Wrappers
  import opened Sequences
  import opened Text
  import opened DeliveryRules
  import opened DeliveryTables
  import opened DeliveryInvariant
  import opened DeliveryCommands
  import opened DeliveryCommandProofs
  import opened DeliveryRuns

  // -------------------------------------------------------------- versions

  lemma {:induction false} RunConcat(t: Tables, a: seq<Command>, b: seq<Command>)
    ensures Run(t, a + b) == Run(Run(t, a), b)
    decreases a
  {
    if a == [] {
      assert [] + b == b;
    } else {
      assert (a + b)[1..] == a[1..] + b;
      RunConcat(Step(t, a[0]), a[1..], b);
    }
  }

  /**
   Over any run a job stays in its place, no timestamp once set is cleared, and its version never falls:
   an equal version means the very same row.
   */
  lemma {:induction false} JobOverRun(t: Tables, cs: seq<Command>, i: nat)
    requires i < |t.jobs|
    ensures i < |Run(t, cs).jobs|
    ensures var j, j' := t.jobs[i], Run(t, cs).jobs[i];
      SamePlace(j, j') && MarksKept(j, j') && j.version <= j'.version && (j.version == j'.version ==> j == j')
    decreases cs
  {
    if cs != [] {
      CommandStep(t, cs[0]);
      assert JobStep(cs[0], i, t.jobs[i], Step(t, cs[0]).jobs[i]);
      JobOverRun(Step(t, cs[0]), cs[1..], i);
    }
  }

  /** A command that carries a version. */
  predicate Carries(c: Command, i: nat, e: int) {
    TargetOf(c).Some? && TargetOf(c).value.job == i && TargetOf(c).value.expected == e
  }

  predicate Changes(t: Tables, c: Command, i: nat)
    requires i < |t.jobs|
  {
    |Step(t, c).jobs| <= i || Step(t, c).jobs[i] != t.jobs[i]
  }

  /** A named version is spent by the first commit that carries it: of any two such commands, one changes nothing. */
  lemma OneCommitPerVersion(t: Tables, c: Command, between: seq<Command>, d: Command, i: nat, e: int)
    requires i < |t.jobs| && Carries(c, i, e) && Carries(d, i, e)
    requires Changes(t, c, i)
    ensures var t2 := Run(Step(t, c), between); i < |t2.jobs| && !Changes(t2, d, i)
  {
    CommandStep(t, c);
    assert JobStep(c, i, t.jobs[i], Step(t, c).jobs[i]);
    JobOverRun(Step(t, c), between, i);
    var t2 := Run(Step(t, c), between);
    CommandStep(t2, d);
    assert JobStep(d, i, t2.jobs[i], Step(t2, d).jobs[i]);
  }

  /** A commit moves its job on by exactly one version, or two for a lookup, from the version it named. */
  lemma ChangeRaisesVersion(t: Tables, c: Command, i: nat)
    requires i < |t.jobs| && Changes(t, c, i)
    ensures i < |Step(t, c).jobs|
    ensures Step(t, c).jobs[i].version == t.jobs[i].version + (if c.Locate? then 2 else 1)
    ensures TargetOf(c).Some? ==> Carries(c, i, t.jobs[i].version)
  {
    CommandStep(t, c);
    assert JobStep(c, i, t.jobs[i], Step(t, c).jobs[i]);
  }

  /**
   Whatever a step does to a job, its status moves along a transition of the command (or stays), and each
   timestamp moves only with the command it belongs to, to that command's time.
   */
  lemma ChangesFollowTheMachine(t: Tables, c: Command, i: nat)
    requires i < |t.jobs|
    ensures i < |Step(t, c).jobs|
    ensures var j, j' := t.jobs[i], Step(t, c).jobs[i];
      (j'.status == j.status || StatusMoves(c, j.status, j'.status)) && StampsTell(c, j, j')
  {
    CommandStep(t, c);
    assert JobStep(c, i, t.jobs[i], Step(t, c).jobs[i]);
  }

  // --------------------------------------------------------- terminal jobs

  predicate ResolvesJob(c: Command, i: nat) {
    c.Resolve? && c.at.job == i
  }

  /** Without a problem resolution on it, a delivered or cancelled job stays so. */
  lemma {:induction false} TerminalIsAbsorbing(t: Tables, cs: seq<Command>, i: nat)
    requires i < |t.jobs| && Terminal(t.jobs[i].status)
    requires forall c :: c in cs ==> !ResolvesJob(c, i)
    ensures i < |Run(t, cs).jobs| && Run(t, cs).jobs[i].status == t.jobs[i].status
    decreases cs
  {
    if cs != [] {
      assert cs[0] in cs;
      CommandStep(t, cs[0]);
      assert JobStep(cs[0], i, t.jobs[i], Step(t, cs[0]).jobs[i]);
      TerminalIsAbsorbing(Step(t, cs[0]), cs[1..], i);
    }
  }

  predicate OtherActive(jobs: seq<Job>, i: nat)
    requires i < |jobs|
  {
    exists x :: 0 <= x < |jobs| && x != i && Active(jobs[x]) && jobs[x].order == jobs[i].order
  }

  function ResolveKeyOf(c: Command): IdempotencyKey
    requires c.Resolve?
  {
    IdempotencyKey(c.at.org, ResolveProblemKey, Trim(c.key))
  }

  /** A resolution that passes every check up to the write of the job row, and is not a replay. */
  predicate ResolutionReachesJob(t: Tables, c: Command)
    requires c.Resolve?
  {
    var k := ResolveKeyOf(c);
    var p := GetProblem(t, c.at.org, c.at.job, c.problem);
    && Trim(c.key) != "" && RequireJob(t, c.at.org, c.at.store, c.at.job).Ok? && p.Some?
    && (k in t.keys ==> t.keys[k] == c.problem && p.value.status.OpenProblem?)
    && AssertCanResolveProblem(c.resolveTo).Pass? && t.jobs[c.at.job].version == c.at.expected
  }

  predicate ResolutionCommits(t: Tables, c: Command)
    requires c.Resolve?
  {
    ResolutionReachesJob(t, c) && (c.resolveTo.Cancelled? || !OtherActive(t.jobs, c.at.job))
  }

  lemma ResolutionOutcome(t: Tables, c: Command)
    requires c.Resolve?
    ensures ResolutionCommits(t, c) ==>
      (&& Execute(t, c).error.None?
       && Step(t, c).jobs == t.jobs[c.at.job := AfterResolution(t.jobs[c.at.job], c.resolveTo, c.now).(version := c.at.expected + 1)])
    ensures !ResolutionCommits(t, c) ==> Step(t, c).jobs == t.jobs
    ensures Execute(t, c).error == Some(ConstraintViolation) <==> ResolutionReachesJob(t, c) && !ResolutionCommits(t, c)
  {
    if ResolutionReachesJob(t, c) {
      ResolutionThatReaches(t, c);
    } else {
      ResolutionThatStops(t, c);
    }
  }

  /** Past its checks a resolution writes its job, unless the order index refuses. */
  lemma ResolutionThatReaches(t: Tables, c: Command)
    requires c.Resolve? && ResolutionReachesJob(t, c)
    ensures if ResolutionCommits(t, c)
            then && Execute(t, c).error.None?
                 && Step(t, c).jobs == t.jobs[c.at.job := AfterResolution(t.jobs[c.at.job], c.resolveTo, c.now).(version := c.at.expected + 1)]
            else Step(t, c).jobs == t.jobs && Execute(t, c).error == Some(ConstraintViolation)
  {
  }

  lemma ResolutionThatStops(t: Tables, c: Command)
    requires c.Resolve? && !ResolutionReachesJob(t, c)
    ensures Step(t, c).jobs == t.jobs && Execute(t, c).error != Some(ConstraintViolation)
  {
  }

  /**
   A job leaves DELIVERED or CANCELLED exactly when a resolution that passes its checks sends it elsewhere:
   none of those checks looks at the job's own status.
   */
  lemma TerminalIsLeftIff(t: Tables, c: Command, i: nat)
    requires i < |t.jobs| && Terminal(t.jobs[i].status)
    ensures i < |Step(t, c).jobs|
    ensures Step(t, c).jobs[i].status != t.jobs[i].status
      <==> c.Resolve? && c.at.job == i && ResolutionCommits(t, c) && c.resolveTo != t.jobs[i].status
  {
    CommandStep(t, c);
    assert JobStep(c, i, t.jobs[i], Step(t, c).jobs[i]);
    if c.Resolve? {
      ResolutionOutcome(t, c);
    }
  }

  predicate CouriersFit(t: Tables) {
    forall i :: 0 <= i < |t.jobs| ==> CourierFits(t.jobs[i])
  }

  lemma CreatedJobFits(t: Tables, c: Command)
    requires c.Create?
    ensures forall i :: |t.jobs| <= i < |Step(t, c).jobs| ==> CourierFits(Step(t, c).jobs[i])
  {
  }

  /** Only creating a delivery adds a job. */
  lemma OnlyCreationAdds(t: Tables, c: Command)
    requires !c.Create? && !c.SwitchType? && !c.Ensure? && !c.Cancel? && !c.Locate?
    ensures |Step(t, c).jobs| == |t.jobs|
  {
  }

  lemma NewJobsFit(t: Tables, c: Command)
    requires !c.Resolve?
    ensures forall i :: |t.jobs| <= i < |Step(t, c).jobs| ==> CourierFits(Step(t, c).jobs[i])
  {
    if c.Create? {
      CreatedJobFits(t, c);
    } else if c.SwitchType? || c.Ensure? {
      EnsuredJobFits(t, c.o, c.request, c.nested, c.now);
      if c.SwitchType? {
        PickupStep(t, c);
      }
    } else if c.Locate? {
      LocateStep(t, c);
      assert |Step(t, c).jobs| == |t.jobs|;
    } else if c.Cancel? {
      if CancelDelivery(t, c.at, c.key, c.now).Ok? {
        CancelJobs(t, c.at, c.key, c.now);
      }
    } else {
      OnlyCreationAdds(t, c);
    }
  }

  lemma EnsuredJobFits(t: Tables, o: OrderRef, r: DeliveryRequest, nested: bool, now: int)
    ensures var t' := EnsureDelivery(t, o, r, nested, now).tables;
      forall i :: |t.jobs| <= i < |t'.jobs| ==> CourierFits(t'.jobs[i])
  {
    var created := CreateDelivery(t, o, DraftFor(r, now));
    if created.Ok? {
      var t1, n := created.value, |t.jobs|;
      var planned := PlanDelivery(t1, Target(o.org, o.store, n, 1), NoEdit(r.bufferMinutes));
      if planned.Ok? {
        var at := Target(o.org, o.store, n, planned.value.jobs[n].version);
        if Geocode(planned.value, at, r.answer).Ok? {
          GeocodeEffect(planned.value, at, r.answer);
        }
      }
    }
  }

  /**
   Every command but a resolution keeps "a cancelled job holds no courier, an ASSIGNED job has one"; a
   resolution breaks it exactly when it cancels a job that holds a courier or moves one without to ASSIGNED.
   */
  lemma ResolutionMisplacesCourierIff(t: Tables, c: Command)
    requires CouriersFit(t)
    ensures !CouriersFit(Step(t, c))
      <==> && c.Resolve? && ResolutionCommits(t, c)
           && ((c.resolveTo.Cancelled? && t.jobs[c.at.job].courier.Some?) || (c.resolveTo.Assigned? && t.jobs[c.at.job].courier.None?))
  {
    CommandStep(t, c);
    assert forall i :: 0 <= i < |t.jobs| ==> JobStep(c, i, t.jobs[i], Step(t, c).jobs[i]);
    if c.Resolve? {
      ResolutionOutcome(t, c);
      if ResolutionCommits(t, c) {
        assert CourierFits(Step(t, c).jobs[c.at.job]) <==>
          !((c.resolveTo.Cancelled? && t.jobs[c.at.job].courier.Some?) || (c.resolveTo.Assigned? && t.jobs[c.at.job].courier.None?));
      }
    } else {
      NewJobsFit(t, c);
    }
  }
}
