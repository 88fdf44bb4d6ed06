/** When each delivery command goes through, and the row it leaves behind, in the terms of its caller. */
module DeliveryOutcomes {
  import opened Wrappers
  import opened Sequences
  import opened Text
  import opened DeliveryRules
  import opened DeliveryTables
  import opened DeliveryInvariant
  import opened DeliveryCommands
  import opened DeliveryCommandProofs
  import opened DeliveryFulfilment

  /** The job exists where the caller says, at the version the caller last saw. */
  predicate Seen(t: Tables, at: Target) {
    && at.job < |t.jobs| && t.jobs[at.job].org == at.org && t.jobs[at.job].store == at.store
    && t.jobs[at.job].version == at.expected
  }

  /** The job's row has been replaced, so many versions on; every other job is as it was. */
  predicate Rewrote(t: Tables, t': Tables, job: nat, j: Job, steps: nat) {
    && job < |t.jobs| == |t'.jobs| && t'.jobs[job] == j.(version := t.jobs[job].version + steps)
    && (forall i :: 0 <= i < |t.jobs| && i != job ==> t'.jobs[i] == t.jobs[i])
    && t'.orders == t.orders && t'.couriers == t.couriers
  }

  predicate KeptAssignments(t: Tables, t': Tables) {
    t'.assignments == t.assignments
  }

  predicate KeptProblems(t: Tables, t': Tables) {
    t'.problems == t.problems
  }

  predicate KeptKeys(t: Tables, t': Tables) {
    t'.keys == t.keys
  }

  /** The assignments after the job's open one has been closed, with some new ones behind them. */
  predicate Closed(t: Tables, t': Tables, job: nat, now: int, news: seq<Assignment>) {
    && |t'.assignments| == |t.assignments| + |news|
    && (forall a :: 0 <= a < |t.assignments| ==>
          t'.assignments[a] == if t.assignments[a].job == job && t.assignments[a].releasedAt.None?
                               then t.assignments[a].(releasedAt := Some(now)) else t.assignments[a])
    && forall a :: 0 <= a < |news| ==> t'.assignments[|t.assignments| + a] == news[a]
  }

  /** The one write every command ends with meets no order index while the job's activity does not rise. */
  lemma BumpOutcome(t: Tables, t1: Tables, at: Target, j: Job)
    requires Inv(t) && at.job < |t.jobs| && t1.jobs == t.jobs && j.order == t.jobs[at.job].order
    ensures (Active(j) ==> Active(t.jobs[at.job])) ==>
      Bump(t1, at.job, j, at.expected)
      == if t.jobs[at.job].version == at.expected then Ok(t1.(jobs := t.jobs[at.job := j.(version := at.expected + 1)]))
         else Rejected(VersionConflict)
  {
    if Active(j) ==> Active(t.jobs[at.job]) {
      IndexAdmitsSameOrder(t, at.job, j);
    }
  }

  // ------------------------------------------------------ creating and planning

  /** A delivery is created for a delivery order of the store without another one, with a usable draft. */
  lemma CreateSucceedsIff(t: Tables, o: OrderRef, d: JobDraft)
    requires Inv(t)
    ensures CreateDelivery(t, o, d).Ok?
      <==> && o.order < |t.orders| && t.orders[o.order].org == o.org && t.orders[o.order].store == o.store
           && t.orders[o.order].isDelivery
           && (forall i :: 0 <= i < |t.jobs| && t.jobs[i].order == o.order ==> t.jobs[i].status == Cancelled)
           && !Blank(d.addressLine) && d.windowStart <= d.windowEnd && d.fee >= 0
  {
    BlankIffTrimmedAway(d.addressLine);
    CreateMeetsNoIndex(t, o, d);
    if FindOrder(t, o.org, o.store, o.order).Some? {
      forall i | 0 <= i < |t.jobs| && t.jobs[i].order == o.order && Active(t.jobs[i])
        ensures FindActive(t, o.org, o.order).Some?
      {
        ActiveIsFound(t, o.org, o.store, o.order, i);
      }
      assert FindActive(t, o.org, o.order).Some? ==>
        exists i :: 0 <= i < |t.jobs| && t.jobs[i].order == o.order && Active(t.jobs[i]);
    }
  }

  /** The new job is a DRAFT as its caller drew it up, to be sent off the buffer before its window unless told otherwise. */
  lemma CreationWrites(t: Tables, o: OrderRef, d: JobDraft)
    requires CreateDelivery(t, o, d).Ok?
    ensures var t', dispatch := CreateDelivery(t, o, d).value,
                                if d.requiredDispatchAt.Some? then d.requiredDispatchAt.value
                                else d.windowStart - 60_000 * d.bufferMinutes;
      t' == t.(jobs := t.jobs + [Job(
        o.org, o.store, o.order, Draft, d.deliveryMethod, d.windowStart, d.windowEnd, Some(dispatch), d.fee,
        Trim(d.addressLine), None, NotRequested, None, d.externalReference, None, None, None, None, None, 1)])
  {
  }

  /** A draft or planned job takes a plan whose window is in order and whose fee, if given, is not negative. */
  lemma PlanSucceedsIff(t: Tables, at: Target, e: PlanEdit)
    requires Inv(t)
    ensures PlanDelivery(t, at, e).Ok?
      <==> && Seen(t, at) && t.jobs[at.job].status in {Draft, Planned} && (e.fee.Some? ==> e.fee.value >= 0)
           && var j := t.jobs[at.job];
              (if e.windowStart.Some? then e.windowStart.value else j.windowStart)
              <= (if e.windowEnd.Some? then e.windowEnd.value else j.windowEnd)
  {
    if at.job < |t.jobs| {
      BumpOutcome(t, t, at, Replanned(t.jobs[at.job], e));
    }
  }

  /**
   What a plan leaves: PLANNED, what was given as given, what was not as it was; but the dispatch time is
   drawn up anew from the window, unless the plan says what it is.
   */
  lemma PlanWrites(t: Tables, at: Target, e: PlanEdit)
    requires PlanDelivery(t, at, e).Ok?
    ensures Seen(t, at)
    ensures var t', j := PlanDelivery(t, at, e).value, t.jobs[at.job];
      && Rewrote(t, t', at.job, t'.jobs[at.job], 1) && KeptAssignments(t, t') && KeptProblems(t, t') && KeptKeys(t, t')
      && var j' := t'.jobs[at.job];
      && j'.status == Planned
      && j'.windowStart == (if e.windowStart.Some? then e.windowStart.value else j.windowStart)
      && j'.windowEnd == (if e.windowEnd.Some? then e.windowEnd.value else j.windowEnd)
      && j'.requiredDispatchAt == (if e.requiredDispatchAt.Some? then e.requiredDispatchAt.value
                                   else Some(j'.windowStart - 60_000 * e.bufferMinutes))
      && j'.deliveryMethod == (if e.deliveryMethod.Some? then e.deliveryMethod.value else j.deliveryMethod)
      && j'.fee == (if e.fee.Some? then e.fee.value else j.fee)
      && j'.externalReference == (if e.externalReference.Some? then e.externalReference.value else j.externalReference)
      && j'.addressLine == j.addressLine && j'.place == j.place && j'.geocoding == j.geocoding
      && j'.addressSource == j.addressSource && j'.courier == j.courier && j'.handedOverAt == j.handedOverAt
      && j'.departedAt == j.departedAt && j'.deliveredAt == j.deliveredAt && j'.cancelledAt == j.cancelledAt
      && SamePlace(j, j')
  {
  }

  // --------------------------------------------------------------- address

  lemma AddressSucceedsIff(t: Tables, at: Target, addressLine: string)
    requires Inv(t)
    ensures UpdateAddress(t, at, addressLine).Ok? <==> Seen(t, at) && t.jobs[at.job].status !in {Delivered, Cancelled}
    ensures UpdateAddress(t, at, addressLine).Ok? ==>
      var t', j := UpdateAddress(t, at, addressLine).value, t.jobs[at.job];
      && Rewrote(t, t', at.job, j.(addressLine := addressLine, place := None, geocoding := NotRequested,
                                   addressSource := Some(TypedIn)), 1)
      && KeptAssignments(t, t') && KeptProblems(t, t') && KeptKeys(t, t')
  {
    if at.job < |t.jobs| {
      BumpOutcome(t, t, at, t.jobs[at.job].(addressLine := addressLine, place := None, geocoding := NotRequested,
                                            addressSource := Some(TypedIn)));
    }
  }

  /** A lookup fails only with its service; an address it does not know leaves the coordinates and marks the attempt. */
  lemma GeocodeSucceedsIff(t: Tables, at: Target, answer: GeocoderAnswer)
    requires Inv(t)
    ensures Geocode(t, at, answer).Ok? <==> Seen(t, at) && answer != Unavailable
    ensures Geocode(t, at, answer).Ok? ==>
      var t', j := Geocode(t, at, answer).value, t.jobs[at.job];
      && Rewrote(t, t', at.job, match answer
                                case Found(place) => j.(place := Some(place), geocoding := Resolved, addressSource := Some(Geocoded))
                                case _ => j.(geocoding := Failed), 2)
      && KeptAssignments(t, t') && KeptProblems(t, t') && KeptKeys(t, t')
  {
    if at.job < |t.jobs| {
      IndexAdmitsSameOrder(t, at.job, t.jobs[at.job]);
      if Geocode(t, at, answer).Ok? {
        GeocodeEffect(t, at, answer);
      }
    }
  }

  lemma PinSucceedsIff(t: Tables, at: Target, place: Place)
    requires Inv(t)
    ensures SetCoordinates(t, at, place).Ok? <==> Seen(t, at)
    ensures SetCoordinates(t, at, place).Ok? ==>
      var t', j := SetCoordinates(t, at, place).value, t.jobs[at.job];
      && Rewrote(t, t', at.job, j.(place := Some(place), geocoding := Manual, addressSource := Some(UserPin)), 1)
      && KeptAssignments(t, t') && KeptProblems(t, t') && KeptKeys(t, t')
  {
    if at.job < |t.jobs| {
      BumpOutcome(t, t, at, t.jobs[at.job].(place := Some(place), geocoding := Manual, addressSource := Some(UserPin)));
    }
  }

  // -------------------------------------------------------------- couriers

  /** At most one open assignment belongs to a job, so closing the first one found closes them all. */
  lemma ReleaseCloses(t: Tables, job: nat, now: int)
    requires Inv(t) && job < |t.jobs|
    ensures var t' := ReleaseActiveAssignment(t, t.jobs[job].org, job, now);
      t' == t.(assignments := t'.assignments) && Closed(t, t', job, now, [])
  {
    assert JobInv(t, job);
    forall a | 0 <= a < |t.assignments| && OpenFor(job)(t.assignments[a])
      ensures FindFirst(t.assignments, OpenIn(t.jobs[job].org, job)) == Some(a)
    {
      assert OpenIn(t.jobs[job].org, job)(t.assignments[a]);
      var f := FindFirst(t.assignments, OpenIn(t.jobs[job].org, job));
      assert OpenFor(job)(t.assignments[f.value]);
    }
  }

  /**
   A courier can be put on a job that is DRAFT, PLANNED, READY_FOR_DISPATCH or ASSIGNED, and only an active
   courier of the organization.
   */
  lemma AssignSucceedsIff(t: Tables, at: Target, courier: nat, now: int)
    requires Inv(t)
    ensures AssignCourier(t, at, courier, now).Ok?
      <==> && Seen(t, at) && t.jobs[at.job].status in {Draft, Planned, ReadyForDispatch, Assigned}
           && courier < |t.couriers| && t.couriers[courier].org == at.org && t.couriers[courier].status == ActiveCourier
  {
    if RequireJob(t, at.org, at.store, at.job).Ok? {
      var j := t.jobs[at.job];
      NothingOpenAfterRelease(t, at.job, now);
      if j.status != Cancelled {
        IndexAdmitsSameOrder(t, at.job, j.(courier := Some(courier), status := StatusAfterAssign(j.status)));
      }
    }
  }

  /** A job that was ready stays READY_FOR_DISPATCH, any other becomes ASSIGNED; the courier before is released. */
  lemma AssignmentWrites(t: Tables, at: Target, courier: nat, now: int)
    requires Inv(t) && AssignCourier(t, at, courier, now).Ok?
    ensures Seen(t, at)
    ensures var t', j := AssignCourier(t, at, courier, now).value, t.jobs[at.job];
      && Rewrote(t, t', at.job, j.(courier := Some(courier), status := if j.status == ReadyForDispatch then ReadyForDispatch else Assigned), 1)
      && Closed(t, t', at.job, now, [Assignment(at.org, at.job, courier, now, None)])
      && KeptProblems(t, t') && KeptKeys(t, t')
  {
    ReleaseCloses(t, at.job, now);
  }

  lemma ReleaseSucceedsIff(t: Tables, at: Target, now: int)
    requires Inv(t)
    ensures ReleaseCourier(t, at, now).Ok? <==> Seen(t, at)
    ensures ReleaseCourier(t, at, now).Ok? ==>
      var t', j := ReleaseCourier(t, at, now).value, t.jobs[at.job];
      && Rewrote(t, t', at.job, j.(courier := None, status := if j.status == Assigned then Planned else j.status), 1)
      && Closed(t, t', at.job, now, []) && KeptProblems(t, t') && KeptKeys(t, t')
  {
    if RequireJob(t, at.org, at.store, at.job).Ok? {
      var j := t.jobs[at.job];
      ReleaseCloses(t, at.job, now);
      BumpOutcome(t, ReleaseActiveAssignment(t, at.org, at.job, now), at,
                  j.(courier := None, status := if j.status.Assigned? then Planned else j.status));
    }
  }

  // -------------------------------------------------------------- dispatch

  /** A job becomes READY_FOR_DISPATCH when its order is ready and it is planned, assigned or ready already. */
  lemma MarkReadySucceedsIff(t: Tables, at: Target)
    requires Inv(t)
    ensures MarkReadyForDispatch(t, at).Ok?
      <==> && Seen(t, at) && t.jobs[at.job].status in {Planned, Assigned, ReadyForDispatch}
           && t.jobs[at.job].order < |t.orders| && t.orders[t.jobs[at.job].order].isReady
    ensures MarkReadyForDispatch(t, at).Ok? ==>
      var t' := MarkReadyForDispatch(t, at).value;
      && Rewrote(t, t', at.job, t.jobs[at.job].(status := ReadyForDispatch), 1)
      && KeptAssignments(t, t') && KeptProblems(t, t') && KeptKeys(t, t')
  {
    if at.job < |t.jobs| {
      assert JobInv(t, at.job);
      BumpOutcome(t, t, at, t.jobs[at.job].(status := ReadyForDispatch));
    }
  }

  /** A handover only stamps the job: it is allowed from READY_FOR_DISPATCH or ASSIGNED, once the order is ready. */
  lemma HandoverSucceedsIff(t: Tables, at: Target, now: int)
    requires Inv(t)
    ensures Handover(t, at, now).Ok?
      <==> && Seen(t, at) && t.jobs[at.job].status in {ReadyForDispatch, Assigned}
           && t.jobs[at.job].order < |t.orders| && t.orders[t.jobs[at.job].order].isReady
    ensures Handover(t, at, now).Ok? ==>
      var t' := Handover(t, at, now).value;
      && Rewrote(t, t', at.job, t.jobs[at.job].(handedOverAt := Some(now)), 1)
      && KeptAssignments(t, t') && KeptProblems(t, t') && KeptKeys(t, t')
  {
    if at.job < |t.jobs| {
      assert JobInv(t, at.job);
      BumpOutcome(t, t, at, t.jobs[at.job].(handedOverAt := Some(now)));
    }
  }

  /**
   A ready, assigned or departed job can depart; by taxi or another service it needs a courier or a reference
   of that service. A handover that was not recorded is recorded with it, one that was keeps its time.
   */
  lemma DepartSucceedsIff(t: Tables, at: Target, now: int)
    requires Inv(t)
    ensures StartTransit(t, at, now).Ok?
      <==> && Seen(t, at) && t.jobs[at.job].status in {ReadyForDispatch, Assigned, InTransit}
           && var j := t.jobs[at.job];
              j.deliveryMethod == OwnCourier || j.courier.Some? || (j.externalReference.Some? && j.externalReference.value != "")
    ensures StartTransit(t, at, now).Ok? ==>
      var t', j := StartTransit(t, at, now).value, t.jobs[at.job];
      && Rewrote(t, t', at.job, j.(status := InTransit, departedAt := Some(now),
                                   handedOverAt := if j.handedOverAt.Some? then j.handedOverAt else Some(now)), 1)
      && KeptAssignments(t, t') && KeptProblems(t, t') && KeptKeys(t, t')
  {
    if at.job < |t.jobs| {
      var j := t.jobs[at.job];
      CourierIffOpen(t, at.job);
      BumpOutcome(t, t, at, j.(status := InTransit, departedAt := Some(now), handedOverAt := Some(OrElse(j.handedOverAt, now))));
    }
  }

  lemma CourierIffOpen(t: Tables, job: nat)
    requires Inv(t) && job < |t.jobs|
    ensures FindFirst(t.assignments, OpenIn(t.jobs[job].org, job)).Some? <==> t.jobs[job].courier.Some?
  {
    assert JobInv(t, job);
    var f := FindFirst(t.assignments, OpenIn(t.jobs[job].org, job));
    if f.Some? {
      assert OpenFor(job)(t.assignments[f.value]);
    }
    if t.jobs[job].courier.Some? {
      var a :| 0 <= a < |t.assignments| && OnlyOpen(t.assignments, job, a);
      assert OpenIn(t.jobs[job].org, job)(t.assignments[a]);
    }
  }

  // ------------------------------------------------- delivered and cancelled

  /** The key is free, or was bound to this document before. */
  predicate KeyTakes(t: Tables, k: IdempotencyKey, document: nat) {
    k in t.keys ==> t.keys[k] == document
  }

  predicate Located(t: Tables, at: Target) {
    at.job < |t.jobs| && t.jobs[at.job].org == at.org && t.jobs[at.job].store == at.store
  }

  /**
   A delivery is completed from IN_TRANSIT or PROBLEM, at the version named; a repeated key whose job is
   DELIVERED is answered again without a look at the version.
   */
  lemma DeliverSucceedsIff(t: Tables, at: Target, key: string, now: int)
    requires Inv(t)
    ensures var k := IdempotencyKey(at.org, DeliverKey, Trim(key));
      MarkDelivered(t, at, key, now).Ok?
      <==> && !Blank(key) && Located(t, at) && KeyTakes(t, k, at.job)
           && (if k in t.keys && t.jobs[at.job].status == Delivered then true
               else t.jobs[at.job].status in {InTransit, Problem} && t.jobs[at.job].version == at.expected)
  {
    BlankIffTrimmedAway(key);
    if at.job < |t.jobs| {
      var k := IdempotencyKey(at.org, DeliverKey, Trim(key));
      BumpOutcome(t, t, at, t.jobs[at.job].(status := Delivered, deliveredAt := Some(now)));
      BumpOutcome(t, t.(keys := t.keys[k := at.job]), at, t.jobs[at.job].(status := Delivered, deliveredAt := Some(now)));
    }
  }

  lemma DeliveryWrites(t: Tables, at: Target, key: string, now: int)
    requires MarkDelivered(t, at, key, now).Ok?
    ensures at.job < |t.jobs|
    ensures var t', k := MarkDelivered(t, at, key, now).value, IdempotencyKey(at.org, DeliverKey, Trim(key));
      if k in t.keys && t.jobs[at.job].status == Delivered then t' == t
      else && Rewrote(t, t', at.job, t.jobs[at.job].(status := Delivered, deliveredAt := Some(now)), 1)
           && KeptAssignments(t, t') && KeptProblems(t, t') && t'.keys == t.keys[k := at.job]
  {
  }

  /** Any job that is not DELIVERED or CANCELLED can be cancelled, and gives up its courier. */
  lemma CancellationSucceedsIff(t: Tables, at: Target, key: string, now: int)
    ensures var k := IdempotencyKey(at.org, CancelKey, Trim(key));
      CancelDelivery(t, at, key, now).Ok?
      <==> && !Blank(key) && Located(t, at) && KeyTakes(t, k, at.job)
           && (if k in t.keys && t.jobs[at.job].status == Cancelled then true
               else t.jobs[at.job].status !in {Delivered, Cancelled} && t.jobs[at.job].version == at.expected)
  {
    BlankIffTrimmedAway(key);
  }

  lemma CancellationWrites(t: Tables, at: Target, key: string, now: int)
    requires Inv(t) && CancelDelivery(t, at, key, now).Ok?
    ensures at.job < |t.jobs|
    ensures var t', k := CancelDelivery(t, at, key, now).value, IdempotencyKey(at.org, CancelKey, Trim(key));
      if k in t.keys && t.jobs[at.job].status == Cancelled then t' == t
      else && Rewrote(t, t', at.job, t.jobs[at.job].(status := Cancelled, cancelledAt := Some(now), courier := None), 1)
           && Closed(t, t', at.job, now, []) && KeptProblems(t, t') && t'.keys == t.keys[k := at.job]
  {
    var k := IdempotencyKey(at.org, CancelKey, Trim(key));
    var claimed := t.(keys := t.keys[k := at.job]);
    ClaimKeepsInv(t, claimed.keys);
    ReleaseCloses(t, at.job, now);
    ReleaseCloses(claimed, at.job, now);
    assert k in t.keys ==> claimed == t;
  }

  // -------------------------------------------------------------- problems

  /** A problem is reported on a planned, ready, assigned or departed job, and recorded as open. */
  lemma ReportSucceedsIff(t: Tables, at: Target, now: int)
    requires Inv(t)
    ensures ReportProblem(t, at, now).Ok?
      <==> Seen(t, at) && t.jobs[at.job].status in {Planned, ReadyForDispatch, Assigned, InTransit}
    ensures ReportProblem(t, at, now).Ok? ==>
      var t' := ReportProblem(t, at, now).value;
      && Rewrote(t, t', at.job, t.jobs[at.job].(status := Problem), 1)
      && t'.problems == t.problems + [ProblemRecord(at.org, at.job, now, OpenProblem, None, None)]
      && KeptAssignments(t, t') && KeptKeys(t, t')
  {
    if at.job < |t.jobs| {
      var t1 := t.(problems := t.problems + [ProblemRecord(at.org, at.job, now, OpenProblem, None, None)]);
      BumpOutcome(t, t1, at, t.jobs[at.job].(status := Problem));
    }
  }

  /** The record of a problem, found under its organization and job. */
  predicate Recorded(t: Tables, at: Target, problem: nat) {
    problem < |t.problems| && t.problems[problem].org == at.org && t.problems[problem].job == at.job
  }

  /**
   A resolution asks nothing of the job's own status, and of the problem's only for a repeated key: any job of
   the store that has the record goes to the target named, unless that revives it beside another delivery.
   */
  lemma ResolveSucceedsIff(t: Tables, at: Target, problem: nat, resolveTo: Status, key: string, now: int)
    requires Inv(t)
    ensures var k := IdempotencyKey(at.org, ResolveProblemKey, Trim(key));
      ResolveProblem(t, at, problem, resolveTo, key, now).Ok?
      <==> && !Blank(key) && Located(t, at) && KeyTakes(t, k, problem) && Recorded(t, at, problem)
           && (if k in t.keys && t.problems[problem].status == ResolvedProblem then true
               else && resolveTo in {Planned, Assigned, InTransit, Delivered, Cancelled}
                    && t.jobs[at.job].version == at.expected
                    && (resolveTo != Cancelled && t.jobs[at.job].status == Cancelled ==>
                          forall i :: 0 <= i < |t.jobs| && i != at.job && t.jobs[i].order == t.jobs[at.job].order ==>
                            t.jobs[i].status == Cancelled))
  {
    BlankIffTrimmedAway(key);
    if Located(t, at) {
      RevivalMeetsIndexIff(t, at.job, AfterResolution(t.jobs[at.job], resolveTo, now));
    }
  }

  lemma RevivalMeetsIndexIff(t: Tables, job: nat, j: Job)
    requires Inv(t) && job < |t.jobs| && j.order == t.jobs[job].order
    ensures IndexAdmits(t.jobs, job, j)
      <==> (j.status != Cancelled && t.jobs[job].status == Cancelled ==>
              forall i :: 0 <= i < |t.jobs| && i != job && t.jobs[i].order == t.jobs[job].order ==> t.jobs[i].status == Cancelled)
  {
    if j.status != Cancelled && t.jobs[job].status == Cancelled {
      assert forall i :: 0 <= i < |t.jobs| ==> (Active(t.jobs[i]) <==> t.jobs[i].status != Cancelled);
    }
  }

  lemma ResolutionWrites(t: Tables, at: Target, problem: nat, resolveTo: Status, key: string, now: int)
    requires ResolveProblem(t, at, problem, resolveTo, key, now).Ok?
    ensures at.job < |t.jobs| && problem < |t.problems|
    ensures var t', k := ResolveProblem(t, at, problem, resolveTo, key, now).value, IdempotencyKey(at.org, ResolveProblemKey, Trim(key));
      var j, p := t.jobs[at.job], t.problems[problem];
      if k in t.keys && p.status == ResolvedProblem then t' == t
      else && Rewrote(t, t', at.job, j.(status := resolveTo,
                                        deliveredAt := if resolveTo == Delivered then Some(now) else j.deliveredAt,
                                        cancelledAt := if resolveTo == Cancelled then Some(now) else j.cancelledAt), 1)
           && t'.problems == t.problems[problem := ProblemRecord(p.org, p.job, p.reportedAt, ResolvedProblem, Some(resolveTo), Some(now))]
           && KeptAssignments(t, t') && t'.keys == t.keys[k := problem]
  {
  }

  // ------------------------------------------- calls from the order module

  /** When its order is marked ready, the order's delivery follows if it is planned or assigned. */
  lemma ReadyOutcome(t: Tables, o: OrderRef, nested: bool, i: nat)
    requires Inv(t) && i < |t.jobs| && t.jobs[i].order == o.order && t.jobs[i].status != Cancelled && t.jobs[i].org == o.org
    ensures var r, j := OrderMarkedReady(t, o, nested), t.jobs[i];
      if j.store != o.store || j.status !in {Planned, Assigned} then r == Outcome(t, None)
      else if nested then r == Outcome(t, Some(NestedTransaction))
      else && r.error == None && Rewrote(t, r.tables, i, j.(status := ReadyForDispatch), 1)
           && KeptAssignments(t, r.tables) && KeptProblems(t, r.tables) && KeptKeys(t, r.tables)
  {
    assert JobInv(t, i);
    ActiveIsFound(t, o.org, t.jobs[i].store, o.order, i);
    BumpOutcome(t, t, Target(o.org, o.store, i, t.jobs[i].version), t.jobs[i].(status := ReadyForDispatch));
  }

  /** Without a delivery of its own an order marked ready, or switched to pickup, changes nothing. */
  lemma NothingToFollow(t: Tables, o: OrderRef, nested: bool, now: int)
    requires forall i :: 0 <= i < |t.jobs| && t.jobs[i].order == o.order && t.jobs[i].org == o.org ==> t.jobs[i].status == Cancelled
    ensures OrderMarkedReady(t, o, nested) == SwitchToPickup(t, o, nested, now) == Outcome(t, None)
  {
  }

  /** An order that has its delivery is not given another. */
  lemma EnsureKeepsTheOneThereIs(t: Tables, o: OrderRef, r: DeliveryRequest, nested: bool, now: int, i: nat)
    requires i < |t.jobs| && t.jobs[i].order == o.order && t.jobs[i].status != Cancelled && t.jobs[i].org == o.org
    ensures EnsureDelivery(t, o, r, nested, now) == Outcome(t, None)
  {
    assert ActiveFor(o.org, o.order)(t.jobs[i]);
  }

  /** What a switch to pickup writes: the order's delivery cancelled, its courier released. */
  lemma PickupWrites(t: Tables, o: OrderRef, nested: bool, now: int, i: nat)
    requires Inv(t) && i < |t.jobs| && t.jobs[i].order == o.order && t.jobs[i].status != Cancelled && t.jobs[i].org == o.org
    requires t.jobs[i].store == o.store && SwitchToPickup(t, o, nested, now).error.None?
    ensures var t' := SwitchToPickup(t, o, nested, now).tables;
      && Rewrote(t, t', i, t.jobs[i].(status := Cancelled, cancelledAt := Some(now), courier := None), 1)
      && Closed(t, t', i, now, []) && KeptProblems(t, t')
  {
    assert JobInv(t, i);
    ActiveIsFound(t, o.org, o.store, o.order, i);
    CancellationWrites(t, Target(o.org, o.store, i, t.jobs[i].version), PickupKey(i, t.jobs[i].version), now);
  }

  /** The job made for an order before its address is looked up. */
  function PlannedFor(o: OrderRef, r: DeliveryRequest, now: int): Job {
    var ready := if r.readyAt.Some? then r.readyAt.value else now;
    Job(o.org, o.store, o.order, Planned, OwnCourier, ready, ready + 7_200_000, Some(ready - 60_000 * r.bufferMinutes), 0,
        Trim(r.addressLine), None, NotRequested, None, None, None, None, None, None, None, 2)
  }

  lemma FirstTwoCommit(t: Tables, o: OrderRef, r: DeliveryRequest, now: int)
    requires Inv(t) && CreateDelivery(t, o, DraftFor(r, now)).Ok?
    ensures var planned := PlanDelivery(CreateDelivery(t, o, DraftFor(r, now)).value, Target(o.org, o.store, |t.jobs|, 1),
                                        NoEdit(r.bufferMinutes));
      planned.Ok? && planned.value == t.(jobs := t.jobs + [PlannedFor(o, r, now)]) && Inv(planned.value)
  {
    var d := DraftFor(r, now);
    CreateKeepsInv(t, o, d);
    NewJobIsPlanned(t, o, d);
    PlanKeepsInv(CreateDelivery(t, o, d).value, Target(o.org, o.store, |t.jobs|, 1), NoEdit(r.bufferMinutes));
  }

  /**
   The delivery made for an order: by the shop's own courier, free of charge, in the two hours from when the
   order is ready, to be sent off the buffer before; with the coordinates of its address if the lookup knew them.
   */
  lemma EnsureWrites(t: Tables, o: OrderRef, r: DeliveryRequest, now: int)
    requires Inv(t) && FindActive(t, o.org, o.order).None? && EnsureDelivery(t, o, r, false, now).error.None?
    ensures var j := PlannedFor(o, r, now);
      EnsureDelivery(t, o, r, false, now).tables
      == t.(jobs := t.jobs + [match r.answer
                              case Found(place) => j.(place := Some(place), geocoding := Resolved, addressSource := Some(Geocoded), version := 4)
                              case NotFound => j.(geocoding := Failed, version := 4)
                              case Unavailable => j])
  {
    hide CreateDelivery, PlanDelivery, Geocode, Inv;
    FirstTwoCommit(t, o, r, now);
    var planned := t.(jobs := t.jobs + [PlannedFor(o, r, now)]);
    var at := Target(o.org, o.store, |t.jobs|, 2);
    GeocodeSucceedsIff(planned, at, r.answer);
    if r.answer != Unavailable {
      GeocodeEffect(planned, at, r.answer);
    }
  }

  // -------------------------------------------------------- courier profiles

  lemma ProfileSucceedsIff(t: Tables, org: nat, membership: nat)
    ensures CreateCourier(t, org, membership).Ok?
      <==> forall c :: 0 <= c < |t.couriers| ==> !(t.couriers[c].org == org && t.couriers[c].membership == membership)
    ensures CreateCourier(t, org, membership).Ok? ==>
      CreateCourier(t, org, membership).value == t.(couriers := t.couriers + [Courier(org, membership, ActiveCourier)])
  {
    assert forall c :: 0 <= c < |t.couriers| ==>
      (OfMembership(org, membership)(t.couriers[c]) <==> t.couriers[c].org == org && t.couriers[c].membership == membership);
  }

  lemma ArchiveSucceedsIff(t: Tables, org: nat, courier: nat)
    ensures ArchiveCourier(t, org, courier).Ok? <==> courier < |t.couriers| && t.couriers[courier].org == org
    ensures ArchiveCourier(t, org, courier).Ok? ==>
      var c := t.couriers[courier];
      ArchiveCourier(t, org, courier).value == t.(couriers := t.couriers[courier := Courier(c.org, c.membership, ArchivedCourier)])
  {
  }

  /** A membership has at most one courier profile. */
  predicate OneProfile(t: Tables) {
    forall x, y :: 0 <= x < y < |t.couriers| ==>
      !(t.couriers[x].org == t.couriers[y].org && t.couriers[x].membership == t.couriers[y].membership)
  }

  /**
   A sync always goes through. Where the membership has its profile, a COURIER gets an archived one back as
   ACTIVE and keeps an inactive one as it is, and anybody else has it archived; where it has none, only a
   COURIER gets one.
   */
  lemma SyncOutcome(t: Tables, org: nat, membership: nat, isCourier: bool)
    requires OneProfile(t)
    ensures SyncCourier(t, org, membership, isCourier).Ok?
    ensures var t' := SyncCourier(t, org, membership, isCourier).value;
      && t' == t.(couriers := t'.couriers) && |t.couriers| <= |t'.couriers| && OneProfile(t')
      && (forall c :: 0 <= c < |t.couriers| ==>
            var p := t.couriers[c];
            t'.couriers[c] == if p.org != org || p.membership != membership then p
                              else if !isCourier then p.(status := ArchivedCourier)
                              else if p.status == ArchivedCourier then p.(status := ActiveCourier) else p)
      && t'.couriers[|t.couriers|..]
         == if isCourier && forall c :: 0 <= c < |t.couriers| ==> !(t.couriers[c].org == org && t.couriers[c].membership == membership)
            then [Courier(org, membership, ActiveCourier)] else []
  {
    var found := FindFirst(t.couriers, OfMembership(org, membership));
    assert forall c :: 0 <= c < |t.couriers| ==>
      (OfMembership(org, membership)(t.couriers[c]) <==> t.couriers[c].org == org && t.couriers[c].membership == membership);
    if found.Some? {
      assert forall c :: 0 <= c < |t.couriers| && OfMembership(org, membership)(t.couriers[c]) ==> c == found.value;
    }
  }
}
