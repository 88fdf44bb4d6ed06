/** One active delivery per order, and the switch between pickup and delivery. */
module DeliveryFulfilment {
  import opened Wrappers
  import opened Sequences
  import opened Text
  import opened DeliveryRules
  import opened DeliveryTables
  import opened DeliveryInvariant
  import opened DeliveryCommands
  import opened DeliveryCommandProofs
  import opened DeliveryRuns
  import opened DeliveryHistory

  // ------------------------------------------- who meets the unique indexes

  /** The write of a row that is active already, or stays inactive, never meets the order index. */
  lemma IndexAdmitsSameOrder(t: Tables, i: nat, j: Job)
    requires Inv(t) && i < |t.jobs| && j.order == t.jobs[i].order && (Active(j) ==> Active(t.jobs[i]))
    ensures IndexAdmits(t.jobs, i, j)
  {
  }

  /** An order's active job is found under the organization asking: orders and jobs agree on it. */
  lemma ActiveIsFound(t: Tables, org: nat, store: nat, order: nat, i: nat)
    requires Inv(t) && i < |t.jobs| && Active(t.jobs[i]) && t.jobs[i].order == order
    requires FindOrder(t, org, store, order).Some?
    ensures FindActive(t, org, order) == Some(i) && t.jobs[i].store == store
  {
    assert JobInv(t, i);
    assert ActiveFor(org, order)(t.jobs[i]);
  }

  lemma CreateMeetsNoIndex(t: Tables, o: OrderRef, d: JobDraft)
    requires Inv(t)
    ensures CreateDelivery(t, o, d) != Rejected(ConstraintViolation)
  {
    if CreateDelivery(t, o, d) == Rejected(ConstraintViolation) {
      var x :| 0 <= x < |t.jobs| && Active(t.jobs[x]) && t.jobs[x].order == o.order;
      ActiveIsFound(t, o.org, o.store, o.order, x);
    }
  }

  /** A job's only open assignment released, there is room for the next. */
  lemma NothingOpenAfterRelease(t: Tables, i: nat, now: int)
    requires Inv(t) && i < |t.jobs|
    ensures FindFirst(ReleaseActiveAssignment(t, t.jobs[i].org, i, now).assignments, OpenFor(i)).None?
  {
    assert JobInv(t, i);
    ReleaseUnlinks(t, i, now);
  }

  lemma AssignMeetsNoIndex(t: Tables, at: Target, courier: nat, now: int)
    requires Inv(t)
    ensures AssignCourier(t, at, courier, now) != Rejected(ConstraintViolation)
  {
    if RequireJob(t, at.org, at.store, at.job).Ok? {
      NothingOpenAfterRelease(t, at.job, now);
      IndexAdmitsSameOrder(t, at.job, t.jobs[at.job]);
    }
  }

  lemma CancelMeetsNoIndex(t: Tables, at: Target, key: string, now: int)
    ensures CancelDelivery(t, at, key, now) != Rejected(ConstraintViolation)
  {
  }

  lemma GeocodeMeetsNoIndex(t: Tables, at: Target, answer: GeocoderAnswer)
    requires Inv(t)
    ensures Geocode(t, at, answer) != Rejected(ConstraintViolation)
  {
    if at.job < |t.jobs| {
      IndexAdmitsSameOrder(t, at.job, t.jobs[at.job]);
    }
  }

  lemma PlanningMeetsNoIndex(t: Tables, c: Command)
    requires Inv(t) && (c.Plan? || c.ChangeAddress? || c.PlacePin? || c.Unassign?)
    ensures Execute(t, c).error != Some(ConstraintViolation)
  {
    if c.at.job < |t.jobs| {
      IndexAdmitsSameOrder(t, c.at.job, t.jobs[c.at.job]);
    }
  }

  lemma DispatchMeetsNoIndex(t: Tables, c: Command)
    requires Inv(t) && (c.MarkReady? || c.HandOver? || c.Depart? || c.Deliver? || c.Report?)
    ensures Execute(t, c).error != Some(ConstraintViolation)
  {
    if c.at.job < |t.jobs| {
      IndexAdmitsSameOrder(t, c.at.job, t.jobs[c.at.job]);
    }
  }

  lemma MarkedReadyMeetsNoIndex(t: Tables, o: OrderRef, nested: bool)
    requires Inv(t)
    ensures OrderMarkedReady(t, o, nested).error != Some(ConstraintViolation)
  {
    var found := FindActive(t, o.org, o.order);
    if found.Some? {
      IndexAdmitsSameOrder(t, found.value, t.jobs[found.value].(status := ReadyForDispatch));
    }
  }

  lemma PickupMeetsNoIndex(t: Tables, o: OrderRef, nested: bool, now: int)
    ensures SwitchToPickup(t, o, nested, now).error != Some(ConstraintViolation)
  {
    var found := FindActive(t, o.org, o.order);
    if found.Some? {
      var i := found.value;
      var at, key := Target(o.org, o.store, i, t.jobs[i].version), PickupKey(i, t.jobs[i].version);
      CancelMeetsNoIndex(t, at, key, now);
    }
  }

  /** The job just created is always planned. */
  lemma NewJobIsPlanned(t: Tables, o: OrderRef, d: JobDraft)
    requires Inv(t) && CreateDelivery(t, o, d).Ok?
    ensures var t1, n := CreateDelivery(t, o, d).value, |t.jobs|;
      var planned := PlanDelivery(t1, Target(o.org, o.store, n, 1), NoEdit(d.bufferMinutes));
      && planned.Ok?
      && planned.value.jobs == t.jobs + [Replanned(NewJob(o, d), NoEdit(d.bufferMinutes)).(version := 2)]
  {
    var t1, n := CreateDelivery(t, o, d).value, |t.jobs|;
    CreateKeepsInv(t, o, d);
    IndexAdmitsSameOrder(t1, n, Replanned(NewJob(o, d), NoEdit(d.bufferMinutes)));
  }

  lemma EnsureMeetsNoIndex(t: Tables, o: OrderRef, r: DeliveryRequest, nested: bool, now: int)
    requires Inv(t)
    ensures EnsureDelivery(t, o, r, nested, now).error != Some(ConstraintViolation)
  {
    CreateMeetsNoIndex(t, o, DraftFor(r, now));
    if CreateDelivery(t, o, DraftFor(r, now)).Ok? {
      NewJobIsPlanned(t, o, DraftFor(r, now));
    }
  }

  lemma MeetsNoIndex(t: Tables, c: Command)
    requires Inv(t) && !c.AddCourierProfile? && !c.Resolve?
    ensures Execute(t, c).error != Some(ConstraintViolation)
  {
    hide Inv, EnsureDelivery, SwitchToPickup, OrderMarkedReady, CreateDelivery, CancelDelivery, Geocode, AssignCourier;
    match c
    case Create(o, d) => CreateMeetsNoIndex(t, o, d);
    case Assign(at, courier, now) => AssignMeetsNoIndex(t, at, courier, now);
    case Cancel(at, key, now) => CancelMeetsNoIndex(t, at, key, now);
    case Locate(at, answer) => GeocodeMeetsNoIndex(t, at, answer);
    case OrderReady(o, nested) => MarkedReadyMeetsNoIndex(t, o, nested);
    case Ensure(o, r, nested, now) => EnsureMeetsNoIndex(t, o, r, nested, now);
    case SwitchType(o, _, _, r, nested, now) =>
      PickupMeetsNoIndex(t, o, nested, now);
      EnsureMeetsNoIndex(t, o, r, nested, now);
    case _ =>
      if c.Plan? || c.ChangeAddress? || c.PlacePin? || c.Unassign? {
        PlanningMeetsNoIndex(t, c);
      } else if TargetOf(c).Some? {
        DispatchMeetsNoIndex(t, c);
      }
  }

  /** A membership has a courier profile in the organization. */
  predicate HasProfile(t: Tables, org: nat, membership: nat) {
    exists x :: 0 <= x < |t.couriers| && t.couriers[x].org == org && t.couriers[x].membership == membership
  }

  lemma SecondProfileIsRefused(t: Tables, org: nat, membership: nat)
    ensures CreateCourier(t, org, membership) == Rejected(ConstraintViolation) <==> HasProfile(t, org, membership)
  {
    var found := FindFirst(t.couriers, OfMembership(org, membership));
    assert forall x :: 0 <= x < |t.couriers| ==>
      (OfMembership(org, membership)(t.couriers[x]) <==> t.couriers[x].org == org && t.couriers[x].membership == membership);
  }

  /**
   The application keeps one active job per order and one open assignment per job by itself: in a reachable
   state the database indexes refuse only a second courier profile for a membership, and a resolution that
   revives a cancelled job whose order has been given another delivery.
   */
  lemma IndexRefusesIff(t: Tables, c: Command)
    requires Inv(t)
    ensures Execute(t, c).error == Some(ConstraintViolation)
      <==> || (c.AddCourierProfile? && HasProfile(t, c.org, c.membership))
           || (&& c.Resolve? && ResolutionReachesJob(t, c)
               && t.jobs[c.at.job].status.Cancelled? && !c.resolveTo.Cancelled? && OtherActive(t.jobs, c.at.job))
  {
    if c.Resolve? {
      ResolutionOutcome(t, c);
    } else if c.AddCourierProfile? {
      SecondProfileIsRefused(t, c.org, c.membership);
    } else {
      MeetsNoIndex(t, c);
    }
  }

  // ------------------------------------------------------ pickup and back

  /** The active jobs of an order, seen from the organization that owns it. */
  predicate NoneActive(t: Tables, order: nat) {
    forall i :: 0 <= i < |t.jobs| && t.jobs[i].order == order ==> t.jobs[i].status.Cancelled?
  }

  predicate OnlyActive(t: Tables, order: nat, i: nat) {
    && i < |t.jobs| && t.jobs[i].order == order && Active(t.jobs[i])
    && forall x :: 0 <= x < |t.jobs| && x != i && t.jobs[x].order == order ==> t.jobs[x].status.Cancelled?
  }

  /** The switch to pickup succeeds exactly when nothing is under way, or what is can still be called off. */
  lemma PickupSucceedsIff(t: Tables, o: OrderRef, nested: bool, now: int)
    requires Inv(t) && FindOrder(t, o.org, o.store, o.order).Some?
    ensures SwitchToPickup(t, o, nested, now).error.None?
      <==> match FindActive(t, o.org, o.order)
           case None => true
           case Some(i) =>
             var j, k := t.jobs[i], IdempotencyKey(o.org, CancelKey, Trim(PickupKey(i, t.jobs[i].version)));
             && j.handedOverAt.None? && !j.status.InTransit? && !j.status.Delivered?
             && !nested && (k in t.keys ==> t.keys[k] == i)
  {
    var found := FindActive(t, o.org, o.order);
    if found.Some? {
      var i := found.value;
      assert JobInv(t, i);
      PickupKeyIsNotBlank(i, t.jobs[i].version);
      if !t.jobs[i].status.Delivered? {
        CancelSucceedsIff(t, i, PickupKey(i, t.jobs[i].version), now);
      }
    }
  }

  lemma CancelSucceedsIff(t: Tables, i: nat, key: string, now: int)
    requires i < |t.jobs| && Trim(key) != "" && !Terminal(t.jobs[i].status)
    ensures var j := t.jobs[i];
      var k := IdempotencyKey(j.org, CancelKey, Trim(key));
      CancelDelivery(t, Target(j.org, j.store, i, j.version), key, now).Ok? <==> (k in t.keys ==> t.keys[k] == i)
  {
  }

  lemma PickupKeyIsNotBlank(job: nat, version: nat)
    ensures Trim(PickupKey(job, version)) != ""
  {
    TrimNonBlank(PickupKey(job, version));
  }

  /** After a successful switch to pickup the order has no delivery that is not cancelled. */
  lemma PickupLeavesNoDelivery(t: Tables, o: OrderRef, nested: bool, now: int)
    requires Inv(t) && FindOrder(t, o.org, o.store, o.order).Some?
    requires SwitchToPickup(t, o, nested, now).error.None?
    ensures NoneActive(SwitchToPickup(t, o, nested, now).tables, o.order)
  {
    var found := FindActive(t, o.org, o.order);
    forall i | 0 <= i < |t.jobs| && t.jobs[i].order == o.order && Active(t.jobs[i]) ensures found == Some(i) {
      ActiveIsFound(t, o.org, o.store, o.order, i);
    }
    if found.Some? {
      var i := found.value;
      CancelJobs(t, Target(o.org, o.store, i, t.jobs[i].version), PickupKey(i, t.jobs[i].version), now);
    }
  }

  /** With none active, a delivery is made exactly for a delivery order with an address, outside a transaction. */
  lemma EnsureSucceedsIff(t: Tables, o: OrderRef, r: DeliveryRequest, nested: bool, now: int)
    requires Inv(t) && FindActive(t, o.org, o.order).None?
    ensures EnsureDelivery(t, o, r, nested, now).error.None?
      <==> && FindOrder(t, o.org, o.store, o.order).Some? && t.orders[o.order].isDelivery
           && Trim(r.addressLine) != "" && !nested
  {
    CreateMeetsNoIndex(t, o, DraftFor(r, now));
    if CreateDelivery(t, o, DraftFor(r, now)).Ok? {
      NewJobIsPlanned(t, o, DraftFor(r, now));
    }
  }

  /** A delivery made for an order that has none is its one active job, PLANNED, whatever the address lookup said. */
  lemma EnsureLeavesOnePlanned(t: Tables, o: OrderRef, r: DeliveryRequest, nested: bool, now: int)
    requires Inv(t) && NoneActive(t, o.order)
    requires EnsureDelivery(t, o, r, nested, now).error.None?
    ensures var t' := EnsureDelivery(t, o, r, nested, now).tables;
      OnlyActive(t', o.order, |t.jobs|) && t'.jobs[|t.jobs|].status.Planned? && |t'.jobs| == |t.jobs| + 1
  {
    var d, n := DraftFor(r, now), |t.jobs|;
    NewJobIsPlanned(t, o, d);
    var planned := PlanDelivery(CreateDelivery(t, o, d).value, Target(o.org, o.store, n, 1), NoEdit(r.bufferMinutes)).value;
    var at := Target(o.org, o.store, n, planned.jobs[n].version);
    if Geocode(planned, at, r.answer).Ok? {
      GeocodeEffect(planned, at, r.answer);
    }
  }

  /** There and back: a switch to pickup and a switch to delivery leave exactly one active job, new and PLANNED. */
  lemma PickupAndBack(t: Tables, o: OrderRef, r: DeliveryRequest, now: int, later: int)
    requires Inv(t)
    requires var t1 := SwitchFulfillment(t, o, true, false, r, false, now);
      && FindOrder(t, o.org, o.store, o.order).Some? && t1.error.None?
      && SwitchFulfillment(t1.tables, o, false, true, r, false, later).error.None?
    ensures var t1 := SwitchFulfillment(t, o, true, false, r, false, now).tables;
      var t2 := SwitchFulfillment(t1, o, false, true, r, false, later).tables;
      NoneActive(t1, o.order) && OnlyActive(t2, o.order, |t.jobs|) && t2.jobs[|t.jobs|].status.Planned?
  {
    PickupLeavesNoDelivery(t, o, false, now);
    var t1 := SwitchToPickup(t, o, false, now).tables;
    SwitchToPickupKeepsInv(t, o, false, now);
    PickupStep(t, SwitchType(o, true, false, r, false, now));
    EnsureLeavesOnePlanned(t1, o, r, false, later);
  }

  // ------------------------------------------------- calls inside a transaction

  /**
   updateDraft, markReady and assembleOrder make these calls inside their own transaction, which
   runInTransaction refuses, so they never write; createOrder makes its call after its transaction has ended.
   */
  lemma NestedCallsNeverWrite(t: Tables, c: Command)
    requires (c.OrderReady? || c.SwitchType? || c.Ensure?) && c.nested
    ensures Step(t, c) == t
  {
  }

  /** Changing a draft's type inside a transaction goes through exactly when no delivery has to follow. */
  lemma NestedSwitchSucceedsIff(t: Tables, o: OrderRef, wasDelivery: bool, isDelivery: bool, r: DeliveryRequest, now: int)
    requires Inv(t) && FindOrder(t, o.org, o.store, o.order).Some?
    ensures SwitchFulfillment(t, o, wasDelivery, isDelivery, r, true, now).error.None?
      <==> || wasDelivery == isDelivery
           || (!isDelivery && NoneActive(t, o.order))
           || (isDelivery && Trim(r.addressLine) != "" && !NoneActive(t, o.order))
  {
    var found := FindActive(t, o.org, o.order);
    forall i | 0 <= i < |t.jobs| && t.jobs[i].order == o.order && Active(t.jobs[i]) ensures found == Some(i) {
      ActiveIsFound(t, o.org, o.store, o.order, i);
    }
  }

  /** Marking an order ready inside a transaction fails exactly when its delivery has to follow. */
  lemma NestedReadyFailsIff(t: Tables, o: OrderRef)
    requires Inv(t) && FindOrder(t, o.org, o.store, o.order).Some?
    ensures OrderMarkedReady(t, o, true).error.Some?
      <==> exists i :: 0 <= i < |t.jobs| && t.jobs[i].order == o.order && (t.jobs[i].status.Planned? || t.jobs[i].status.Assigned?)
  {
    var found := FindActive(t, o.org, o.order);
    forall i | 0 <= i < |t.jobs| && t.jobs[i].order == o.order && Active(t.jobs[i])
      ensures found == Some(i) && t.jobs[i].store == o.store
    {
      ActiveIsFound(t, o.org, o.store, o.order, i);
    }
  }
}
