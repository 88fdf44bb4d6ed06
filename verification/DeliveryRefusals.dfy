/** A delivery command that is refused in a reachable state names a reason that holds, and no other. */
module DeliveryRefusals {
  import opened Wrappers
  import opened Sequences
  import opened Text
  import opened DeliveryRules
  import opened DeliveryTables
  import opened DeliveryInvariant
  import opened DeliveryCommands
  import opened DeliveryCommandProofs
  import opened DeliveryFulfilment
  import opened DeliveryOutcomes

  /** The job is there, but its caller has seen an older version of it, or expects a newer one. */
  predicate Outdated(t: Tables, at: Target) {
    Located(t, at) && t.jobs[at.job].version != at.expected
  }

  predicate OrderStands(t: Tables, o: OrderRef) {
    o.order < |t.orders| && t.orders[o.order].org == o.org && t.orders[o.order].store == o.store
  }

  predicate CourierStands(t: Tables, org: nat, courier: nat) {
    courier < |t.couriers| && t.couriers[courier].org == org
  }

  predicate BoundElsewhere(t: Tables, k: IdempotencyKey, document: nat) {
    k in t.keys && t.keys[k] != document
  }

  /** What a bump can still be refused for, once the job has been found. */
  lemma BumpRefusal(t: Tables, at: Target, j: Job)
    requires Inv(t) && Located(t, at) && j.order == t.jobs[at.job].order && (Active(j) ==> Active(t.jobs[at.job]))
    ensures forall t1: Tables :: t1.jobs == t.jobs && Bump(t1, at.job, j, at.expected).Rejected? ==>
      Bump(t1, at.job, j, at.expected).error == VersionConflict && Outdated(t, at)
  {
    IndexAdmitsSameOrder(t, at.job, j);
  }

  lemma CreateRefusal(t: Tables, o: OrderRef, d: JobDraft)
    requires Inv(t) && CreateDelivery(t, o, d).Rejected?
    ensures match CreateDelivery(t, o, d).error
            case OrderNotFound => !OrderStands(t, o)
            case OrderNotDelivery => OrderStands(t, o) && !t.orders[o.order].isDelivery
            case ActiveDeliveryExists => !NoneActive(t, o.order)
            case AddressRequired => Blank(d.addressLine)
            case InvalidTimeWindow => d.windowEnd < d.windowStart
            case InvalidDeliveryFee => d.fee < 0
            case _ => false
  {
    BlankIffTrimmedAway(d.addressLine);
    CreateMeetsNoIndex(t, o, d);
    hide Inv, IndexAdmits;
    if FindActive(t, o.org, o.order).Some? {
      assert !NoneActive(t, o.order);
    }
  }

  lemma PlanRefusal(t: Tables, at: Target, e: PlanEdit)
    requires Inv(t) && PlanDelivery(t, at, e).Rejected?
    ensures match PlanDelivery(t, at, e).error
            case DeliveryNotFound => !Located(t, at)
            case InvalidStatusTransition => Located(t, at) && t.jobs[at.job].status !in {Draft, Planned}
            case InvalidTimeWindow =>
              Located(t, at) && OrElse(e.windowEnd, t.jobs[at.job].windowEnd) < OrElse(e.windowStart, t.jobs[at.job].windowStart)
            case InvalidDeliveryFee => e.fee.Some? && e.fee.value < 0
            case VersionConflict => Outdated(t, at)
            case _ => false
  {
    hide Inv, Bump;
    if Located(t, at) && t.jobs[at.job].status in {Draft, Planned} {
      BumpRefusal(t, at, Replanned(t.jobs[at.job], e));
    }
  }

  lemma AddressRefusal(t: Tables, at: Target, addressLine: string)
    requires Inv(t) && UpdateAddress(t, at, addressLine).Rejected?
    ensures match UpdateAddress(t, at, addressLine).error
            case DeliveryNotFound => !Located(t, at)
            case InvalidStatusTransition => Located(t, at) && t.jobs[at.job].status in {Delivered, Cancelled}
            case VersionConflict => Outdated(t, at)
            case _ => false
  {
    hide Inv, Bump;
    if Located(t, at) && !Terminal(t.jobs[at.job].status) {
      BumpRefusal(t, at, t.jobs[at.job].(addressLine := addressLine, place := None, geocoding := NotRequested,
                                         addressSource := Some(TypedIn)));
    }
  }

  lemma GeocodeRefusal(t: Tables, at: Target, answer: GeocoderAnswer)
    requires Inv(t) && Geocode(t, at, answer).Rejected?
    ensures match Geocode(t, at, answer).error
            case DeliveryNotFound => !Located(t, at)
            case GeocoderUnavailable => answer == Unavailable
            case VersionConflict => Outdated(t, at)
            case _ => false
  {
    hide Inv;
    if Located(t, at) {
      IndexAdmitsSameOrder(t, at.job, t.jobs[at.job]);
    }
  }

  lemma PinRefusal(t: Tables, at: Target, place: Place)
    requires Inv(t) && SetCoordinates(t, at, place).Rejected?
    ensures SetCoordinates(t, at, place).error == if Located(t, at) then VersionConflict else DeliveryNotFound
  {
    hide Inv, Bump;
    if Located(t, at) {
      BumpRefusal(t, at, t.jobs[at.job].(place := Some(place), geocoding := Manual, addressSource := Some(UserPin)));
    }
  }

  lemma AssignRefusal(t: Tables, at: Target, courier: nat, now: int)
    requires Inv(t) && AssignCourier(t, at, courier, now).Rejected?
    ensures match AssignCourier(t, at, courier, now).error
            case DeliveryNotFound => !Located(t, at)
            case CourierNotFound => !CourierStands(t, at.org, courier)
            case CannotAssign => Located(t, at) && t.jobs[at.job].status in {InTransit, Problem, Delivered, Cancelled}
            case CourierNotActive => CourierStands(t, at.org, courier) && t.couriers[courier].status != ActiveCourier
            case VersionConflict => Outdated(t, at)
            case _ => false
  {
    hide Inv, Bump, ReleaseActiveAssignment;
    if Located(t, at) {
      var j := t.jobs[at.job];
      NothingOpenAfterRelease(t, at.job, now);
      ReleaseKeepsJobs(t, at.org, at.job, now);
      if !j.status.Cancelled? {
        BumpRefusal(t, at, j.(courier := Some(courier), status := StatusAfterAssign(j.status)));
      }
    }
  }

  lemma ReleaseKeepsJobs(t: Tables, org: nat, job: nat, now: int)
    ensures ReleaseActiveAssignment(t, org, job, now).jobs == t.jobs
  {
  }

  lemma ReleaseRefusal(t: Tables, at: Target, now: int)
    requires Inv(t) && ReleaseCourier(t, at, now).Rejected?
    ensures ReleaseCourier(t, at, now).error == if Located(t, at) then VersionConflict else DeliveryNotFound
  {
    hide Inv, Bump, ReleaseActiveAssignment;
    if Located(t, at) {
      var j := t.jobs[at.job];
      ReleaseKeepsJobs(t, at.org, at.job, now);
      BumpRefusal(t, at, j.(courier := None, status := if j.status.Assigned? then Planned else j.status));
    }
  }

  lemma OrderOfJobStands(t: Tables, i: nat)
    requires Inv(t) && i < |t.jobs|
    ensures OrderStands(t, OrderRef(t.jobs[i].org, t.jobs[i].store, t.jobs[i].order))
  {
    assert JobInv(t, i);
  }

  predicate OrderNotYetReady(t: Tables, at: Target) {
    Located(t, at) && t.jobs[at.job].order < |t.orders| && !t.orders[t.jobs[at.job].order].isReady
  }

  lemma MarkReadyRefusal(t: Tables, at: Target)
    requires Inv(t) && MarkReadyForDispatch(t, at).Rejected?
    ensures match MarkReadyForDispatch(t, at).error
            case DeliveryNotFound => !Located(t, at)
            case OrderNotReady => OrderNotYetReady(t, at)
            case InvalidStatusTransition => Located(t, at) && t.jobs[at.job].status !in {Planned, Assigned, ReadyForDispatch}
            case VersionConflict => Outdated(t, at)
            case _ => false
  {
    hide Inv, Bump;
    if Located(t, at) {
      OrderOfJobStands(t, at.job);
      if !t.jobs[at.job].status.Cancelled? {
        BumpRefusal(t, at, t.jobs[at.job].(status := ReadyForDispatch));
      }
    }
  }

  lemma HandoverRefusal(t: Tables, at: Target, now: int)
    requires Inv(t) && Handover(t, at, now).Rejected?
    ensures match Handover(t, at, now).error
            case DeliveryNotFound => !Located(t, at)
            case OrderNotReady => OrderNotYetReady(t, at)
            case InvalidStatusTransition => Located(t, at) && t.jobs[at.job].status !in {Assigned, ReadyForDispatch}
            case VersionConflict => Outdated(t, at)
            case _ => false
  {
    hide Inv, Bump;
    if Located(t, at) {
      OrderOfJobStands(t, at.job);
      BumpRefusal(t, at, t.jobs[at.job].(handedOverAt := Some(now)));
    }
  }

  lemma DepartRefusal(t: Tables, at: Target, now: int)
    requires Inv(t) && StartTransit(t, at, now).Rejected?
    ensures match StartTransit(t, at, now).error
            case DeliveryNotFound => !Located(t, at)
            case InvalidStatusTransition => Located(t, at) && t.jobs[at.job].status !in {Assigned, ReadyForDispatch, InTransit}
            case ExternalReferenceRequired =>
              && Located(t, at) && t.jobs[at.job].deliveryMethod != OwnCourier && t.jobs[at.job].courier == None
              && t.jobs[at.job].externalReference in {None, Some("")}
            case VersionConflict => Outdated(t, at)
            case _ => false
  {
    hide Inv, Bump;
    if Located(t, at) {
      var j := t.jobs[at.job];
      CourierIffOpen(t, at.job);
      if !j.status.Cancelled? {
        BumpRefusal(t, at, j.(status := InTransit, departedAt := Some(now), handedOverAt := Some(OrElse(j.handedOverAt, now))));
      }
    }
  }

  lemma DeliverRefusal(t: Tables, at: Target, key: string, now: int)
    requires Inv(t) && MarkDelivered(t, at, key, now).Rejected?
    ensures match MarkDelivered(t, at, key, now).error
            case IdempotencyKeyRequired => Blank(key)
            case DeliveryNotFound => !Located(t, at)
            case IdempotencyKeyReused => BoundElsewhere(t, IdempotencyKey(at.org, DeliverKey, Trim(key)), at.job)
            case InvalidStatusTransition => Located(t, at) && t.jobs[at.job].status !in {InTransit, Problem}
            case VersionConflict => Outdated(t, at)
            case _ => false
  {
    hide Inv, Bump;
    BlankIffTrimmedAway(key);
    if Located(t, at) && !t.jobs[at.job].status.Cancelled? {
      BumpRefusal(t, at, t.jobs[at.job].(status := Delivered, deliveredAt := Some(now)));
    }
  }

  lemma CancelRefusal(t: Tables, at: Target, key: string, now: int)
    requires CancelDelivery(t, at, key, now).Rejected?
    ensures match CancelDelivery(t, at, key, now).error
            case IdempotencyKeyRequired => Blank(key)
            case DeliveryNotFound => !Located(t, at)
            case IdempotencyKeyReused => BoundElsewhere(t, IdempotencyKey(at.org, CancelKey, Trim(key)), at.job)
            case InvalidStatusTransition => Located(t, at) && t.jobs[at.job].status in {Delivered, Cancelled}
            case VersionConflict => Outdated(t, at)
            case _ => false
  {
    hide ReleaseActiveAssignment;
    ReleaseKeepsJobs(t, at.org, at.job, now);
    ReleaseKeepsJobs(t.(keys := t.keys[IdempotencyKey(at.org, CancelKey, Trim(key)) := at.job]), at.org, at.job, now);
    BlankIffTrimmedAway(key);
  }

  lemma ReportRefusal(t: Tables, at: Target, now: int)
    requires Inv(t) && ReportProblem(t, at, now).Rejected?
    ensures match ReportProblem(t, at, now).error
            case DeliveryNotFound => !Located(t, at)
            case InvalidStatusTransition =>
              Located(t, at) && t.jobs[at.job].status !in {Planned, ReadyForDispatch, Assigned, InTransit}
            case VersionConflict => Outdated(t, at)
            case _ => false
  {
    hide Inv, Bump;
    if Located(t, at) && !t.jobs[at.job].status.Cancelled? {
      BumpRefusal(t, at, t.jobs[at.job].(status := Problem));
    }
  }

  /** Only a resolution can also be refused by the order index, for reviving a job beside another. */
  lemma ResolveRefusal(t: Tables, at: Target, problem: nat, resolveTo: Status, key: string, now: int)
    requires Inv(t) && ResolveProblem(t, at, problem, resolveTo, key, now).Rejected?
    ensures match ResolveProblem(t, at, problem, resolveTo, key, now).error
            case IdempotencyKeyRequired => Blank(key)
            case DeliveryNotFound => !Located(t, at)
            case IdempotencyKeyReused => BoundElsewhere(t, IdempotencyKey(at.org, ResolveProblemKey, Trim(key)), problem)
            case ProblemNotFound => !Recorded(t, at, problem)
            case InvalidResolveStatus => resolveTo in {Draft, ReadyForDispatch, Problem}
            case VersionConflict => Outdated(t, at)
            case ConstraintViolation =>
              && Located(t, at) && t.jobs[at.job].status == Cancelled && resolveTo != Cancelled
              && !NoneActive(t, t.jobs[at.job].order)
            case _ => false
  {
    BlankIffTrimmedAway(key);
    hide Inv, Bump, Blank, Trim, NoneActive, ResolvedRecord;
    if Located(t, at) {
      RevivalRefusal(t, at, AfterResolution(t.jobs[at.job], resolveTo, now));
    }
  }

  /** What the write of any job can be refused for, once the job has been found. */
  lemma RevivalRefusal(t: Tables, at: Target, j: Job)
    requires Inv(t) && Located(t, at) && j.order == t.jobs[at.job].order
    ensures forall t1: Tables :: t1.jobs == t.jobs && Bump(t1, at.job, j, at.expected).Rejected? ==>
      match Bump(t1, at.job, j, at.expected).error
      case VersionConflict => Outdated(t, at)
      case ConstraintViolation => t.jobs[at.job].status == Cancelled && j.status != Cancelled && !NoneActive(t, j.order)
      case _ => false
  {
    hide Inv;
    RevivalMeetsIndexIff(t, at.job, j);
  }

  /** A delivery for an order is refused as creating it is, or for being asked for inside a transaction. */
  lemma EnsureRefusal(t: Tables, o: OrderRef, r: DeliveryRequest, nested: bool, now: int)
    requires Inv(t) && EnsureDelivery(t, o, r, nested, now).error.Some?
    ensures match EnsureDelivery(t, o, r, nested, now).error.value
            case OrderNotFound => !OrderStands(t, o)
            case OrderNotDelivery => OrderStands(t, o) && !t.orders[o.order].isDelivery
            case AddressRequired => Blank(r.addressLine)
            case NestedTransaction => nested
            case _ => false
    ensures EnsureDelivery(t, o, r, nested, now).tables == t
  {
    hide Inv, CreateDelivery, PlanDelivery;
    var d := DraftFor(r, now);
    if CreateDelivery(t, o, d).Ok? {
      FirstTwoCommit(t, o, r, now);
    } else {
      CreateRefusal(t, o, d);
      CreateIsNotForExisting(t, o, d);
    }
  }

  lemma CreateIsNotForExisting(t: Tables, o: OrderRef, d: JobDraft)
    requires FindActive(t, o.org, o.order).None?
    ensures CreateDelivery(t, o, d) != Rejected(ActiveDeliveryExists)
  {
  }

  /** A switch to pickup is refused for a delivery that has left the shop, or inside a transaction. */
  lemma PickupRefusal(t: Tables, o: OrderRef, nested: bool, now: int, i: nat)
    requires Inv(t) && i < |t.jobs| && Active(t.jobs[i]) && ActiveFor(o.org, o.order)(t.jobs[i])
    requires SwitchToPickup(t, o, nested, now).error.Some?
    ensures match SwitchToPickup(t, o, nested, now).error.value
            case FulfillmentChangeForbidden => t.jobs[i].handedOverAt.Some? || t.jobs[i].status in {InTransit, Delivered}
            case NestedTransaction => nested
            case DeliveryNotFound => o.store != t.jobs[i].store
            case IdempotencyKeyReused =>
              BoundElsewhere(t, IdempotencyKey(o.org, CancelKey, Trim(PickupKey(i, t.jobs[i].version))), i)
            case _ => false
    ensures SwitchToPickup(t, o, nested, now).tables == t
  {
    OrderOfJobStands(t, i);
    ActiveIsFound(t, t.jobs[i].org, t.jobs[i].store, o.order, i);
    hide Inv, CancelDelivery;
    var key := PickupKey(i, t.jobs[i].version);
    PickupKeyIsNotBlank(i, t.jobs[i].version);
    BlankIffTrimmedAway(key);
    var at := Target(o.org, o.store, i, t.jobs[i].version);
    if CancelDelivery(t, at, key, now).Rejected? {
      CancelRefusal(t, at, key, now);
    }
  }

  /** Outside a transaction a delivery always follows its order's readiness. */
  lemma ReadyIsRefusedOnlyNested(t: Tables, o: OrderRef, nested: bool)
    requires Inv(t) && OrderMarkedReady(t, o, nested).error.Some?
    ensures nested && OrderMarkedReady(t, o, nested) == Outcome(t, Some(NestedTransaction))
  {
    var i := FindActive(t, o.org, o.order).value;
    BumpOutcome(t, t, Target(o.org, o.store, i, t.jobs[i].version), t.jobs[i].(status := ReadyForDispatch));
  }
}
