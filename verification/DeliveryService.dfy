/**
 The delivery commands as they run: reads, then writes to the tables one by one, inside a transaction that a
 failure rolls back. Every public method is proved to do exactly what its command function says.
 */
module DeliveryService {
  import opened Wrappers
  import opened Sequences
  import opened Text
  import opened DeliveryRules
  import opened DeliveryTables
  import C = DeliveryCommands

  /** A transaction ended with its new tables, or with its error and no trace. */
  ghost predicate Committed(error: Option<Error>, before: Tables, now: Tables, spec: Result<Tables, Error>) {
    match spec
    case Ok(t) => error.None? && now == t
    case Rejected(e) => error == Some(e) && now == before
  }

  class DeliveryDatabase {
    var orders: seq<Order>
    var jobs: seq<Job>
    var assignments: seq<Assignment>
    var problems: seq<ProblemRecord>
    var couriers: seq<Courier>
    var keys: map<IdempotencyKey, nat>

    function Db(): Tables
      reads this
    {
      Tables(orders, jobs, assignments, problems, couriers, keys)
    }

    constructor ()
      ensures Db() == EMPTY
    {
      orders, jobs, assignments, problems, couriers, keys := [], [], [], [], [], map[];
    }

    method Restore(t: Tables)
      modifies this
      ensures Db() == t
    {
      orders, jobs, assignments := t.orders, t.jobs, t.assignments;
      problems, couriers, keys := t.problems, t.couriers, t.keys;
    }

    // ---------------------------------------------------------- repository

    method CreateJob(j: Job) returns (error: Option<Error>)
      modifies this`jobs
      ensures Committed(error, old(Db()), Db(), AddJob(old(Db()), j))
    {
      if !IndexAdmits(jobs, |jobs|, j) {
        return Some(ConstraintViolation);
      }
      jobs := jobs + [j];
      error := None;
    }

    method UpdateJob(job: nat, j: Job, expected: int) returns (error: Option<Error>)
      requires job < |jobs|
      modifies this`jobs
      ensures Committed(error, old(Db()), Db(), Bump(old(Db()), job, j, expected))
    {
      if jobs[job].version != expected {
        return Some(VersionConflict);
      }
      if !IndexAdmits(jobs, job, j) {
        return Some(ConstraintViolation);
      }
      jobs := jobs[job := j.(version := expected + 1)];
      error := None;
    }

    /** Finds the job's open assignment by a scan, and marks it released in place. */
    method ReleaseActiveAssignment(org: nat, job: nat, now: int)
      modifies this`assignments
      ensures Db() == DeliveryTables.ReleaseActiveAssignment(old(Db()), org, job, now)
    {
      var i := 0;
      while i < |assignments| && !OpenIn(org, job)(assignments[i])
        invariant 0 <= i <= |assignments|
        invariant forall x :: 0 <= x < i ==> !OpenIn(org, job)(assignments[x])
      {
        i := i + 1;
      }
      if i < |assignments| {
        assignments := assignments[i := assignments[i].(releasedAt := Some(now))];
      }
    }

    method CreateAssignment(a: Assignment) returns (error: Option<Error>)
      modifies this`assignments
      ensures Committed(error, old(Db()), Db(), AddAssignment(old(Db()), a))
    {
      if FindFirst(assignments, OpenFor(a.job)).Some? {
        return Some(ConstraintViolation);
      }
      assignments := assignments + [a];
      error := None;
    }

    /** Looks the key up; binds it when it is new. */
    method ClaimIdempotency(k: IdempotencyKey, document: nat) returns (error: Option<Error>, replay: bool)
      modifies this`keys
      ensures var claim := ClaimKey(old(Db()), k, document);
        if claim.Rejected? then error == Some(claim.error) && Db() == old(Db())
        else error.None? && claim.value == Claim(replay, Db())
    {
      if k in keys {
        if keys[k] != document {
          return Some(IdempotencyKeyReused), false;
        }
        return None, true;
      }
      keys := keys[k := document];
      return None, false;
    }

    // -------------------------------------------------- planning the job

    method CreateDelivery(o: C.OrderRef, d: C.JobDraft) returns (error: Option<Error>)
      modifies this
      ensures Committed(error, old(Db()), Db(), C.CreateDelivery(old(Db()), o, d))
    {
      var order := FindOrder(Db(), o.org, o.store, o.order);
      if order.None? {
        return Some(OrderNotFound);
      }
      if !order.value.isDelivery {
        return Some(OrderNotDelivery);
      }
      if FindActive(Db(), o.org, o.order).Some? {
        return Some(ActiveDeliveryExists);
      }
      if Trim(d.addressLine) == "" {
        return Some(AddressRequired);
      }
      var window, fee := AssertTimeWindowValid(d.windowStart, d.windowEnd), AssertDeliveryFeeNonNegative(d.fee);
      if window.Fail? {
        return Some(window.error);
      }
      if fee.Fail? {
        return Some(fee.error);
      }
      error := CreateJob(C.NewJob(o, d));
    }

    method PlanDelivery(at: C.Target, e: C.PlanEdit) returns (error: Option<Error>)
      modifies this
      ensures Committed(error, old(Db()), Db(), C.PlanDelivery(old(Db()), at, e))
    {
      var job := RequireJob(Db(), at.org, at.store, at.job);
      if job.Rejected? {
        return Some(job.error);
      }
      var j := job.value;
      var allowed := AssertCanPlan(j.status);
      if allowed.Fail? {
        return Some(allowed.error);
      }
      var window := AssertTimeWindowValid(C.OrElse(e.windowStart, j.windowStart), C.OrElse(e.windowEnd, j.windowEnd));
      if window.Fail? {
        return Some(window.error);
      }
      if e.fee.Some? && e.fee.value < 0 {
        return Some(InvalidDeliveryFee);
      }
      error := UpdateJob(at.job, C.Replanned(j, e), at.expected);
    }

    // ----------------------------------------------------------- address

    method UpdateAddress(at: C.Target, addressLine: string) returns (error: Option<Error>)
      modifies this
      ensures Committed(error, old(Db()), Db(), C.UpdateAddress(old(Db()), at, addressLine))
    {
      var job := RequireJob(Db(), at.org, at.store, at.job);
      if job.Rejected? {
        return Some(job.error);
      }
      var j := job.value;
      if Terminal(j.status) {
        return Some(InvalidStatusTransition);
      }
      error := UpdateJob(at.job, j.(addressLine := addressLine, place := None, geocoding := NotRequested,
                                    addressSource := Some(TypedIn)), at.expected);
    }

    /** Two writes around the lookup: the second is made against the row the first left. */
    method GeocodeDelivery(at: C.Target, answer: C.GeocoderAnswer) returns (error: Option<Error>)
      modifies this
      ensures Committed(error, old(Db()), Db(), C.Geocode(old(Db()), at, answer))
    {
      var snapshot := Db();
      var job := RequireJob(Db(), at.org, at.store, at.job);
      if job.Rejected? {
        return Some(job.error);
      }
      error := UpdateJob(at.job, job.value.(geocoding := Pending), at.expected);
      if error.Some? {
        return;
      }
      if answer.Unavailable? {
        Restore(snapshot);
        return Some(GeocoderUnavailable);
      }
      var reread := jobs[at.job];
      if answer.NotFound? {
        error := UpdateJob(at.job, reread.(geocoding := Failed), reread.version);
      } else {
        error := UpdateJob(at.job, reread.(place := Some(answer.place), geocoding := Resolved,
                                           addressSource := Some(Geocoded)), reread.version);
      }
      if error.Some? {
        Restore(snapshot);
      }
    }

    method SetCoordinatesManual(at: C.Target, place: Place) returns (error: Option<Error>)
      modifies this
      ensures Committed(error, old(Db()), Db(), C.SetCoordinates(old(Db()), at, place))
    {
      var job := RequireJob(Db(), at.org, at.store, at.job);
      if job.Rejected? {
        return Some(job.error);
      }
      error := UpdateJob(at.job, job.value.(place := Some(place), geocoding := Manual, addressSource := Some(UserPin)), at.expected);
    }

    // ---------------------------------------------------------- couriers

    method AssignCourier(at: C.Target, courier: nat, now: int) returns (error: Option<Error>)
      modifies this
      ensures Committed(error, old(Db()), Db(), C.AssignCourier(old(Db()), at, courier, now))
    {
      var snapshot := Db();
      var job := RequireJob(Db(), at.org, at.store, at.job);
      if job.Rejected? {
        return Some(job.error);
      }
      var profile := GetCourier(Db(), at.org, courier);
      if profile.None? {
        return Some(CourierNotFound);
      }
      var allowed := AssertCanAssign(job.value.status, profile.value.status, profile.value.org, job.value.org);
      if allowed.Fail? {
        return Some(allowed.error);
      }
      ReleaseActiveAssignment(at.org, at.job, now);
      error := CreateAssignment(Assignment(at.org, at.job, courier, now, None));
      if error.None? {
        error := UpdateJob(at.job, job.value.(courier := Some(courier), status := StatusAfterAssign(job.value.status)), at.expected);
      }
      if error.Some? {
        Restore(snapshot);
      }
    }

    method ReleaseCourier(at: C.Target, now: int) returns (error: Option<Error>)
      modifies this
      ensures Committed(error, old(Db()), Db(), C.ReleaseCourier(old(Db()), at, now))
    {
      var snapshot := Db();
      var job := RequireJob(Db(), at.org, at.store, at.job);
      if job.Rejected? {
        return Some(job.error);
      }
      ReleaseActiveAssignment(at.org, at.job, now);
      var status := if job.value.status.Assigned? then Planned else job.value.status;
      error := UpdateJob(at.job, job.value.(courier := None, status := status), at.expected);
      if error.Some? {
        Restore(snapshot);
      }
    }

    method CreateCourier(org: nat, membership: nat) returns (error: Option<Error>)
      modifies this
      ensures Committed(error, old(Db()), Db(), C.CreateCourier(old(Db()), org, membership))
    {
      if FindFirst(couriers, OfMembership(org, membership)).Some? {
        return Some(ConstraintViolation);
      }
      couriers := couriers + [Courier(org, membership, ActiveCourier)];
      error := None;
    }

    method ArchiveCourier(org: nat, courier: nat) returns (error: Option<Error>)
      modifies this
      ensures Committed(error, old(Db()), Db(), C.ArchiveCourier(old(Db()), org, courier))
    {
      if GetCourier(Db(), org, courier).None? {
        return Some(CourierNotFound);
      }
      couriers := couriers[courier := couriers[courier].(status := ArchivedCourier)];
      error := None;
    }

    method SyncCourierMembership(org: nat, membership: nat, isCourier: bool) returns (error: Option<Error>)
      modifies this
      ensures Committed(error, old(Db()), Db(), C.SyncCourier(old(Db()), org, membership, isCourier))
    {
      error := None;
      var existing := FindFirst(couriers, OfMembership(org, membership));
      if isCourier {
        if existing.None? {
          error := CreateCourier(org, membership);
        } else if couriers[existing.value].status.ArchivedCourier? {
          couriers := couriers[existing.value := couriers[existing.value].(status := ActiveCourier)];
        }
      } else if existing.Some? && !couriers[existing.value].status.ArchivedCourier? {
        couriers := couriers[existing.value := couriers[existing.value].(status := ArchivedCourier)];
      }
    }

    // ---------------------------------------------------------- dispatch

    method MarkReadyForDispatch(at: C.Target) returns (error: Option<Error>)
      modifies this
      ensures Committed(error, old(Db()), Db(), C.MarkReadyForDispatch(old(Db()), at))
    {
      var job := RequireJob(Db(), at.org, at.store, at.job);
      if job.Rejected? {
        return Some(job.error);
      }
      var order := FindOrder(Db(), at.org, at.store, job.value.order);
      if order.None? {
        return Some(OrderNotFound);
      }
      var allowed := AssertCanMarkReadyForDispatch(job.value.status, order.value.isReady);
      if allowed.Fail? {
        return Some(allowed.error);
      }
      error := UpdateJob(at.job, job.value.(status := ReadyForDispatch), at.expected);
    }

    method Handover(at: C.Target, now: int) returns (error: Option<Error>)
      modifies this
      ensures Committed(error, old(Db()), Db(), C.Handover(old(Db()), at, now))
    {
      var job := RequireJob(Db(), at.org, at.store, at.job);
      if job.Rejected? {
        return Some(job.error);
      }
      var order := FindOrder(Db(), at.org, at.store, job.value.order);
      if order.None? {
        return Some(OrderNotFound);
      }
      var allowed := AssertCanHandover(job.value.status, order.value.isReady);
      if allowed.Fail? {
        return Some(allowed.error);
      }
      error := UpdateJob(at.job, job.value.(handedOverAt := Some(now)), at.expected);
    }

    method StartTransit(at: C.Target, now: int) returns (error: Option<Error>)
      modifies this
      ensures Committed(error, old(Db()), Db(), C.StartTransit(old(Db()), at, now))
    {
      var job := RequireJob(Db(), at.org, at.store, at.job);
      if job.Rejected? {
        return Some(job.error);
      }
      var j := job.value;
      var hasAssignment := FindFirst(assignments, OpenIn(at.org, at.job)).Some?;
      var hasReference := j.externalReference.Some? && j.externalReference.value != "";
      var allowed := AssertCanStartTransit(j.status, j.deliveryMethod, hasAssignment, hasReference);
      if allowed.Fail? {
        return Some(allowed.error);
      }
      var handedOverAt := if j.handedOverAt.Some? then j.handedOverAt else Some(now);
      error := UpdateJob(at.job, j.(status := InTransit, departedAt := Some(now), handedOverAt := handedOverAt), at.expected);
    }

    method MarkDelivered(at: C.Target, key: string, now: int) returns (error: Option<Error>)
      modifies this
      ensures Committed(error, old(Db()), Db(), C.MarkDelivered(old(Db()), at, key, now))
    {
      var snapshot := Db();
      if Trim(key) == "" {
        return Some(IdempotencyKeyRequired);
      }
      var job := RequireJob(Db(), at.org, at.store, at.job);
      if job.Rejected? {
        return Some(job.error);
      }
      var replay;
      error, replay := ClaimIdempotency(IdempotencyKey(at.org, DeliverKey, Trim(key)), at.job);
      if error.Some? || (replay && job.value.status.Delivered?) {
        return;
      }
      var allowed := AssertCanDeliver(job.value.status);
      if allowed.Fail? {
        Restore(snapshot);
        return Some(allowed.error);
      }
      error := UpdateJob(at.job, job.value.(status := Delivered, deliveredAt := Some(now)), at.expected);
      if error.Some? {
        Restore(snapshot);
      }
    }

    method CancelDelivery(at: C.Target, key: string, now: int) returns (error: Option<Error>)
      modifies this
      ensures Committed(error, old(Db()), Db(), C.CancelDelivery(old(Db()), at, key, now))
    {
      var snapshot := Db();
      if Trim(key) == "" {
        return Some(IdempotencyKeyRequired);
      }
      var job := RequireJob(Db(), at.org, at.store, at.job);
      if job.Rejected? {
        return Some(job.error);
      }
      var replay;
      error, replay := ClaimIdempotency(IdempotencyKey(at.org, CancelKey, Trim(key)), at.job);
      if error.Some? || (replay && job.value.status.Cancelled?) {
        return;
      }
      var allowed := AssertCanCancel(job.value.status);
      if allowed.Fail? {
        Restore(snapshot);
        return Some(allowed.error);
      }
      ReleaseActiveAssignment(at.org, at.job, now);
      error := UpdateJob(at.job, job.value.(status := Cancelled, cancelledAt := Some(now), courier := None), at.expected);
      if error.Some? {
        Restore(snapshot);
      }
    }

    // ---------------------------------------------------------- problems

    method ReportProblem(at: C.Target, now: int) returns (error: Option<Error>)
      modifies this
      ensures Committed(error, old(Db()), Db(), C.ReportProblem(old(Db()), at, now))
    {
      var snapshot := Db();
      var job := RequireJob(Db(), at.org, at.store, at.job);
      if job.Rejected? {
        return Some(job.error);
      }
      var allowed := AssertCanReportProblem(job.value.status);
      if allowed.Fail? {
        return Some(allowed.error);
      }
      problems := problems + [ProblemRecord(at.org, at.job, now, OpenProblem, None, None)];
      error := UpdateJob(at.job, job.value.(status := Problem), at.expected);
      if error.Some? {
        Restore(snapshot);
      }
    }

    method ResolveProblem(at: C.Target, problem: nat, resolveTo: Status, key: string, now: int) returns (error: Option<Error>)
      modifies this
      ensures Committed(error, old(Db()), Db(), C.ResolveProblem(old(Db()), at, problem, resolveTo, key, now))
    {
      var snapshot := Db();
      if Trim(key) == "" {
        return Some(IdempotencyKeyRequired);
      }
      var job := RequireJob(Db(), at.org, at.store, at.job);
      if job.Rejected? {
        return Some(job.error);
      }
      var replay;
      error, replay := ClaimIdempotency(IdempotencyKey(at.org, ResolveProblemKey, Trim(key)), problem);
      if error.Some? {
        return;
      }
      var found := C.GetProblem(Db(), at.org, at.job, problem);
      if found.None? {
        Restore(snapshot);
        return Some(ProblemNotFound);
      }
      if replay && found.value.status.ResolvedProblem? {
        return;
      }
      var allowed := AssertCanResolveProblem(resolveTo);
      if allowed.Fail? {
        Restore(snapshot);
        return Some(allowed.error);
      }
      problems := problems[problem := found.value.(status := ResolvedProblem, resolveTo := Some(resolveTo), resolvedAt := Some(now))];
      var j := job.value.(status := resolveTo);
      if resolveTo.Delivered? {
        j := j.(deliveredAt := Some(now));
      } else if resolveTo.Cancelled? {
        j := j.(cancelledAt := Some(now));
      }
      error := UpdateJob(at.job, j, at.expected);
      if error.Some? {
        Restore(snapshot);
      }
    }

    // --------------------------------------- calls from the order module

    method OnOrderMarkedReady(o: C.OrderRef, nested: bool) returns (error: Option<Error>)
      modifies this
      ensures C.Outcome(Db(), error) == C.OrderMarkedReady(old(Db()), o, nested)
    {
      error := None;
      var found := FindActive(Db(), o.org, o.order);
      if found.None? || jobs[found.value].store != o.store {
        return;
      }
      var j := jobs[found.value];
      if j.status != Planned && j.status != Assigned {
        return;
      }
      if nested {
        return Some(NestedTransaction);
      }
      error := UpdateJob(found.value, j.(status := ReadyForDispatch), j.version);
    }

    method EnsureDeliveryForOrder(o: C.OrderRef, r: C.DeliveryRequest, nested: bool, now: int) returns (error: Option<Error>)
      modifies this
      ensures C.Outcome(Db(), error) == C.EnsureDelivery(old(Db()), o, r, nested, now)
    {
      if FindActive(Db(), o.org, o.order).Some? {
        return None;
      }
      var job := |jobs|;
      if nested {
        return RefusedInside(o, r, now);
      }
      error := CreateDelivery(o, C.DraftFor(r, now));
      if error.Some? {
        return;
      }
      error := PlanDelivery(C.Target(o.org, o.store, job, 1), C.NoEdit(r.bufferMinutes));
      if error.Some? {
        return;
      }
      var ignored := GeocodeDelivery(C.Target(o.org, o.store, job, jobs[job].version), r.answer);
    }

    /** createDeliveryFromOrder checks its input before it asks for a transaction. */
    function RefusedInside(o: C.OrderRef, r: C.DeliveryRequest, now: int): (error: Option<Error>)
      reads this
    {
      var created := C.CreateDelivery(Db(), o, C.DraftFor(r, now));
      Some(if created.Rejected? then created.error else NestedTransaction)
    }

    method SwitchToPickup(o: C.OrderRef, nested: bool, now: int) returns (error: Option<Error>)
      modifies this
      ensures C.Outcome(Db(), error) == C.SwitchToPickup(old(Db()), o, nested, now)
    {
      var found := FindActive(Db(), o.org, o.order);
      if found.None? {
        return None;
      }
      var i, j := found.value, jobs[found.value];
      var allowed := AssertSwitchToPickupAllowed(j.status, j.handedOverAt);
      if allowed.Fail? {
        return Some(allowed.error);
      }
      if nested {
        return Some(NestedTransaction);
      }
      error := CancelDelivery(C.Target(o.org, o.store, i, j.version), C.PickupKey(i, j.version), now);
    }

    method OnFulfillmentTypeChanged(o: C.OrderRef, wasDelivery: bool, isDelivery: bool, r: C.DeliveryRequest, nested: bool, now: int)
      returns (error: Option<Error>)
      modifies this
      ensures C.Outcome(Db(), error) == C.SwitchFulfillment(old(Db()), o, wasDelivery, isDelivery, r, nested, now)
    {
      if wasDelivery == isDelivery {
        return None;
      }
      if !isDelivery {
        error := SwitchToPickup(o, nested, now);
        return;
      }
      if Trim(r.addressLine) == "" {
        return Some(AddressRequired);
      }
      error := EnsureDeliveryForOrder(o, r, nested, now);
    }
  }
}
