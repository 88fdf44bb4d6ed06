/** The delivery commands, each as the function from the tables before it to the tables it commits. */
module DeliveryCommands {
  import opened Wrappers
  import opened Sequences
  import opened Text
  import opened DeliveryRules
  import opened DeliveryTables

  /** The job a command is for, and the version its caller last saw. */
  datatype Target = Target(org: nat, store: nat, job: nat, expected: int)

  datatype OrderRef = OrderRef(org: nat, store: nat, order: nat)

  datatype JobDraft = JobDraft(
    deliveryMethod: Method, windowStart: int, windowEnd: int, requiredDispatchAt: Option<int>, bufferMinutes: int,
    addressLine: string, fee: int, externalReference: Option<string>)

  /** An absent field keeps the stored value, except that the dispatch time is computed anew. */
  datatype PlanEdit = PlanEdit(
    windowStart: Option<int>, windowEnd: Option<int>, requiredDispatchAt: Option<Option<int>>, bufferMinutes: int,
    deliveryMethod: Option<Method>, fee: Option<int>, externalReference: Option<Option<string>>)

  /** What the address lookup service answers; a call can also fail. */
  datatype GeocoderAnswer = Found(place: Place) | NotFound | Unavailable

  function OrElse<T>(o: Option<T>, fallback: T): T {
    if o.Some? then o.value else fallback
  }

  // ------------------------------------------------------ planning the job

  function NewJob(o: OrderRef, d: JobDraft): Job {
    Job(o.org, o.store, o.order, Draft, d.deliveryMethod, d.windowStart, d.windowEnd,
        Some(OrElse(d.requiredDispatchAt, ComputeRequiredDispatchAt(d.windowStart, d.bufferMinutes))), d.fee,
        Trim(d.addressLine), None, NotRequested, None, d.externalReference, None, None, None, None, None, 1)
  }

  function CreateDelivery(t: Tables, o: OrderRef, d: JobDraft): (r: Result<Tables, Error>)
    ensures r.Ok? ==> |r.value.jobs| == |t.jobs| + 1
  {
    var order := FindOrder(t, o.org, o.store, o.order);
    if order.None? then Rejected(OrderNotFound)
    else if !order.value.isDelivery then Rejected(OrderNotDelivery)
    else if FindActive(t, o.org, o.order).Some? then Rejected(ActiveDeliveryExists)
    else if Trim(d.addressLine) == "" then Rejected(AddressRequired)
    else
      :- AssertTimeWindowValid(d.windowStart, d.windowEnd);
      :- AssertDeliveryFeeNonNegative(d.fee);
      AddJob(t, NewJob(o, d))
  }

  function Replanned(j: Job, e: PlanEdit): Job {
    var windowStart := OrElse(e.windowStart, j.windowStart);
    j.(status := Planned, windowStart := windowStart, windowEnd := OrElse(e.windowEnd, j.windowEnd),
       requiredDispatchAt := OrElse(e.requiredDispatchAt, Some(ComputeRequiredDispatchAt(windowStart, e.bufferMinutes))),
       deliveryMethod := OrElse(e.deliveryMethod, j.deliveryMethod), fee := OrElse(e.fee, j.fee),
       externalReference := OrElse(e.externalReference, j.externalReference))
  }

  function PlanDelivery(t: Tables, at: Target, e: PlanEdit): (r: Result<Tables, Error>)
    ensures r.Ok? ==> |r.value.jobs| == |t.jobs|
  {
    var j :- RequireJob(t, at.org, at.store, at.job);
    :- AssertCanPlan(j.status);
    :- AssertTimeWindowValid(OrElse(e.windowStart, j.windowStart), OrElse(e.windowEnd, j.windowEnd));
    :- AssertDeliveryFeeNonNegative(OrElse(e.fee, 0));
    Bump(t, at.job, Replanned(j, e), at.expected)
  }

  // --------------------------------------------------------------- address

  function UpdateAddress(t: Tables, at: Target, addressLine: string): Result<Tables, Error> {
    var j :- RequireJob(t, at.org, at.store, at.job);
    if Terminal(j.status) then Rejected(InvalidStatusTransition)
    else
      var j' := j.(addressLine := addressLine, place := None, geocoding := NotRequested, addressSource := Some(TypedIn));
      Bump(t, at.job, j', at.expected)
  }

  function Geocode(t: Tables, at: Target, answer: GeocoderAnswer): Result<Tables, Error> {
    var j :- RequireJob(t, at.org, at.store, at.job);
    var t1 :- Bump(t, at.job, j.(geocoding := Pending), at.expected);
    if answer.Unavailable? then Rejected(GeocoderUnavailable)
    else
      var reread :- RequireJob(t1, at.org, at.store, at.job);
      var j' := if answer.NotFound? then reread.(geocoding := Failed)
                else reread.(place := Some(answer.place), geocoding := Resolved, addressSource := Some(Geocoded));
      Bump(t1, at.job, j', reread.version)
  }

  function SetCoordinates(t: Tables, at: Target, place: Place): Result<Tables, Error> {
    var j :- RequireJob(t, at.org, at.store, at.job);
    Bump(t, at.job, j.(place := Some(place), geocoding := Manual, addressSource := Some(UserPin)), at.expected)
  }

  // -------------------------------------------------------------- couriers

  /** reassignCourier is the same call. */
  function AssignCourier(t: Tables, at: Target, courier: nat, now: int): Result<Tables, Error> {
    var j :- RequireJob(t, at.org, at.store, at.job);
    var c := GetCourier(t, at.org, courier);
    if c.None? then Rejected(CourierNotFound)
    else
      :- AssertCanAssign(j.status, c.value.status, c.value.org, j.org);
      var t1 := ReleaseActiveAssignment(t, at.org, at.job, now);
      var t2 :- AddAssignment(t1, Assignment(at.org, at.job, courier, now, None));
      Bump(t2, at.job, j.(courier := Some(courier), status := StatusAfterAssign(j.status)), at.expected)
  }

  function ReleaseCourier(t: Tables, at: Target, now: int): Result<Tables, Error> {
    var j :- RequireJob(t, at.org, at.store, at.job);
    var t1 := ReleaseActiveAssignment(t, at.org, at.job, now);
    Bump(t1, at.job, j.(courier := None, status := if j.status.Assigned? then Planned else j.status), at.expected)
  }

  function CreateCourier(t: Tables, org: nat, membership: nat): Result<Tables, Error> {
    AddCourier(t, org, membership)
  }

  function ArchiveCourier(t: Tables, org: nat, courier: nat): Result<Tables, Error> {
    if GetCourier(t, org, courier).None? then Rejected(CourierNotFound)
    else Ok(SetCourierStatus(t, courier, ArchivedCourier))
  }

  /** A membership's courier profile follows its COURIER role. */
  function SyncCourier(t: Tables, org: nat, membership: nat, isCourier: bool): Result<Tables, Error> {
    match FindFirst(t.couriers, OfMembership(org, membership))
    case None => if isCourier then AddCourier(t, org, membership) else Ok(t)
    case Some(c) =>
      if isCourier == !t.couriers[c].status.ArchivedCourier? then Ok(t)
      else Ok(SetCourierStatus(t, c, if isCourier then ActiveCourier else ArchivedCourier))
  }

  // -------------------------------------------------------------- dispatch

  function MarkReadyForDispatch(t: Tables, at: Target): Result<Tables, Error> {
    var j :- RequireJob(t, at.org, at.store, at.job);
    var order := FindOrder(t, at.org, at.store, j.order);
    if order.None? then Rejected(OrderNotFound)
    else
      :- AssertCanMarkReadyForDispatch(j.status, order.value.isReady);
      Bump(t, at.job, j.(status := ReadyForDispatch), at.expected)
  }

  function Handover(t: Tables, at: Target, now: int): Result<Tables, Error> {
    var j :- RequireJob(t, at.org, at.store, at.job);
    var order := FindOrder(t, at.org, at.store, j.order);
    if order.None? then Rejected(OrderNotFound)
    else
      :- AssertCanHandover(j.status, order.value.isReady);
      Bump(t, at.job, j.(handedOverAt := Some(now)), at.expected)
  }

  function StartTransit(t: Tables, at: Target, now: int): Result<Tables, Error> {
    var j :- RequireJob(t, at.org, at.store, at.job);
    :- AssertCanStartTransit(j.status, j.deliveryMethod, FindFirst(t.assignments, OpenIn(at.org, at.job)).Some?,
                             j.externalReference.Some? && j.externalReference.value != "");
    var j' := j.(status := InTransit, departedAt := Some(now), handedOverAt := Some(OrElse(j.handedOverAt, now)));
    Bump(t, at.job, j', at.expected)
  }

  function MarkDelivered(t: Tables, at: Target, key: string, now: int): Result<Tables, Error> {
    if Trim(key) == "" then Rejected(IdempotencyKeyRequired)
    else
      var j :- RequireJob(t, at.org, at.store, at.job);
      var claim :- ClaimKey(t, IdempotencyKey(at.org, DeliverKey, Trim(key)), at.job);
      if claim.replay && j.status.Delivered? then Ok(t)
      else
        :- AssertCanDeliver(j.status);
        Bump(claim.tables, at.job, j.(status := Delivered, deliveredAt := Some(now)), at.expected)
  }

  function CancelDelivery(t: Tables, at: Target, key: string, now: int): Result<Tables, Error> {
    if Trim(key) == "" then Rejected(IdempotencyKeyRequired)
    else
      var j :- RequireJob(t, at.org, at.store, at.job);
      var claim :- ClaimKey(t, IdempotencyKey(at.org, CancelKey, Trim(key)), at.job);
      if claim.replay && j.status.Cancelled? then Ok(t)
      else
        :- AssertCanCancel(j.status);
        var t1 := ReleaseActiveAssignment(claim.tables, at.org, at.job, now);
        Bump(t1, at.job, j.(status := Cancelled, cancelledAt := Some(now), courier := None), at.expected)
  }

  // -------------------------------------------------------------- problems

  function ReportProblem(t: Tables, at: Target, now: int): Result<Tables, Error> {
    var j :- RequireJob(t, at.org, at.store, at.job);
    :- AssertCanReportProblem(j.status);
    var t1 := t.(problems := t.problems + [ProblemRecord(at.org, at.job, now, OpenProblem, None, None)]);
    Bump(t1, at.job, j.(status := Problem), at.expected)
  }

  function GetProblem(t: Tables, org: nat, job: nat, problem: nat): (r: Option<ProblemRecord>)
    ensures r.Some? ==> problem < |t.problems| && r.value == t.problems[problem] && r.value.org == org && r.value.job == job
  {
    if problem < |t.problems| && t.problems[problem].org == org && t.problems[problem].job == job then Some(t.problems[problem])
    else None
  }

  function ResolvedRecord(p: ProblemRecord, resolveTo: Status, now: int): ProblemRecord {
    p.(status := ResolvedProblem, resolveTo := Some(resolveTo), resolvedAt := Some(now))
  }

  function AfterResolution(j: Job, resolveTo: Status, now: int): Job {
    j.(status := resolveTo,
       deliveredAt := if resolveTo.Delivered? then Some(now) else j.deliveredAt,
       cancelledAt := if resolveTo.Cancelled? then Some(now) else j.cancelledAt)
  }

  function ResolveProblem(t: Tables, at: Target, problem: nat, resolveTo: Status, key: string, now: int): Result<Tables, Error> {
    if Trim(key) == "" then Rejected(IdempotencyKeyRequired)
    else
      var j :- RequireJob(t, at.org, at.store, at.job);
      var claim :- ClaimKey(t, IdempotencyKey(at.org, ResolveProblemKey, Trim(key)), problem);
      var p := GetProblem(t, at.org, at.job, problem);
      if p.None? then Rejected(ProblemNotFound)
      else if claim.replay && p.value.status.ResolvedProblem? then Ok(t)
      else
        :- AssertCanResolveProblem(resolveTo);
        var t1 := claim.tables.(problems := t.problems[problem := ResolvedRecord(p.value, resolveTo, now)]);
        Bump(t1, at.job, AfterResolution(j, resolveTo, now), at.expected)
  }

  // ------------------------------------------- calls from the order module

  /** Calls made of several transactions can fail after some of them have committed. */
  datatype Outcome = Outcome(tables: Tables, error: Option<Error>)

  function Commit(t: Tables, r: Result<Tables, Error>): Outcome {
    match r
    case Ok(t') => Outcome(t', None)
    case Rejected(e) => Outcome(t, Some(e))
  }

  /** runInTransaction refuses to start inside a transaction that is already open. */
  function Transact(t: Tables, nested: bool, r: Result<Tables, Error>): Outcome {
    if nested then Outcome(t, Some(NestedTransaction)) else Commit(t, r)
  }

  function OrderMarkedReady(t: Tables, o: OrderRef, nested: bool): Outcome {
    match FindActive(t, o.org, o.order)
    case None => Outcome(t, None)
    case Some(i) =>
      var j := t.jobs[i];
      if j.store != o.store || !(j.status.Planned? || j.status.Assigned?) then Outcome(t, None)
      else Transact(t, nested, Bump(t, i, j.(status := ReadyForDispatch), j.version))
  }

  /** The key the switch to pickup makes up for the cancellation it asks for. */
  function PickupKey(job: nat, version: nat): string {
    "fulfillment-pickup-" + Digits(job) + "-" + Digits(version)
  }

  function SwitchToPickup(t: Tables, o: OrderRef, nested: bool, now: int): Outcome {
    match FindActive(t, o.org, o.order)
    case None => Outcome(t, None)
    case Some(i) =>
      var j := t.jobs[i];
      var allowed := AssertSwitchToPickupAllowed(j.status, j.handedOverAt);
      if allowed.Fail? then Outcome(t, Some(allowed.error))
      else Transact(t, nested, CancelDelivery(t, Target(o.org, o.store, i, j.version), PickupKey(i, j.version), now))
  }

  datatype DeliveryRequest = DeliveryRequest(addressLine: string, readyAt: Option<int>, bufferMinutes: int, answer: GeocoderAnswer)

  const TWO_HOURS := 2 * 60 * 60 * 1000

  function DraftFor(r: DeliveryRequest, now: int): JobDraft {
    var ready := OrElse(r.readyAt, now);
    JobDraft(OwnCourier, ready, ready + TWO_HOURS, None, r.bufferMinutes, r.addressLine, 0, None)
  }

  function NoEdit(bufferMinutes: int): PlanEdit {
    PlanEdit(None, None, None, bufferMinutes, None, None, None)
  }

  /** Three transactions: create, plan, and a lookup of the address whose failure is swallowed. */
  function EnsureDelivery(t: Tables, o: OrderRef, r: DeliveryRequest, nested: bool, now: int): Outcome {
    if FindActive(t, o.org, o.order).Some? then Outcome(t, None)
    else
      var created := CreateDelivery(t, o, DraftFor(r, now));
      if created.Rejected? then Outcome(t, Some(created.error))
      else if nested then Outcome(t, Some(NestedTransaction))
      else
        var planned := PlanDelivery(created.value, Target(o.org, o.store, |t.jobs|, 1), NoEdit(r.bufferMinutes));
        if planned.Rejected? then Outcome(created.value, Some(planned.error))
        else
          var at := Target(o.org, o.store, |t.jobs|, planned.value.jobs[|t.jobs|].version);
          Outcome(Commit(planned.value, Geocode(planned.value, at, r.answer)).tables, None)
  }

  function SwitchFulfillment(t: Tables, o: OrderRef, wasDelivery: bool, isDelivery: bool, r: DeliveryRequest, nested: bool, now: int)
    : Outcome
  {
    if wasDelivery == isDelivery then Outcome(t, None)
    else if !isDelivery then SwitchToPickup(t, o, nested, now)
    else if Trim(r.addressLine) == "" then Outcome(t, Some(AddressRequired))
    else EnsureDelivery(t, o, r, nested, now)
  }
}
