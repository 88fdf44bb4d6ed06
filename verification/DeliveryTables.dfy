/**
 The delivery tables and the repository writes. Row identifiers are row positions: rows are created and
 updated, never deleted. Times are milliseconds; fees are exact hundredths.
 */
module DeliveryTables {
  import opened Wrappers
  import opened Sequences
  import opened DeliveryRules

  datatype Place = Place(latitude: string, longitude: string)

  datatype GeocodingStatus = NotRequested | Pending | Resolved | Failed | Manual

  datatype AddressSource = TypedIn | Geocoded | UserPin

  datatype Job = Job(
    org: nat, store: nat, order: nat, status: Status, deliveryMethod: Method,
    windowStart: int, windowEnd: int, requiredDispatchAt: Option<int>, fee: int,
    addressLine: string, place: Option<Place>, geocoding: GeocodingStatus, addressSource: Option<AddressSource>,
    externalReference: Option<string>, courier: Option<nat>,
    handedOverAt: Option<int>, departedAt: Option<int>, deliveredAt: Option<int>, cancelledAt: Option<int>,
    version: nat)

  datatype Assignment = Assignment(org: nat, job: nat, courier: nat, assignedAt: int, releasedAt: Option<int>)

  datatype ProblemStatus = OpenProblem | ResolvedProblem

  datatype ProblemRecord = ProblemRecord(
    org: nat, job: nat, reportedAt: int, status: ProblemStatus, resolveTo: Option<Status>, resolvedAt: Option<int>)

  datatype Courier = Courier(org: nat, membership: nat, status: CourierStatus)

  /** What the delivery module reads of an order. */
  datatype Order = Order(org: nat, store: nat, isDelivery: bool, isReady: bool)

  datatype KeyScope = DeliverKey | CancelKey | ResolveProblemKey

  datatype IdempotencyKey = IdempotencyKey(org: nat, scope: KeyScope, key: string)

  datatype Tables = Tables(
    orders: seq<Order>, jobs: seq<Job>, assignments: seq<Assignment>, problems: seq<ProblemRecord>,
    couriers: seq<Courier>, keys: map<IdempotencyKey, nat>)

  const EMPTY := Tables([], [], [], [], [], map[])

  // ------------------------------------------------------------------ jobs

  function RequireJob(t: Tables, org: nat, store: nat, job: nat): (r: Result<Job, Error>)
    ensures r.Ok? ==> job < |t.jobs| && r.value == t.jobs[job] && r.value.org == org && r.value.store == store
  {
    if job < |t.jobs| && t.jobs[job].org == org && t.jobs[job].store == store then Ok(t.jobs[job])
    else Rejected(DeliveryNotFound)
  }

  predicate Active(j: Job) {
    !j.status.Cancelled?
  }

  /** The partial unique index: an order has at most one job that is not cancelled. */
  predicate IndexAdmits(jobs: seq<Job>, job: nat, j: Job) {
    Active(j) ==> forall x :: 0 <= x < |jobs| && x != job && Active(jobs[x]) ==> jobs[x].order != j.order
  }

  function AddJob(t: Tables, j: Job): Result<Tables, Error> {
    if !IndexAdmits(t.jobs, |t.jobs|, j) then Rejected(ConstraintViolation)
    else Ok(t.(jobs := t.jobs + [j]))
  }

  /** updateJob and bump: the row is replaced only when it still has the expected version. */
  function Bump(t: Tables, job: nat, j: Job, expected: int): (r: Result<Tables, Error>)
    requires job < |t.jobs|
    ensures r.Ok? ==> |r.value.jobs| == |t.jobs|
  {
    if t.jobs[job].version != expected then Rejected(VersionConflict)
    else if !IndexAdmits(t.jobs, job, j) then Rejected(ConstraintViolation)
    else Ok(t.(jobs := t.jobs[job := j.(version := expected + 1)]))
  }

  function ActiveFor(org: nat, order: nat): Job -> bool {
    (j: Job) => j.org == org && j.order == order && Active(j)
  }

  function FindActive(t: Tables, org: nat, order: nat): (job: Option<nat>)
    ensures job.Some? ==> job.value < |t.jobs| && ActiveFor(org, order)(t.jobs[job.value])
    ensures job.None? ==> forall i :: 0 <= i < |t.jobs| ==> !ActiveFor(org, order)(t.jobs[i])
  {
    FindFirst(t.jobs, ActiveFor(org, order))
  }

  function FindOrder(t: Tables, org: nat, store: nat, order: nat): (r: Option<Order>)
    ensures r.Some? ==> order < |t.orders| && r.value == t.orders[order] && r.value.org == org && r.value.store == store
  {
    if order < |t.orders| && t.orders[order].org == org && t.orders[order].store == store then Some(t.orders[order]) else None
  }

  // ----------------------------------------------------------- assignments

  function OpenFor(job: nat): Assignment -> bool {
    (a: Assignment) => a.job == job && a.releasedAt.None?
  }

  function OpenIn(org: nat, job: nat): Assignment -> bool {
    (a: Assignment) => a.org == org && a.job == job && a.releasedAt.None?
  }

  function ReleaseActiveAssignment(t: Tables, org: nat, job: nat, now: int): Tables {
    match FindFirst(t.assignments, OpenIn(org, job))
    case None => t
    case Some(a) => t.(assignments := t.assignments[a := t.assignments[a].(releasedAt := Some(now))])
  }

  /** The partial unique index: a job has at most one unreleased assignment. */
  function AddAssignment(t: Tables, a: Assignment): Result<Tables, Error> {
    if FindFirst(t.assignments, OpenFor(a.job)).Some? then Rejected(ConstraintViolation)
    else Ok(t.(assignments := t.assignments + [a]))
  }

  // -------------------------------------------------------------- couriers

  function OfMembership(org: nat, membership: nat): Courier -> bool {
    (c: Courier) => c.org == org && c.membership == membership
  }

  function AddCourier(t: Tables, org: nat, membership: nat): Result<Tables, Error> {
    if FindFirst(t.couriers, OfMembership(org, membership)).Some? then Rejected(ConstraintViolation)
    else Ok(t.(couriers := t.couriers + [Courier(org, membership, ActiveCourier)]))
  }

  function GetCourier(t: Tables, org: nat, courier: nat): (r: Option<Courier>)
    ensures r.Some? ==> courier < |t.couriers| && r.value == t.couriers[courier] && r.value.org == org
  {
    if courier < |t.couriers| && t.couriers[courier].org == org then Some(t.couriers[courier]) else None
  }

  function SetCourierStatus(t: Tables, courier: nat, status: CourierStatus): Tables
    requires courier < |t.couriers|
  {
    t.(couriers := t.couriers[courier := t.couriers[courier].(status := status)])
  }

  // ------------------------------------------------------- idempotency keys

  /** Whether the call is a replay, and the tables with the key bound to its document. */
  datatype Claim = Claim(replay: bool, tables: Tables)

  function ClaimKey(t: Tables, k: IdempotencyKey, document: nat): (r: Result<Claim, Error>)
    ensures r.Ok? && r.value.replay ==> r.value.tables == t && k in t.keys && t.keys[k] == document
    ensures r.Ok? && !r.value.replay ==> k !in t.keys && r.value.tables == t.(keys := t.keys[k := document])
  {
    if k !in t.keys then Ok(Claim(false, t.(keys := t.keys[k := document])))
    else if t.keys[k] != document then Rejected(IdempotencyKeyReused)
    else Ok(Claim(true, t))
  }
}
