/** The pure guards and status functions of a delivery job. */
module DeliveryRules {
  import opened Wrappers

  datatype Status =
    | Draft
    | Planned
    | ReadyForDispatch
    | Assigned
    | InTransit
    | Delivered
    | Problem
    | Cancelled

  datatype Method = OwnCourier | Taxi | ThirdPartyService

  datatype CourierStatus = ActiveCourier | InactiveCourier | ArchivedCourier

  datatype Error =
    | DeliveryNotFound
    | OrderNotFound
    | CourierNotFound
    | ProblemNotFound
    | OrderNotDelivery
    | ActiveDeliveryExists
    | AddressRequired
    | InvalidTimeWindow
    | InvalidDeliveryFee
    | IdempotencyKeyRequired
    | IdempotencyKeyReused
    | VersionConflict
    | InvalidStatusTransition
    | CannotAssign
    | CourierNotActive
    | CourierOrgMismatch
    | OrderNotReady
    | ExternalReferenceRequired
    | InvalidResolveStatus
    | FulfillmentChangeForbidden
    | GeocoderUnavailable
    | NestedTransaction
    | ConstraintViolation

  predicate Terminal(s: Status) {
    s.Delivered? || s.Cancelled?
  }

  function AssertTimeWindowValid(windowStart: int, windowEnd: int): Check<Error> {
    if windowEnd < windowStart then Fail(InvalidTimeWindow) else Pass
  }

  function AssertDeliveryFeeNonNegative(fee: int): Check<Error> {
    if fee < 0 then Fail(InvalidDeliveryFee) else Pass
  }

  function ComputeRequiredDispatchAt(windowStart: int, bufferMinutes: int): int {
    windowStart - bufferMinutes * 60_000
  }

  function AssertCanPlan(s: Status): Check<Error> {
    if s.Draft? || s.Planned? then Pass else Fail(InvalidStatusTransition)
  }

  function AssertCanAssign(s: Status, courier: CourierStatus, courierOrg: nat, deliveryOrg: nat): Check<Error> {
    if Terminal(s) || s.InTransit? then Fail(CannotAssign)
    else if !(s.Planned? || s.ReadyForDispatch? || s.Assigned?) && !s.Draft? then Fail(CannotAssign)
    else if !courier.ActiveCourier? then Fail(CourierNotActive)
    else if courierOrg != deliveryOrg then Fail(CourierOrgMismatch)
    else Pass
  }

  function AssertCanMarkReadyForDispatch(s: Status, orderIsReady: bool): Check<Error> {
    if !orderIsReady then Fail(OrderNotReady)
    else if s.Planned? || s.Assigned? || s.ReadyForDispatch? then Pass
    else Fail(InvalidStatusTransition)
  }

  predicate Dispatchable(s: Status) {
    s.ReadyForDispatch? || s.Assigned?
  }

  function AssertCanHandover(s: Status, orderIsReady: bool): Check<Error> {
    if !orderIsReady then Fail(OrderNotReady)
    else if Dispatchable(s) then Pass
    else Fail(InvalidStatusTransition)
  }

  function AssertCanStartTransit(s: Status, deliveryMethod: Method, hasActiveAssignment: bool, hasExternalReference: bool): Check<Error> {
    if !Dispatchable(s) && !s.InTransit? then Fail(InvalidStatusTransition)
    else if (deliveryMethod.Taxi? || deliveryMethod.ThirdPartyService?) && !hasActiveAssignment && !hasExternalReference then
      Fail(ExternalReferenceRequired)
    else Pass
  }

  function AssertCanDeliver(s: Status): Check<Error> {
    if s.InTransit? || s.Problem? then Pass else Fail(InvalidStatusTransition)
  }

  function AssertCanCancel(s: Status): Check<Error> {
    if Terminal(s) then Fail(InvalidStatusTransition) else Pass
  }

  function AssertCanReportProblem(s: Status): Check<Error> {
    if s.Planned? || s.ReadyForDispatch? || s.Assigned? || s.InTransit? then Pass else Fail(InvalidStatusTransition)
  }

  /** Only the target is looked at: not the job's own status, and not the problem's. */
  function AssertCanResolveProblem(resolveTo: Status): Check<Error> {
    if resolveTo.Planned? || resolveTo.Assigned? || resolveTo.InTransit? || Terminal(resolveTo) then Pass
    else Fail(InvalidResolveStatus)
  }

  function AssertSwitchToPickupAllowed(s: Status, handedOverAt: Option<int>): Check<Error> {
    if handedOverAt.Some? || s.InTransit? || s.Delivered? then Fail(FulfillmentChangeForbidden) else Pass
  }

  function StatusAfterAssign(current: Status): Status {
    if current.ReadyForDispatch? then ReadyForDispatch else Assigned
  }
}
