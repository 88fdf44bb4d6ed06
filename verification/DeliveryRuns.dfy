/** Whole runs of the delivery commands, each a serial transaction (or a short series of them). */
module DeliveryRuns {
  import opened Wrappers
  import opened Sequences
  import opened Text
  import opened DeliveryRules
  import opened DeliveryTables
  import opened DeliveryInvariant
  import opened DeliveryCommands
  import opened DeliveryCommandProofs

  /** The last two stand for the order module: an order appears, or its type and readiness change. */
  datatype Command =
    | Create(o: OrderRef, draft: JobDraft)
    | Plan(at: Target, edit: PlanEdit)
    | ChangeAddress(at: Target, addressLine: string)
    | Locate(at: Target, answer: GeocoderAnswer)
    | PlacePin(at: Target, place: Place)
    | Assign(at: Target, courier: nat, now: int)
    | Unassign(at: Target, now: int)
    | MarkReady(at: Target)
    | HandOver(at: Target, now: int)
    | Depart(at: Target, now: int)
    | Deliver(at: Target, key: string, now: int)
    | Cancel(at: Target, key: string, now: int)
    | Report(at: Target, now: int)
    | Resolve(at: Target, problem: nat, resolveTo: Status, key: string, now: int)
    | OrderReady(o: OrderRef, nested: bool)
    | SwitchType(o: OrderRef, wasDelivery: bool, isDelivery: bool, request: DeliveryRequest, nested: bool, now: int)
    | Ensure(o: OrderRef, request: DeliveryRequest, nested: bool, now: int)
    | AddCourierProfile(org: nat, membership: nat)
    | Archive(org: nat, profile: nat)
    | Sync(org: nat, membership: nat, isCourier: bool)
    | OrderPlaced(order: Order)
    | OrderChanged(id: nat, isDelivery: bool, isReady: bool)

  function Execute(t: Tables, c: Command): Outcome {
    match c
    case Create(o, d) => Commit(t, CreateDelivery(t, o, d))
    case Plan(at, e) => Commit(t, PlanDelivery(t, at, e))
    case ChangeAddress(at, line) => Commit(t, UpdateAddress(t, at, line))
    case Locate(at, answer) => Commit(t, Geocode(t, at, answer))
    case PlacePin(at, place) => Commit(t, SetCoordinates(t, at, place))
    case Assign(at, courier, now) => Commit(t, AssignCourier(t, at, courier, now))
    case Unassign(at, now) => Commit(t, ReleaseCourier(t, at, now))
    case MarkReady(at) => Commit(t, MarkReadyForDispatch(t, at))
    case HandOver(at, now) => Commit(t, Handover(t, at, now))
    case Depart(at, now) => Commit(t, StartTransit(t, at, now))
    case Deliver(at, key, now) => Commit(t, MarkDelivered(t, at, key, now))
    case Cancel(at, key, now) => Commit(t, CancelDelivery(t, at, key, now))
    case Report(at, now) => Commit(t, ReportProblem(t, at, now))
    case Resolve(at, problem, to, key, now) => Commit(t, ResolveProblem(t, at, problem, to, key, now))
    case OrderReady(o, nested) => OrderMarkedReady(t, o, nested)
    case SwitchType(o, was, now', r, nested, now) => SwitchFulfillment(t, o, was, now', r, nested, now)
    case Ensure(o, r, nested, now) => EnsureDelivery(t, o, r, nested, now)
    case AddCourierProfile(org, m) => Commit(t, CreateCourier(t, org, m))
    case Archive(org, profile) => Commit(t, ArchiveCourier(t, org, profile))
    case Sync(org, m, isCourier) => Commit(t, SyncCourier(t, org, m, isCourier))
    case OrderPlaced(order) => Outcome(t.(orders := t.orders + [order]), None)
    case OrderChanged(id, isDelivery, isReady) =>
      if id >= |t.orders| then Outcome(t, Some(OrderNotFound))
      else Outcome(t.(orders := t.orders[id := t.orders[id].(isDelivery := isDelivery, isReady := isReady)]), None)
  }

  function Step(t: Tables, c: Command): Tables {
    Execute(t, c).tables
  }

  function Run(t: Tables, cs: seq<Command>): Tables
    decreases cs
  {
    if cs == [] then t else Run(Step(t, cs[0]), cs[1..])
  }

  lemma {:induction false} RunAppend(t: Tables, cs: seq<Command>, c: Command)
    ensures Run(t, cs + [c]) == Step(Run(t, cs), c)
    decreases cs
  {
    if cs == [] {
      assert ([] + [c])[1..] == [];
    } else {
      assert (cs + [c])[1..] == cs[1..] + [c];
      RunAppend(Step(t, cs[0]), cs[1..], c);
    }
  }

  // --------------------------------------------------------- the invariant

  lemma OrdersKeepInv(t: Tables, orders: seq<Order>)
    requires Inv(t) && |t.orders| <= |orders|
    requires forall x :: 0 <= x < |t.orders| ==> orders[x].org == t.orders[x].org && orders[x].store == t.orders[x].store
    ensures Inv(t.(orders := orders))
  {
    forall i | 0 <= i < |t.jobs| ensures JobInv(t.(orders := orders), i) {
      assert JobInv(t, i);
    }
  }

  lemma JobCommandKeepsInv(t: Tables, c: Command)
    requires Inv(t) && TargetOf(c).Some? && Step(t, c) != t
    ensures Inv(Step(t, c))
  {
    hide Inv;
    match c
    case Plan(at, e) => PlanKeepsInv(t, at, e);
    case ChangeAddress(at, line) => UpdateAddressKeepsInv(t, at, line);
    case Locate(at, answer) => GeocodeKeepsInv(t, at, answer);
    case PlacePin(at, place) => SetCoordinatesKeepsInv(t, at, place);
    case Assign(at, courier, now) => AssignKeepsInv(t, at, courier, now);
    case Unassign(at, now) => ReleaseKeepsInv(t, at, now);
    case MarkReady(at) => MarkReadyKeepsInv(t, at);
    case HandOver(at, now) => HandoverKeepsInv(t, at, now);
    case Depart(at, now) => StartTransitKeepsInv(t, at, now);
    case Deliver(at, key, now) => MarkDeliveredKeepsInv(t, at, key, now);
    case Cancel(at, key, now) => CancelKeepsInv(t, at, key, now);
    case Report(at, now) => ReportKeepsInv(t, at, now);
    case Resolve(at, problem, to, key, now) => ResolveKeepsInv(t, at, problem, to, key, now);
    case _ =>
  }

  lemma StepKeepsInv(t: Tables, c: Command)
    requires Inv(t)
    ensures Inv(Step(t, c))
  {
    if TargetOf(c).Some? {
      if Step(t, c) != t { JobCommandKeepsInv(t, c); }
    } else if Step(t, c) != t {
      match c
      case Create(o, d) => CreateKeepsInv(t, o, d);
      case OrderReady(o, nested) => MarkedReadyKeepsInv(t, o, nested);
      case SwitchType(o, was, now', r, nested, now) => SwitchKeepsInv(t, o, was, now', r, nested, now);
      case Ensure(o, r, nested, now) => EnsureKeepsInv(t, o, r, nested, now);
      case AddCourierProfile(org, m) => CourierCommandsKeepInv(t, CreateCourier(t, org, m), org, m, true);
      case Archive(org, p) => CourierCommandsKeepInv(t, ArchiveCourier(t, org, p), org, p, true);
      case Sync(org, m, isCourier) => CourierCommandsKeepInv(t, SyncCourier(t, org, m, isCourier), org, m, isCourier);
      case OrderPlaced(order) => OrdersKeepInv(t, t.orders + [order]);
      case OrderChanged(id, d, r) => OrdersKeepInv(t, Step(t, c).orders);
      case _ =>
    }
  }

  lemma {:induction false} RunKeepsInv(t: Tables, cs: seq<Command>)
    requires Inv(t)
    ensures Inv(Run(t, cs))
    decreases cs
  {
    if cs != [] {
      StepKeepsInv(t, cs[0]);
      RunKeepsInv(Step(t, cs[0]), cs[1..]);
    }
  }

  /**
   In every reachable state a job has at most one unreleased assignment, and its courier is that
   assignment's courier: none exactly when there is no such assignment.
   */
  lemma CourierIsTheOpenAssignment(cs: seq<Command>, i: nat, a: nat)
    requires i < |Run(EMPTY, cs).jobs| && a < |Run(EMPTY, cs).assignments|
    requires OpenFor(i)(Run(EMPTY, cs).assignments[a])
    ensures var t := Run(EMPTY, cs);
      && t.jobs[i].courier == Some(t.assignments[a].courier)
      && forall b :: 0 <= b < |t.assignments| && OpenFor(i)(t.assignments[b]) ==> b == a
  {
    RunKeepsInv(EMPTY, cs);
    assert JobInv(Run(EMPTY, cs), i);
  }

  lemma NoCourierWithoutAssignment(cs: seq<Command>, i: nat)
    requires i < |Run(EMPTY, cs).jobs| && Run(EMPTY, cs).jobs[i].courier.Some?
    ensures var t := Run(EMPTY, cs);
      exists a :: 0 <= a < |t.assignments| && OpenFor(i)(t.assignments[a]) && t.assignments[a].courier == t.jobs[i].courier.value
  {
    var t := Run(EMPTY, cs);
    RunKeepsInv(EMPTY, cs);
    assert JobInv(t, i);
    var a :| 0 <= a < |t.assignments| && OnlyOpen(t.assignments, i, a) && t.assignments[a].courier == t.jobs[i].courier.value;
    assert OpenFor(i)(t.assignments[a]);
  }

  /** What a status tells in every reachable state. */
  lemma StatusIsBackedByItsMarks(cs: seq<Command>, i: nat)
    requires i < |Run(EMPTY, cs).jobs|
    ensures var t := Run(EMPTY, cs); var j := t.jobs[i];
      && (j.status.Problem? ==> HasOpenProblem(t.problems, i))
      && (j.status.Delivered? ==> j.deliveredAt.Some?)
      && (j.status.Cancelled? ==> j.cancelledAt.Some?)
      && (j.status.InTransit? || j.status.Delivered? ==> j.departedAt.Some? || HasProblem(t.problems, i))
      && (j.departedAt.Some? ==> j.handedOverAt.Some?)
      && j.windowStart <= j.windowEnd && LocationOk(j)
  {
    RunKeepsInv(EMPTY, cs);
    assert JobInv(Run(EMPTY, cs), i);
  }

  // ------------------------------------------------ what a step does to a job

  /** The job and version a command names. */
  function TargetOf(c: Command): Option<Target> {
    match c
    case Plan(at, _) => Some(at)
    case ChangeAddress(at, _) => Some(at)
    case Locate(at, _) => Some(at)
    case PlacePin(at, _) => Some(at)
    case Assign(at, _, _) => Some(at)
    case Unassign(at, _) => Some(at)
    case MarkReady(at) => Some(at)
    case HandOver(at, _) => Some(at)
    case Depart(at, _) => Some(at)
    case Deliver(at, _, _) => Some(at)
    case Cancel(at, _, _) => Some(at)
    case Report(at, _) => Some(at)
    case Resolve(at, _, _, _, _) => Some(at)
    case _ => None
  }

  predicate StaysSet(before: Option<int>, after: Option<int>) {
    before.Some? ==> after.Some?
  }

  predicate MarksKept(j: Job, j': Job) {
    && StaysSet(j.handedOverAt, j'.handedOverAt) && StaysSet(j.departedAt, j'.departedAt)
    && StaysSet(j.deliveredAt, j'.deliveredAt) && StaysSet(j.cancelledAt, j'.cancelledAt)
  }

  /** The transitions each command makes; a resolution goes to its target from anywhere. */
  predicate StatusMoves(c: Command, s: Status, s': Status) {
    match c
    case Plan(_, _) => s.Draft? && s'.Planned?
    case Assign(_, _, _) => (s.Draft? || s.Planned?) && s'.Assigned?
    case Unassign(_, _) => s.Assigned? && s'.Planned?
    case MarkReady(_) => (s.Planned? || s.Assigned?) && s'.ReadyForDispatch?
    case OrderReady(_, _) => (s.Planned? || s.Assigned?) && s'.ReadyForDispatch?
    case Depart(_, _) => (s.ReadyForDispatch? || s.Assigned?) && s'.InTransit?
    case Deliver(_, _, _) => (s.InTransit? || s.Problem?) && s'.Delivered?
    case Cancel(_, _, _) => !Terminal(s) && s'.Cancelled?
    case SwitchType(_, _, _, _, _, _) => !Terminal(s) && !s.InTransit? && s'.Cancelled?
    case Report(_, _) => (s.Planned? || s.ReadyForDispatch? || s.Assigned? || s.InTransit?) && s'.Problem?
    case Resolve(_, _, resolveTo, _, _) => s' == resolveTo && !s'.Draft? && !s'.ReadyForDispatch? && !s'.Problem?
    case _ => false
  }

  /** Each timestamp is written by its own commands only, with the time of the command. */
  predicate StampsTell(c: Command, j: Job, j': Job) {
    && (j'.handedOverAt != j.handedOverAt ==>
          (c.HandOver? || (c.Depart? && j.handedOverAt.None?)) && j'.handedOverAt == Some(c.now))
    && (j'.departedAt != j.departedAt ==> c.Depart? && j'.departedAt == Some(c.now))
    && (j'.deliveredAt != j.deliveredAt ==>
          (c.Deliver? || (c.Resolve? && c.resolveTo.Delivered?)) && j'.deliveredAt == Some(c.now))
    && (j'.cancelledAt != j.cancelledAt ==>
          (c.Cancel? || c.SwitchType? || (c.Resolve? && c.resolveTo.Cancelled?)) && j'.cancelledAt == Some(c.now))
  }

  /** A cancelled job holds no courier, and a job in ASSIGNED has one. */
  predicate CourierFits(j: Job) {
    (j.status.Cancelled? ==> j.courier.None?) && (j.status.Assigned? ==> j.courier.Some?)
  }

  /** A job is left alone, or it is the one the command names, at the version it names. */
  predicate JobStep(c: Command, i: nat, j: Job, j': Job) {
    j' == j
    || (&& SamePlace(j, j') && MarksKept(j, j') && StampsTell(c, j, j')
        && (j'.status == j.status || StatusMoves(c, j.status, j'.status))
        && j'.version == j.version + (if c.Locate? then 2 else 1)
        && (TargetOf(c).Some? ==> TargetOf(c).value.job == i && TargetOf(c).value.expected == j.version)
        && (if c.Resolve? then j'.status == c.resolveTo && j'.courier == j.courier
            else (Terminal(j.status) ==> j'.status == j.status) && (CourierFits(j) ==> CourierFits(j'))))
  }

  predicate JobsStep(c: Command, before: seq<Job>, after: seq<Job>) {
    |before| <= |after| && forall i :: 0 <= i < |before| ==> JobStep(c, i, before[i], after[i])
  }

  lemma PlanningStep(t: Tables, c: Command)
    requires c.Plan? || c.ChangeAddress? || c.PlacePin?
    ensures JobsStep(c, t.jobs, Step(t, c).jobs)
  {
  }

  lemma UnassignStep(t: Tables, c: Command)
    requires c.Unassign?
    ensures JobsStep(c, t.jobs, Step(t, c).jobs)
  {
  }

  lemma OneJobStep(c: Command, before: seq<Job>, i: nat, j: Job)
    requires i < |before| && JobStep(c, i, before[i], j)
    ensures JobsStep(c, before, before[i := j])
  {
  }

  lemma AssignJobs(t: Tables, at: Target, courier: nat, now: int)
    requires AssignCourier(t, at, courier, now).Ok?
    ensures at.job < |t.jobs| && t.jobs[at.job].version == at.expected
    ensures var j := t.jobs[at.job];
      && (j.status.Draft? || j.status.Planned? || j.status.Assigned? || j.status.ReadyForDispatch?)
      && AssignCourier(t, at, courier, now).value.jobs
      == t.jobs[at.job := j.(courier := Some(courier), status := StatusAfterAssign(j.status), version := at.expected + 1)]
  {
  }

  lemma AssignStep(t: Tables, c: Command)
    requires c.Assign?
    ensures JobsStep(c, t.jobs, Step(t, c).jobs)
  {
    hide AssignCourier;
    if AssignCourier(t, c.at, c.courier, c.now).Ok? {
      AssignJobs(t, c.at, c.courier, c.now);
      OneJobStep(c, t.jobs, c.at.job, Step(t, c).jobs[c.at.job]);
    }
  }

  lemma MarkReadyStep(t: Tables, c: Command)
    requires c.MarkReady?
    ensures JobsStep(c, t.jobs, Step(t, c).jobs)
  {
  }

  lemma HandOverStep(t: Tables, c: Command)
    requires c.HandOver?
    ensures JobsStep(c, t.jobs, Step(t, c).jobs)
  {
  }

  lemma DepartStep(t: Tables, c: Command)
    requires c.Depart?
    ensures JobsStep(c, t.jobs, Step(t, c).jobs)
  {
  }

  lemma ReportStep(t: Tables, c: Command)
    requires c.Report?
    ensures JobsStep(c, t.jobs, Step(t, c).jobs)
  {
  }

  lemma DeliverStep(t: Tables, c: Command)
    requires c.Deliver?
    ensures JobsStep(c, t.jobs, Step(t, c).jobs)
  {
  }

  lemma CancelJobs(t: Tables, at: Target, key: string, now: int)
    requires CancelDelivery(t, at, key, now).Ok?
    ensures at.job < |t.jobs|
    ensures var j, jobs' := t.jobs[at.job], CancelDelivery(t, at, key, now).value.jobs;
      || (jobs' == t.jobs && j.status.Cancelled?)
      || (&& !Terminal(j.status) && j.version == at.expected
          && jobs' == t.jobs[at.job := CancelledJob(j, now).(version := j.version + 1)])
  {
  }

  lemma CancelStep(t: Tables, c: Command)
    requires c.Cancel?
    ensures JobsStep(c, t.jobs, Step(t, c).jobs)
  {
    if CancelDelivery(t, c.at, c.key, c.now).Ok? {
      CancelJobs(t, c.at, c.key, c.now);
    }
  }

  lemma ResolveStep(t: Tables, c: Command)
    requires c.Resolve?
    ensures JobsStep(c, t.jobs, Step(t, c).jobs)
  {
  }

  lemma LocateStep(t: Tables, c: Command)
    requires c.Locate?
    ensures JobsStep(c, t.jobs, Step(t, c).jobs)
  {
    if Step(t, c) != t {
      GeocodeEffect(t, c.at, c.answer);
    }
  }

  lemma SwitchCancelStep(t: Tables, c: Command, at: Target, key: string)
    requires c.SwitchType? && CancelDelivery(t, at, key, c.now).Ok?
    requires at.job < |t.jobs| && !t.jobs[at.job].status.InTransit?
    ensures JobsStep(c, t.jobs, CancelDelivery(t, at, key, c.now).value.jobs)
  {
    CancelJobs(t, at, key, c.now);
  }

  /** A switch to pickup does nothing, or cancels one job that has not left yet. */
  lemma PickupIsCancel(t: Tables, o: OrderRef, nested: bool, now: int) returns (at: Target, key: string)
    ensures var t' := SwitchToPickup(t, o, nested, now).tables;
      t' == t || (&& CancelDelivery(t, at, key, now).Ok? && t' == CancelDelivery(t, at, key, now).value
                  && at.job < |t.jobs| && !t.jobs[at.job].status.InTransit?)
  {
    at, key := Target(o.org, o.store, 0, 0), "";
    var found := FindActive(t, o.org, o.order);
    if found.Some? {
      at := Target(o.org, o.store, found.value, t.jobs[found.value].version);
      key := PickupKey(found.value, t.jobs[found.value].version);
    }
  }

  lemma PickupStep(t: Tables, c: Command)
    requires c.SwitchType?
    ensures JobsStep(c, t.jobs, SwitchToPickup(t, c.o, c.nested, c.now).tables.jobs)
    ensures |SwitchToPickup(t, c.o, c.nested, c.now).tables.jobs| == |t.jobs|
  {
    var at, key := PickupIsCancel(t, c.o, c.nested, c.now);
    if SwitchToPickup(t, c.o, c.nested, c.now).tables != t {
      SwitchCancelStep(t, c, at, key);
      CancelJobs(t, at, key, c.now);
    }
  }

  /** Ensuring a delivery only adds a job, and touches nothing else. */
  lemma EnsureAddsOnly(t: Tables, o: OrderRef, r: DeliveryRequest, nested: bool, now: int)
    ensures var t' := EnsureDelivery(t, o, r, nested, now).tables; t.jobs <= t'.jobs && t' == t.(jobs := t'.jobs)
  {
    var created := CreateDelivery(t, o, DraftFor(r, now));
    if created.Ok? {
      var t1, n := created.value, |t.jobs|;
      assert t1.jobs == t.jobs + [NewJob(o, DraftFor(r, now))];
      var planned := PlanDelivery(t1, Target(o.org, o.store, n, 1), NoEdit(r.bufferMinutes));
      if planned.Ok? {
        assert t.jobs <= planned.value.jobs;
        var at := Target(o.org, o.store, n, planned.value.jobs[n].version);
        if Geocode(planned.value, at, r.answer).Ok? {
          GeocodeEffect(planned.value, at, r.answer);
        }
      }
    }
  }

  lemma EnsureStep(t: Tables, c: Command)
    requires c.Ensure?
    ensures JobsStep(c, t.jobs, Step(t, c).jobs)
  {
    hide EnsureDelivery;
    EnsureAddsOnly(t, c.o, c.request, c.nested, c.now);
  }

  lemma SwitchStep(t: Tables, c: Command)
    requires c.SwitchType?
    ensures JobsStep(c, t.jobs, Step(t, c).jobs)
  {
    hide EnsureDelivery, SwitchToPickup;
    PickupStep(t, c);
    EnsureAddsOnly(t, c.o, c.request, c.nested, c.now);
  }

  lemma OrderReadyStep(t: Tables, c: Command)
    requires c.OrderReady?
    ensures JobsStep(c, t.jobs, Step(t, c).jobs)
  {
  }

  /** Couriers and orders change without the jobs, and a new job leaves the others as they are. */
  lemma OtherStep(t: Tables, c: Command)
    requires c.Create? || c.AddCourierProfile? || c.Archive? || c.Sync? || c.OrderPlaced? || c.OrderChanged?
    ensures JobsStep(c, t.jobs, Step(t, c).jobs)
  {
  }

  /** One step moves each job by a version, or leaves it exactly as it was. */
  lemma CommandStep(t: Tables, c: Command)
    ensures JobsStep(c, t.jobs, Step(t, c).jobs)
  {
    hide JobsStep, Step;
    match c
    case Plan(_, _) => PlanningStep(t, c);
    case ChangeAddress(_, _) => PlanningStep(t, c);
    case PlacePin(_, _) => PlanningStep(t, c);
    case Unassign(_, _) => UnassignStep(t, c);
    case Assign(_, _, _) => AssignStep(t, c);
    case MarkReady(_) => MarkReadyStep(t, c);
    case HandOver(_, _) => HandOverStep(t, c);
    case Depart(_, _) => DepartStep(t, c);
    case Report(_, _) => ReportStep(t, c);
    case Deliver(_, _, _) => DeliverStep(t, c);
    case Cancel(_, _, _) => CancelStep(t, c);
    case Resolve(_, _, _, _, _) => ResolveStep(t, c);
    case Locate(_, _) => LocateStep(t, c);
    case SwitchType(_, _, _, _, _, _) => SwitchStep(t, c);
    case Ensure(_, _, _, _) => EnsureStep(t, c);
    case OrderReady(_, _) => OrderReadyStep(t, c);
    case _ => OtherStep(t, c);
  }
}
