/** From any state with a planned job: the runs that meet the order index and misplace a courier. */
module DeliveryWitnesses {
  import opened Wrappers
  import opened Sequences
  import opened Text
  import opened DeliveryRules
  import opened DeliveryTables
  import opened DeliveryInvariant
  import opened DeliveryCommands
  import opened DeliveryCommandProofs
  import opened DeliveryRuns
  import opened DeliveryHistory
  import opened DeliveryFulfilment
  import opened DeliveryReopened

  function AtVersion(t: Tables, i: nat, version: int): Target
    requires i < |t.jobs|
  {
    Target(t.jobs[i].org, t.jobs[i].store, i, version)
  }

  function Reported(t: Tables, i: nat, now: int): Tables
    requires i < |t.jobs|
  {
    var j := t.jobs[i];
    t.(jobs := t.jobs[i := j.(status := Problem, version := j.version + 1)],
       problems := t.problems + [ProblemRecord(j.org, i, now, OpenProblem, None, None)])
  }

  lemma ReportCommits(t: Tables, i: nat, now: int)
    requires Inv(t) && i < |t.jobs| && t.jobs[i].status.Planned?
    ensures Step(t, Report(AtVersion(t, i, t.jobs[i].version), now)) == Reported(t, i, now)
  {
    IndexAdmitsSameOrder(t, i, t.jobs[i].(status := Problem));
  }

  lemma CancelCommits(t: Tables, i: nat, key: string, now: int)
    requires i < |t.jobs| && t.jobs[i].status.Problem? && Trim(key) != ""
    requires IdempotencyKey(t.jobs[i].org, CancelKey, Trim(key)) !in t.keys
    ensures var t' := Step(t, Cancel(AtVersion(t, i, t.jobs[i].version), key, now));
      && t'.jobs == t.jobs[i := CancelledJob(t.jobs[i], now).(version := t.jobs[i].version + 1)]
      && t'.problems == t.problems && t'.orders == t.orders
      && t'.keys == t.keys[IdempotencyKey(t.jobs[i].org, CancelKey, Trim(key)) := i]
  {
  }

  /** With its only active job cancelled, an order has none. */
  lemma NoneLeft(t: Tables, t': Tables, i: nat)
    requires OneActivePerOrder(t.jobs) && i < |t.jobs| && Active(t.jobs[i])
    requires |t'.jobs| == |t.jobs| && t'.jobs[i].status.Cancelled? && t'.jobs[i].order == t.jobs[i].order
    requires forall x :: 0 <= x < |t.jobs| && x != i ==> t'.jobs[x] == t.jobs[x]
    ensures NoneActive(t', t.jobs[i].order)
  {
  }

  /** A job whose order has been given another delivery since it was cancelled. */
  ghost predicate Superseded(t: Tables, i: nat, problem: nat, version: nat) {
    && i < |t.jobs| && t.jobs[i].status.Cancelled? && t.jobs[i].version == version
    && OtherActive(t.jobs, i) && GetProblem(t, t.jobs[i].org, i, problem).Some?
  }

  lemma SupersededIsRefused(t: Tables, i: nat, problem: nat, version: nat, key: string, now: int)
    requires Inv(t) && Superseded(t, i, problem, version)
    requires Trim(key) != "" && IdempotencyKey(t.jobs[i].org, ResolveProblemKey, Trim(key)) !in t.keys
    ensures Execute(t, Resolve(AtVersion(t, i, version), problem, InTransit, key, now)).error == Some(ConstraintViolation)
  {
    IndexRefusesIff(t, Resolve(AtVersion(t, i, version), problem, InTransit, key, now));
  }

  function Withdrawn(t: Tables, i: nat, key: string, now: int): Tables
    requires i < |t.jobs|
  {
    var v := t.jobs[i].version;
    Step(Step(t, Report(AtVersion(t, i, v), now)), Cancel(AtVersion(t, i, v + 1), key, now))
  }

  /** A planned job reported and cancelled. */
  lemma CancelledAfterReport(t: Tables, i: nat, key: string, now: int)
    requires Inv(t) && i < |t.jobs| && t.jobs[i].status.Planned?
    requires Trim(key) != "" && IdempotencyKey(t.jobs[i].org, CancelKey, Trim(key)) !in t.keys
    ensures var j, t' := t.jobs[i], Withdrawn(t, i, key, now);
      && Inv(t') && NoneActive(t', j.order) && |t'.jobs| == |t.jobs|
      && t'.jobs[i] == CancelledJob(j, now).(version := j.version + 2)
      && t'.problems == t.problems + [ProblemRecord(j.org, i, now, OpenProblem, None, None)]
      && t'.keys == t.keys[IdempotencyKey(j.org, CancelKey, Trim(key)) := i] && t'.orders == t.orders
  {
    hide Step;
    var j := t.jobs[i];
    var t1 := Reported(t, i, now);
    ReportCommits(t, i, now);
    StepKeepsInv(t, Report(AtVersion(t, i, j.version), now));
    CancelCommits(t1, i, key, now);
    var c := Cancel(AtVersion(t1, i, j.version + 1), key, now);
    StepKeepsInv(t1, c);
    NoneLeft(t, Step(t1, c), i);
  }

  /**
   A problem is reported on a planned job, the job is cancelled, its order gets another delivery, and then the
   problem is resolved to IN_TRANSIT: every check passes and only the database index stands in the way.
   */
  lemma RevivalMeetsTheIndex(t: Tables, i: nat, cancelKey: string, resolveKey: string, r: DeliveryRequest, now: int)
    requires Inv(t) && i < |t.jobs| && t.jobs[i].status.Planned?
    requires FindOrder(t, t.jobs[i].org, t.jobs[i].store, t.jobs[i].order).Some? && t.orders[t.jobs[i].order].isDelivery
    requires Trim(r.addressLine) != ""
    requires Trim(cancelKey) != "" && IdempotencyKey(t.jobs[i].org, CancelKey, Trim(cancelKey)) !in t.keys
    requires Trim(resolveKey) != "" && IdempotencyKey(t.jobs[i].org, ResolveProblemKey, Trim(resolveKey)) !in t.keys
    ensures var j := t.jobs[i];
      var t3 := Step(Withdrawn(t, i, cancelKey, now), Ensure(OrderRef(j.org, j.store, j.order), r, false, now));
      Execute(t3, Resolve(AtVersion(t, i, j.version + 2), |t.problems|, InTransit, resolveKey, now)).error == Some(ConstraintViolation)
  {
    hide Step, Withdrawn, Inv, NoneActive, OtherActive, Execute;
    var j := t.jobs[i];
    var o := OrderRef(j.org, j.store, j.order);
    CancelledAfterReport(t, i, cancelKey, now);
    var t2 := Withdrawn(t, i, cancelKey, now);
    AnotherIsMade(t2, o, r, now, i);
    SupersededIsRefused(Step(t2, Ensure(o, r, false, now)), i, |t.problems|, j.version + 2, resolveKey, now);
  }

  lemma AnotherIsMade(t: Tables, o: OrderRef, r: DeliveryRequest, now: int, i: nat)
    requires Inv(t) && NoneActive(t, o.order) && i < |t.jobs| && t.jobs[i].order == o.order
    requires FindOrder(t, o.org, o.store, o.order).Some? && t.orders[o.order].isDelivery && Trim(r.addressLine) != ""
    ensures var t' := Step(t, Ensure(o, r, false, now));
      Inv(t') && t.jobs <= t'.jobs && OtherActive(t'.jobs, i) && t'.problems == t.problems && t'.keys == t.keys
  {
    var found := FindActive(t, o.org, o.order);
    assert found.None?;
    EnsureSucceedsIff(t, o, r, false, now);
    EnsureLeavesOnePlanned(t, o, r, false, now);
    EnsureAddsOnly(t, o, r, false, now);
    StepKeepsInv(t, Ensure(o, r, false, now));
    var t' := Step(t, Ensure(o, r, false, now));
    assert t'.jobs[i] == t.jobs[i];
    assert Active(t'.jobs[|t.jobs|]) && t'.jobs[|t.jobs|].order == t'.jobs[i].order;
  }

  /** A problem reported on a planned job and resolved to ASSIGNED leaves the job assigned to nobody. */
  lemma AssignedToNobody(t: Tables, i: nat, key: string, now: int)
    requires Inv(t) && CouriersFit(t) && i < |t.jobs| && t.jobs[i].status.Planned? && t.jobs[i].courier.None?
    requires Trim(key) != "" && IdempotencyKey(t.jobs[i].org, ResolveProblemKey, Trim(key)) !in t.keys
    ensures var j := t.jobs[i];
      var t1 := Step(t, Report(AtVersion(t, i, j.version), now));
      var t2 := Step(t1, Resolve(AtVersion(t, i, j.version + 1), |t.problems|, Assigned, key, now));
      i < |t2.jobs| && t2.jobs[i].status.Assigned? && t2.jobs[i].courier.None? && !CouriersFit(t2)
  {
    hide Step;
    var j := t.jobs[i];
    ReportCommits(t, i, now);
    var t1 := Reported(t, i, now);
    var c := Resolve(AtVersion(t, i, j.version + 1), |t.problems|, Assigned, key, now);
    assert !OtherActive(t1.jobs, i);
    ResolutionOutcome(t1, c);
  }

  // ------------------------------------------------- from the empty tables

  function FirstDelivery(order: Order, r: DeliveryRequest, now: int): Tables {
    Step(Step(EMPTY, OrderPlaced(order)), Ensure(OrderRef(order.org, order.store, 0), r, false, now))
  }

  /** An order, its delivery, a report, a cancellation and another delivery: now the resolution meets the index. */
  lemma RevivalFromNothing(order: Order, r: DeliveryRequest, t: Tables, cancelKey: string, resolveKey: string, now: int)
    requires order.isDelivery && Trim(r.addressLine) != "" && Trim(cancelKey) != "" && Trim(resolveKey) != ""
    requires t == FirstDelivery(order, r, now)
    ensures |t.jobs| == 1
    ensures var t3 := Step(Withdrawn(t, 0, cancelKey, now), Ensure(OrderRef(order.org, order.store, 0), r, false, now));
      Execute(t3, Resolve(AtVersion(t, 0, t.jobs[0].version + 2), 0, InTransit, resolveKey, now)).error == Some(ConstraintViolation)
  {
    hide Step, Withdrawn, Inv, Execute;
    PlannedJobIsReachable(order, r, now);
    RevivalMeetsTheIndex(t, 0, cancelKey, resolveKey, r, now);
  }

  /** An order, its delivery, a report and a resolution to ASSIGNED. */
  lemma AssignedToNobodyFromNothing(order: Order, r: DeliveryRequest, t: Tables, key: string, now: int)
    requires order.isDelivery && Trim(r.addressLine) != "" && Trim(key) != ""
    requires t == FirstDelivery(order, r, now)
    ensures |t.jobs| == 1
    ensures var v := t.jobs[0].version;
      var t2 := Step(Step(t, Report(AtVersion(t, 0, v), now)), Resolve(AtVersion(t, 0, v + 1), 0, Assigned, key, now));
      0 < |t2.jobs| && t2.jobs[0].status.Assigned? && t2.jobs[0].courier.None?
  {
    hide Step, Inv, Execute;
    PlannedJobIsReachable(order, r, now);
    AssignedToNobody(t, 0, key, now);
  }
}
