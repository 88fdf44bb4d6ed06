/** A closed job can come back to life, and a run that shows it. */
module DeliveryReopened {
  import opened Wrappers
  import opened Sequences
  import opened Text
  import opened DeliveryRules
  import opened DeliveryTables
  import opened DeliveryInvariant
  import opened DeliveryCommands
  import opened DeliveryCommandProofs
  import opened DeliveryRuns
  import opened DeliveryHistory
  import opened DeliveryFulfilment

  /** Any problem ever reported on a closed job, resolved or not, lets a fresh key send the job elsewhere. */
  lemma ClosedJobCanBeReopened(t: Tables, i: nat, problem: nat, key: string, now: int)
    requires i < |t.jobs| && Terminal(t.jobs[i].status) && !OtherActive(t.jobs, i)
    requires GetProblem(t, t.jobs[i].org, i, problem).Some?
    requires Trim(key) != "" && IdempotencyKey(t.jobs[i].org, ResolveProblemKey, Trim(key)) !in t.keys
    ensures var j := t.jobs[i];
      var c := Resolve(Target(j.org, j.store, i, j.version), problem, InTransit, key, now);
      Execute(t, c).error.None? && Step(t, c).jobs == t.jobs[i := j.(status := InTransit, version := j.version + 1)]
  {
    var j := t.jobs[i];
    ResolutionOutcome(t, Resolve(Target(j.org, j.store, i, j.version), problem, InTransit, key, now));
  }

  /** A planned job with a problem reported on it can still be marked delivered. */
  lemma ReportThenDeliver(t: Tables, i: nat, key: string, now: int)
    requires Inv(t) && i < |t.jobs| && t.jobs[i].status.Planned?
    requires Trim(key) != "" && IdempotencyKey(t.jobs[i].org, DeliverKey, Trim(key)) !in t.keys
    ensures var j := t.jobs[i];
      var c1 := Report(Target(j.org, j.store, i, j.version), now);
      var c2 := Deliver(Target(j.org, j.store, i, j.version + 1), key, now);
      var t2 := Step(Step(t, c1), c2);
      && t2.jobs == t.jobs[i := j.(status := Delivered, deliveredAt := Some(now), version := j.version + 2)]
      && t2.problems == t.problems + [ProblemRecord(j.org, i, now, OpenProblem, None, None)]
      && t2.keys == t.keys[IdempotencyKey(j.org, DeliverKey, Trim(key)) := i]
  {
    var j := t.jobs[i];
    IndexAdmitsSameOrder(t, i, j.(status := Problem));
    var c1 := Report(Target(j.org, j.store, i, j.version), now);
    var t1 := Step(t, c1);
    assert t1.jobs == t.jobs[i := j.(status := Problem, version := j.version + 1)];
    StepKeepsInv(t, c1);
    DeliverReported(t1, i, key, now);
    assert t.jobs[i := t1.jobs[i]][i := t1.jobs[i].(status := Delivered, deliveredAt := Some(now), version := j.version + 2)]
      == t.jobs[i := j.(status := Delivered, deliveredAt := Some(now), version := j.version + 2)];
  }

  lemma DeliverReported(t: Tables, i: nat, key: string, now: int)
    requires Inv(t) && i < |t.jobs| && t.jobs[i].status.Problem?
    requires Trim(key) != "" && IdempotencyKey(t.jobs[i].org, DeliverKey, Trim(key)) !in t.keys
    ensures var j := t.jobs[i];
      var t' := Step(t, Deliver(Target(j.org, j.store, i, j.version), key, now));
      && t'.jobs == t.jobs[i := j.(status := Delivered, deliveredAt := Some(now), version := j.version + 1)]
      && t'.problems == t.problems && t'.keys == t.keys[IdempotencyKey(j.org, DeliverKey, Trim(key)) := i]
  {
    IndexAdmitsSameOrder(t, i, t.jobs[i].(status := Delivered));
  }

  lemma DeliveredReopens(t: Tables, t2: Tables, i: nat, key: string, now: int)
    requires OneActivePerOrder(t.jobs) && i < |t.jobs| && Active(t.jobs[i])
    requires t2.jobs == t.jobs[i := t.jobs[i].(status := Delivered, deliveredAt := Some(now), version := t.jobs[i].version + 2)]
    requires t2.problems == t.problems + [ProblemRecord(t.jobs[i].org, i, now, OpenProblem, None, None)]
    requires Trim(key) != "" && IdempotencyKey(t.jobs[i].org, ResolveProblemKey, Trim(key)) !in t2.keys
    ensures var j := t.jobs[i];
      Step(t2, Resolve(Target(j.org, j.store, i, j.version + 2), |t.problems|, InTransit, key, now)).jobs
      == t.jobs[i := j.(status := InTransit, deliveredAt := Some(now), version := j.version + 3)]
  {
    var j := t.jobs[i];
    assert !OtherActive(t2.jobs, i);
    ClosedJobCanBeReopened(t2, i, |t.problems|, key, now);
    assert t.jobs[i := t2.jobs[i]][i := t2.jobs[i].(status := InTransit, version := j.version + 3)]
      == t.jobs[i := j.(status := InTransit, deliveredAt := Some(now), version := j.version + 3)];
  }

  /**
   From any reachable state with a planned job: a problem is reported, the job is delivered, the problem is
   resolved to IN_TRANSIT. The job is back in transit with its delivery time set and no departure recorded.
   */
  lemma DeliveredJobGoesBack(t: Tables, i: nat, deliverKey: string, resolveKey: string, now: int)
    requires Inv(t) && i < |t.jobs| && t.jobs[i].status.Planned?
    requires Trim(deliverKey) != "" && IdempotencyKey(t.jobs[i].org, DeliverKey, Trim(deliverKey)) !in t.keys
    requires Trim(resolveKey) != "" && IdempotencyKey(t.jobs[i].org, ResolveProblemKey, Trim(resolveKey)) !in t.keys
    ensures var j := t.jobs[i];
      var c1 := Report(Target(j.org, j.store, i, j.version), now);
      var c2 := Deliver(Target(j.org, j.store, i, j.version + 1), deliverKey, now);
      var c3 := Resolve(Target(j.org, j.store, i, j.version + 2), |t.problems|, InTransit, resolveKey, now);
      var t2 := Step(Step(t, c1), c2);
      && t2.jobs == t.jobs[i := j.(status := Delivered, deliveredAt := Some(now), version := j.version + 2)]
      && Step(t2, c3).jobs == t.jobs[i := j.(status := InTransit, deliveredAt := Some(now), version := j.version + 3)]
  {
    hide Step;
    ReportThenDeliver(t, i, deliverKey, now);
    var j := t.jobs[i];
    var c1 := Report(Target(j.org, j.store, i, j.version), now);
    var c2 := Deliver(Target(j.org, j.store, i, j.version + 1), deliverKey, now);
    DeliveredReopens(t, Step(Step(t, c1), c2), i, resolveKey, now);
  }

  lemma OrderAlone(order: Order)
    ensures var t := Step(EMPTY, OrderPlaced(order));
      Inv(t) && t == EMPTY.(orders := [order])
  {
  }

  /** Such a state is reachable: one order, and the delivery made for it. */
  lemma PlannedJobIsReachable(order: Order, r: DeliveryRequest, now: int)
    requires order.isDelivery && Trim(r.addressLine) != ""
    ensures var t := Step(Step(EMPTY, OrderPlaced(order)), Ensure(OrderRef(order.org, order.store, 0), r, false, now));
      && Inv(t) && |t.jobs| == 1 && t == EMPTY.(orders := [order], jobs := t.jobs)
      && var j := t.jobs[0];
      j.status.Planned? && j.org == order.org && j.store == order.store && j.order == 0 && j.courier.None?
  {
    OrderAlone(order);
    EnsureOnEmpty(Step(EMPTY, OrderPlaced(order)), OrderRef(order.org, order.store, 0), r, now);
  }

  lemma EnsureOnEmpty(t: Tables, o: OrderRef, r: DeliveryRequest, now: int)
    requires Inv(t) && t.jobs == [] && t.assignments == []
    requires FindOrder(t, o.org, o.store, o.order).Some? && t.orders[o.order].isDelivery
    requires Trim(r.addressLine) != ""
    ensures var t' := Step(t, Ensure(o, r, false, now));
      && Inv(t') && |t'.jobs| == 1 && t' == t.(jobs := t'.jobs)
      && var j := t'.jobs[0];
      j.status.Planned? && j.org == o.org && j.store == o.store && j.order == o.order && j.courier.None?
  {
    StepKeepsInv(t, Ensure(o, r, false, now));
    EnsureSucceedsIff(t, o, r, false, now);
    EnsureLeavesOnePlanned(t, o, r, false, now);
    EnsureAddsOnly(t, o, r, false, now);
    var t' := Step(t, Ensure(o, r, false, now));
    assert JobInv(t', 0);
  }
}
