/** Each delivery command keeps the invariant. */
module DeliveryCommandProofs {
  import opened Wrappers
  import opened Sequences
  import opened Text
  import opened DeliveryRules
  import opened DeliveryTables
  import opened DeliveryInvariant
  import opened DeliveryCommands

  lemma CreateKeepsInv(t: Tables, o: OrderRef, d: JobDraft)
    requires Inv(t) && CreateDelivery(t, o, d).Ok?
    ensures Inv(CreateDelivery(t, o, d).value)
  {
    var t' := CreateDelivery(t, o, d).value;
    var n := |t.jobs|;
    forall i | 0 <= i < |t'.jobs| ensures JobInv(t', i) {
      if i < n {
        assert JobInv(t, i) && t'.jobs[i] == t.jobs[i];
      } else {
        forall a | 0 <= a < |t.assignments| ensures !OpenFor(n)(t.assignments[a]) {
          assert t.assignments[a].job < n;
        }
      }
    }
    assert OneActivePerOrder(t'.jobs);
  }

  lemma PlanKeepsInv(t: Tables, at: Target, e: PlanEdit)
    requires Inv(t) && PlanDelivery(t, at, e).Ok?
    ensures Inv(PlanDelivery(t, at, e).value)
  {
    assert JobInv(t, at.job);
    BumpKeepsInv(t, at.job, Replanned(t.jobs[at.job], e), at.expected);
  }

  lemma UpdateAddressKeepsInv(t: Tables, at: Target, addressLine: string)
    requires Inv(t) && UpdateAddress(t, at, addressLine).Ok?
    ensures Inv(UpdateAddress(t, at, addressLine).value)
  {
    assert JobInv(t, at.job);
    var j := t.jobs[at.job];
    BumpKeepsInv(t, at.job, j.(addressLine := addressLine, place := None, geocoding := NotRequested,
                               addressSource := Some(TypedIn)), at.expected);
  }

  function GeocodedJob(j: Job, answer: GeocoderAnswer): Job {
    if answer.Found? then j.(place := Some(answer.place), geocoding := Resolved, addressSource := Some(Geocoded))
    else j.(geocoding := Failed)
  }

  /** The two writes of a lookup amount to one, two versions on. */
  lemma GeocodeEffect(t: Tables, at: Target, answer: GeocoderAnswer)
    requires Geocode(t, at, answer).Ok?
    ensures at.job < |t.jobs| && t.jobs[at.job].version == at.expected && IndexAdmits(t.jobs, at.job, t.jobs[at.job])
    ensures Geocode(t, at, answer).value
      == t.(jobs := t.jobs[at.job := GeocodedJob(t.jobs[at.job], answer).(version := at.expected + 2)])
  {
    var i, j := at.job, t.jobs[at.job];
    var t1 := Bump(t, i, j.(geocoding := Pending), at.expected).value;
    assert t1.jobs[i := GeocodedJob(j, answer).(version := at.expected + 2)]
      == t.jobs[i := GeocodedJob(j, answer).(version := at.expected + 2)];
  }

  lemma GeocodeKeepsInv(t: Tables, at: Target, answer: GeocoderAnswer)
    requires Inv(t) && Geocode(t, at, answer).Ok?
    ensures Inv(Geocode(t, at, answer).value)
  {
    GeocodeEffect(t, at, answer);
    var t' := Geocode(t, at, answer).value;
    assert JobInv(t, at.job);
    RefsKept(t, t', at.job);
    assert JobInv(t', at.job);
    OneJobKeepsInv(t, t', at.job);
  }

  lemma SetCoordinatesKeepsInv(t: Tables, at: Target, place: Place)
    requires Inv(t) && SetCoordinates(t, at, place).Ok?
    ensures Inv(SetCoordinates(t, at, place).value)
  {
    assert JobInv(t, at.job);
    var j := t.jobs[at.job];
    BumpKeepsInv(t, at.job, j.(place := Some(place), geocoding := Manual, addressSource := Some(UserPin)), at.expected);
  }

  /** The old assignment closed and the new one opened, the job is linked to the new courier and no other moves. */
  lemma AssignRelinks(t: Tables, i: nat, courier: nat, now: int)
    requires Inv(t) && i < |t.jobs|
    ensures var t1 := ReleaseActiveAssignment(t, t.jobs[i].org, i, now);
      var after := t1.assignments + [Assignment(t.jobs[i].org, i, courier, now, None)];
      && t1 == t.(assignments := t1.assignments)
      && Linked(after, i, Some(courier)) && OthersLinked(t.assignments, after, i) && RefsOk(t1)
  {
    assert JobInv(t, i);
    ReleaseUnlinks(t, i, now);
    AppendLinks(ReleaseActiveAssignment(t, t.jobs[i].org, i, now).assignments, Assignment(t.jobs[i].org, i, courier, now, None));
  }

  lemma AssignKeepsInv(t: Tables, at: Target, courier: nat, now: int)
    requires Inv(t) && AssignCourier(t, at, courier, now).Ok?
    ensures Inv(AssignCourier(t, at, courier, now).value)
  {
    hide Linked, OthersLinked;
    var i, t' := at.job, AssignCourier(t, at, courier, now).value;
    assert JobInv(t, i);
    AssignRelinks(t, i, courier, now);
    assert JobInv(t', i);
    OneJobKeepsInv(t, t', i);
  }

  lemma ReleaseKeepsInv(t: Tables, at: Target, now: int)
    requires Inv(t) && ReleaseCourier(t, at, now).Ok?
    ensures Inv(ReleaseCourier(t, at, now).value)
  {
    var i, t' := at.job, ReleaseCourier(t, at, now).value;
    assert JobInv(t, i);
    ReleaseUnlinks(t, i, now);
    assert JobInv(t', i);
    OneJobKeepsInv(t, t', i);
  }

  lemma CourierChangeKeepsInv(t: Tables, couriers: seq<Courier>)
    requires Inv(t) && |t.couriers| <= |couriers|
    requires forall c :: 0 <= c < |t.couriers| ==> couriers[c].org == t.couriers[c].org
    ensures Inv(t.(couriers := couriers))
  {
    forall i | 0 <= i < |t.jobs| ensures JobInv(t.(couriers := couriers), i) {
      assert JobInv(t, i);
    }
  }

  lemma CourierCommandsKeepInv(t: Tables, r: Result<Tables, Error>, org: nat, x: nat, isCourier: bool)
    requires Inv(t) && r.Ok?
    requires r == CreateCourier(t, org, x) || r == ArchiveCourier(t, org, x) || r == SyncCourier(t, org, x, isCourier)
    ensures Inv(r.value) && r.value == t.(couriers := r.value.couriers)
  {
    CourierChangeKeepsInv(t, r.value.couriers);
  }

  lemma MarkReadyKeepsInv(t: Tables, at: Target)
    requires Inv(t) && MarkReadyForDispatch(t, at).Ok?
    ensures Inv(MarkReadyForDispatch(t, at).value)
  {
    assert JobInv(t, at.job);
    BumpKeepsInv(t, at.job, t.jobs[at.job].(status := ReadyForDispatch), at.expected);
  }

  lemma HandoverKeepsInv(t: Tables, at: Target, now: int)
    requires Inv(t) && Handover(t, at, now).Ok?
    ensures Inv(Handover(t, at, now).value)
  {
    assert JobInv(t, at.job);
    BumpKeepsInv(t, at.job, t.jobs[at.job].(handedOverAt := Some(now)), at.expected);
  }

  lemma StartTransitKeepsInv(t: Tables, at: Target, now: int)
    requires Inv(t) && StartTransit(t, at, now).Ok?
    ensures Inv(StartTransit(t, at, now).value)
  {
    assert JobInv(t, at.job);
    var j := t.jobs[at.job];
    BumpKeepsInv(t, at.job, j.(status := InTransit, departedAt := Some(now),
                               handedOverAt := Some(OrElse(j.handedOverAt, now))), at.expected);
  }

  lemma MarkDeliveredKeepsInv(t: Tables, at: Target, key: string, now: int)
    requires Inv(t) && MarkDelivered(t, at, key, now).Ok?
    ensures Inv(MarkDelivered(t, at, key, now).value)
  {
    var j := t.jobs[at.job];
    var claim := ClaimKey(t, IdempotencyKey(at.org, DeliverKey, Trim(key)), at.job).value;
    if !(claim.replay && j.status.Delivered?) {
      ClaimKeepsInv(t, claim.tables.keys);
      assert JobInv(t, at.job);
      if j.status.Problem? {
        var p :| 0 <= p < |t.problems| && t.problems[p].job == at.job && t.problems[p].status.OpenProblem?;
        assert HasProblem(t.problems, at.job);
      }
      BumpKeepsInv(claim.tables, at.job, j.(status := Delivered, deliveredAt := Some(now)), at.expected);
    }
  }

  function CancelledJob(j: Job, now: int): Job {
    j.(status := Cancelled, cancelledAt := Some(now), courier := None)
  }

  lemma CancelWritesKeepInv(t: Tables, i: nat, expected: int, now: int)
    requires Inv(t) && i < |t.jobs|
    requires Bump(ReleaseActiveAssignment(t, t.jobs[i].org, i, now), i, CancelledJob(t.jobs[i], now), expected).Ok?
    ensures Inv(Bump(ReleaseActiveAssignment(t, t.jobs[i].org, i, now), i, CancelledJob(t.jobs[i], now), expected).value)
  {
    var t' := Bump(ReleaseActiveAssignment(t, t.jobs[i].org, i, now), i, CancelledJob(t.jobs[i], now), expected).value;
    assert JobInv(t, i);
    ReleaseUnlinks(t, i, now);
    assert JobInv(t', i);
    OneJobKeepsInv(t, t', i);
  }

  lemma CancelKeepsInv(t: Tables, at: Target, key: string, now: int)
    requires Inv(t) && CancelDelivery(t, at, key, now).Ok?
    ensures Inv(CancelDelivery(t, at, key, now).value)
  {
    var claim := ClaimKey(t, IdempotencyKey(at.org, CancelKey, Trim(key)), at.job).value;
    if !(claim.replay && t.jobs[at.job].status.Cancelled?) {
      ClaimKeepsInv(t, claim.tables.keys);
      CancelWritesKeepInv(claim.tables, at.job, at.expected, now);
    }
  }

  lemma ReportKeepsInv(t: Tables, at: Target, now: int)
    requires Inv(t) && ReportProblem(t, at, now).Ok?
    ensures Inv(ReportProblem(t, at, now).value)
  {
    var i, t' := at.job, ReportProblem(t, at, now).value;
    assert JobInv(t, i);
    assert t'.problems[|t.problems|].job == i && t'.problems[|t.problems|].status.OpenProblem?;
    assert JobInv(t', i);
    OneJobKeepsInv(t, t', i);
  }

  /** A resolution that is no replay: the problem's record, then the job's row. */
  lemma ResolveEffect(t: Tables, at: Target, problem: nat, resolveTo: Status, key: string, now: int)
    requires ResolveProblem(t, at, problem, resolveTo, key, now).Ok?
    requires ResolveProblem(t, at, problem, resolveTo, key, now).value != t
    ensures at.job < |t.jobs| && problem < |t.problems| && t.problems[problem].job == at.job
    ensures AssertCanResolveProblem(resolveTo).Pass?
    ensures var j := t.jobs[at.job]; var j' := AfterResolution(j, resolveTo, now).(version := j.version + 1);
      var t' := ResolveProblem(t, at, problem, resolveTo, key, now).value;
      && t' == t.(jobs := t.jobs[at.job := j'], keys := t'.keys,
                  problems := t.problems[problem := ResolvedRecord(t.problems[problem], resolveTo, now)])
      && IndexAdmits(t.jobs, at.job, j')
  {
  }

  lemma ResolvedRefsOk(t: Tables, t': Tables, i: nat, problem: nat)
    requires RefsOk(t) && i < |t.jobs| == |t'.jobs| && problem < |t.problems| == |t'.problems|
    requires t'.jobs == t.jobs[i := t'.jobs[i]] && SamePlace(t.jobs[i], t'.jobs[i])
    requires t'.problems == t.problems[problem := t'.problems[problem]]
    requires t'.problems[problem].job == t.problems[problem].job && t'.problems[problem].org == t.problems[problem].org
    requires t'.assignments == t.assignments && t'.couriers == t.couriers
    ensures RefsOk(t')
  {
  }

  lemma ResolveKeepsInv(t: Tables, at: Target, problem: nat, resolveTo: Status, key: string, now: int)
    requires Inv(t) && ResolveProblem(t, at, problem, resolveTo, key, now).Ok?
    ensures Inv(ResolveProblem(t, at, problem, resolveTo, key, now).value)
  {
    hide ResolveProblem;
    var i, t' := at.job, ResolveProblem(t, at, problem, resolveTo, key, now).value;
    if t' != t {
      ResolveEffect(t, at, problem, resolveTo, key, now);
      ResolvedJobIsOk(t, t', i, problem, resolveTo, now);
      ResolvedRefsOk(t, t', i, problem);
      OneJobKeepsInv(t, t', i);
    }
  }

  /** The resolved job is backed by its marks and by the record of its problem. */
  lemma ResolvedJobIsOk(t: Tables, t': Tables, i: nat, problem: nat, resolveTo: Status, now: int)
    requires Inv(t) && i < |t.jobs| && problem < |t.problems| && t.problems[problem].job == i
    requires AssertCanResolveProblem(resolveTo).Pass?
    requires i < |t'.jobs| && t'.jobs[i] == AfterResolution(t.jobs[i], resolveTo, now).(version := t.jobs[i].version + 1)
    requires t'.problems == t.problems[problem := ResolvedRecord(t.problems[problem], resolveTo, now)]
    requires t'.orders == t.orders && t'.assignments == t.assignments
    ensures JobInv(t', i)
  {
    assert JobInv(t, i);
    assert t'.problems[problem].job == i;
    assert HasProblem(t'.problems, i);
  }

  lemma MarkedReadyKeepsInv(t: Tables, o: OrderRef, nested: bool)
    requires Inv(t)
    ensures Inv(OrderMarkedReady(t, o, nested).tables)
  {
    var found := FindActive(t, o.org, o.order);
    if found.Some? {
      var j := t.jobs[found.value];
      assert JobInv(t, found.value);
      if Bump(t, found.value, j.(status := ReadyForDispatch), j.version).Ok? {
        BumpKeepsInv(t, found.value, j.(status := ReadyForDispatch), j.version);
      }
    }
  }

  lemma SwitchToPickupKeepsInv(t: Tables, o: OrderRef, nested: bool, now: int)
    requires Inv(t)
    ensures Inv(SwitchToPickup(t, o, nested, now).tables)
  {
    var found := FindActive(t, o.org, o.order);
    if found.Some? {
      var i := found.value;
      var at := Target(o.org, o.store, i, t.jobs[i].version);
      if CancelDelivery(t, at, PickupKey(i, t.jobs[i].version), now).Ok? {
        CancelKeepsInv(t, at, PickupKey(i, t.jobs[i].version), now);
      }
    }
  }

  lemma EnsureKeepsInv(t: Tables, o: OrderRef, r: DeliveryRequest, nested: bool, now: int)
    requires Inv(t)
    ensures Inv(EnsureDelivery(t, o, r, nested, now).tables)
  {
    var created := CreateDelivery(t, o, DraftFor(r, now));
    if created.Ok? {
      CreateKeepsInv(t, o, DraftFor(r, now));
      var at := Target(o.org, o.store, |t.jobs|, 1);
      var planned := PlanDelivery(created.value, at, NoEdit(r.bufferMinutes));
      if planned.Ok? {
        PlanKeepsInv(created.value, at, NoEdit(r.bufferMinutes));
        var at' := at.(expected := planned.value.jobs[|t.jobs|].version);
        if Geocode(planned.value, at', r.answer).Ok? {
          GeocodeKeepsInv(planned.value, at', r.answer);
        }
      }
    }
  }

  lemma SwitchKeepsInv(t: Tables, o: OrderRef, wasDelivery: bool, isDelivery: bool, r: DeliveryRequest, nested: bool, now: int)
    requires Inv(t)
    ensures Inv(SwitchFulfillment(t, o, wasDelivery, isDelivery, r, nested, now).tables)
  {
    SwitchToPickupKeepsInv(t, o, nested, now);
    EnsureKeepsInv(t, o, r, nested, now);
  }
}
