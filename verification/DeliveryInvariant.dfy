/** What every reachable state of the delivery tables satisfies, and how a one-job change keeps it. */
module DeliveryInvariant {
  import opened Wrappers
  import opened Sequences
  import opened DeliveryRules
  import opened DeliveryTables

  /** The job sits in its order's organization and store, its window is ordered, and its marks match its status. */
  predicate JobOk(orders: seq<Order>, j: Job) {
    && j.order < |orders| && orders[j.order].org == j.org && orders[j.order].store == j.store
    && j.windowStart <= j.windowEnd && j.fee >= 0 && j.version >= 1
    && (j.status.Delivered? ==> j.deliveredAt.Some?)
    && (j.status.Cancelled? ==> j.cancelledAt.Some?)
    && (j.departedAt.Some? ==> j.handedOverAt.Some?)
    && LocationOk(j)
  }

  /** A lookup is never left pending, and coordinates are labelled with where they came from. */
  predicate LocationOk(j: Job) {
    match j.geocoding
    case NotRequested => j.place.None?
    case Pending => false
    case Resolved => j.place.Some? && j.addressSource == Some(Geocoded)
    case Failed => j.place.Some? ==> j.addressSource == Some(Geocoded) || j.addressSource == Some(UserPin)
    case Manual => j.place.Some? && j.addressSource == Some(UserPin)
  }

  predicate HasOpenProblem(problems: seq<ProblemRecord>, job: nat) {
    exists p :: 0 <= p < |problems| && problems[p].job == job && problems[p].status.OpenProblem?
  }

  predicate HasProblem(problems: seq<ProblemRecord>, job: nat) {
    exists p :: 0 <= p < |problems| && problems[p].job == job
  }

  predicate ProblemsOk(problems: seq<ProblemRecord>, job: nat, j: Job) {
    && (j.status.Problem? ==> HasOpenProblem(problems, job))
    && (j.status.InTransit? || j.status.Delivered? ==> j.departedAt.Some? || HasProblem(problems, job))
  }

  /** The job's courier is exactly the courier of its one unreleased assignment. */
  predicate Linked(assignments: seq<Assignment>, job: nat, courier: Option<nat>) {
    match courier
    case None => forall a :: 0 <= a < |assignments| ==> !OpenFor(job)(assignments[a])
    case Some(c) => exists a :: 0 <= a < |assignments| && OnlyOpen(assignments, job, a) && assignments[a].courier == c
  }

  predicate OnlyOpen(assignments: seq<Assignment>, job: nat, a: nat)
    requires a < |assignments|
  {
    && OpenFor(job)(assignments[a])
    && forall b :: 0 <= b < |assignments| && OpenFor(job)(assignments[b]) ==> b == a
  }

  predicate RefsOk(t: Tables) {
    && (forall a :: 0 <= a < |t.assignments| ==>
          var x := t.assignments[a];
          && x.job < |t.jobs| && x.org == t.jobs[x.job].org
          && x.courier < |t.couriers| && x.org == t.couriers[x.courier].org)
    && (forall p :: 0 <= p < |t.problems| ==>
          t.problems[p].job < |t.jobs| && t.problems[p].org == t.jobs[t.problems[p].job].org)
  }

  predicate OneActivePerOrder(jobs: seq<Job>) {
    forall i, j :: 0 <= i < j < |jobs| && Active(jobs[i]) && Active(jobs[j]) ==> jobs[i].order != jobs[j].order
  }

  predicate JobInv(t: Tables, i: nat)
    requires i < |t.jobs|
  {
    JobOk(t.orders, t.jobs[i]) && ProblemsOk(t.problems, i, t.jobs[i]) && Linked(t.assignments, i, t.jobs[i].courier)
  }

  predicate Inv(t: Tables) {
    RefsOk(t) && OneActivePerOrder(t.jobs) && forall i :: 0 <= i < |t.jobs| ==> JobInv(t, i)
  }

  // ----------------------------------------------------------- assignments

  /** Every job but one keeps its unreleased assignment. */
  ghost predicate OthersLinked(before: seq<Assignment>, after: seq<Assignment>, job: nat) {
    forall x: nat, c :: x != job && Linked(before, x, c) ==> Linked(after, x, c)
  }

  lemma ReleaseUnlinks(t: Tables, job: nat, now: int)
    requires RefsOk(t) && job < |t.jobs| && Linked(t.assignments, job, t.jobs[job].courier)
    ensures var t' := ReleaseActiveAssignment(t, t.jobs[job].org, job, now);
      && Linked(t'.assignments, job, None) && OthersLinked(t.assignments, t'.assignments, job) && RefsOk(t')
  {
    var org := t.jobs[job].org;
    var found := FindFirst(t.assignments, OpenIn(org, job));
    var t' := ReleaseActiveAssignment(t, org, job, now);
    forall a | 0 <= a < |t'.assignments| ensures !OpenFor(job)(t'.assignments[a]) {
      assert OpenFor(job)(t.assignments[a]) ==> OpenIn(org, job)(t.assignments[a]);
    }
    OthersStayLinked(t.assignments, t'.assignments, job);
  }

  /** Releasing assignments of one job leaves those of the others open or closed as they were. */
  lemma OthersStayLinked(before: seq<Assignment>, after: seq<Assignment>, job: nat)
    requires |after| == |before|
    requires forall a :: 0 <= a < |before| ==> after[a].job == before[a].job && after[a].courier == before[a].courier
    requires forall a :: 0 <= a < |before| && before[a].job != job ==> after[a] == before[a]
    ensures OthersLinked(before, after, job)
  {
    forall x: nat, c | x != job && Linked(before, x, c) ensures Linked(after, x, c) {
      assert forall a :: 0 <= a < |before| ==> OpenFor(x)(before[a]) == OpenFor(x)(after[a]);
      if c.Some? {
        var a :| 0 <= a < |before| && OnlyOpen(before, x, a) && before[a].courier == c.value;
        assert OnlyOpen(after, x, a);
      }
    }
  }

  lemma AppendLinks(assignments: seq<Assignment>, a: Assignment)
    requires Linked(assignments, a.job, None) && a.releasedAt.None?
    ensures Linked(assignments + [a], a.job, Some(a.courier)) && OthersLinked(assignments, assignments + [a], a.job)
  {
    var after := assignments + [a];
    assert OnlyOpen(after, a.job, |assignments|);
    forall x: nat, c | x != a.job && Linked(assignments, x, c) ensures Linked(after, x, c) {
      if c.Some? {
        var b :| 0 <= b < |assignments| && OnlyOpen(assignments, x, b) && assignments[b].courier == c.value;
        assert OnlyOpen(after, x, b);
      }
    }
  }

  // ------------------------------------------------------- one-job changes

  /** Problem rows are only added, and rows of other jobs are left alone. */
  predicate ProblemsStep(before: seq<ProblemRecord>, after: seq<ProblemRecord>, job: nat) {
    && |before| <= |after|
    && forall p :: 0 <= p < |before| ==>
         after[p].job == before[p].job && after[p].org == before[p].org && (before[p].job != job ==> after[p] == before[p])
  }

  lemma OtherProblemsOk(before: seq<ProblemRecord>, after: seq<ProblemRecord>, job: nat, x: nat, j: Job)
    requires ProblemsStep(before, after, job) && x != job && ProblemsOk(before, x, j)
    ensures ProblemsOk(after, x, j)
  {
    if j.status.Problem? {
      var p :| 0 <= p < |before| && before[p].job == x && before[p].status.OpenProblem?;
      assert after[p] == before[p];
    }
    if HasProblem(before, x) {
      var p :| 0 <= p < |before| && before[p].job == x;
      assert after[p] == before[p];
    }
  }

  lemma IndexKeepsOneActive(jobs: seq<Job>, i: nat, j: Job)
    requires OneActivePerOrder(jobs) && i < |jobs| && IndexAdmits(jobs, i, j)
    ensures OneActivePerOrder(jobs[i := j])
  {
  }

  /** A transaction that rewrites one job, and around it only that job's assignments and problems. */
  lemma OneJobKeepsInv(t: Tables, t': Tables, i: nat)
    requires Inv(t) && i < |t.jobs| == |t'.jobs| && RefsOk(t')
    requires t'.orders == t.orders && t'.jobs == t.jobs[i := t'.jobs[i]] && IndexAdmits(t.jobs, i, t'.jobs[i])
    requires ProblemsStep(t.problems, t'.problems, i) && OthersLinked(t.assignments, t'.assignments, i)
    requires JobInv(t', i)
    ensures Inv(t')
  {
    IndexKeepsOneActive(t.jobs, i, t'.jobs[i]);
    forall x | 0 <= x < |t'.jobs| ensures JobInv(t', x) {
      if x != i {
        assert JobInv(t, x) && t'.jobs[x] == t.jobs[x];
        OtherProblemsOk(t.problems, t'.problems, i, x, t.jobs[x]);
      }
    }
  }

  /** The job keeps its place: organization, store and order. */
  predicate SamePlace(j: Job, j': Job) {
    j'.org == j.org && j'.store == j.store && j'.order == j.order
  }

  lemma RefsKept(t: Tables, t': Tables, i: nat)
    requires RefsOk(t) && i < |t.jobs| == |t'.jobs|
    requires t'.jobs == t.jobs[i := t'.jobs[i]] && SamePlace(t.jobs[i], t'.jobs[i])
    requires t'.assignments == t.assignments && t'.problems == t.problems && t'.couriers == t.couriers
    ensures RefsOk(t')
  {
  }

  /** bump alone: only the job's own row is rewritten. */
  lemma BumpKeepsInv(t: Tables, i: nat, j: Job, expected: int)
    requires Inv(t) && i < |t.jobs| && Bump(t, i, j, expected).Ok?
    requires SamePlace(t.jobs[i], j) && j.courier == t.jobs[i].courier
    requires JobOk(t.orders, j.(version := t.jobs[i].version)) && ProblemsOk(t.problems, i, j)
    ensures Inv(Bump(t, i, j, expected).value)
  {
    var t' := Bump(t, i, j, expected).value;
    RefsKept(t, t', i);
    assert JobInv(t, i) && JobInv(t', i);
    OneJobKeepsInv(t, t', i);
  }

  lemma ClaimKeepsInv(t: Tables, keys: map<IdempotencyKey, nat>)
    requires Inv(t)
    ensures Inv(t.(keys := keys))
  {
    forall i | 0 <= i < |t.jobs| ensures JobInv(t.(keys := keys), i) {
      assert JobInv(t, i);
    }
  }
}
