/** How the florist workspace ranks orders as their time comes closer. */
module Urgency {
  import opened Wrappers
  import opened Sorting

  datatype Level = Normal | Soon | Urgent | Overdue

  /** Times in milliseconds. */
  function ComputeUrgency(readyAt: Option<int>, now: int, soonMinutes: int): Level {
    if readyAt.None? then Normal
    else
      var ms := readyAt.value - now;
      var soonMs := soonMinutes * 60_000;
      if ms < 0 then Overdue
      else if 2 * ms <= soonMs then Urgent
      else if ms <= soonMs then Soon
      else Normal
  }

  /** The local calendar day a time falls in; it only moves forward. */
  ghost predicate Calendar(dayOf: int -> int) {
    forall a, b :: a <= b ==> dayOf(a) <= dayOf(b)
  }

  /** Lower is more pressing. readyAt lies between the start and the end of the local day of now: same calendar day. */
  function WorkspacePriority(inPreparation: bool, readyAt: Option<int>, now: int, soonMinutes: int, dayOf: int -> int): nat {
    match ComputeUrgency(readyAt, now, soonMinutes)
    case Overdue => 0
    case Urgent => 1
    case Soon => 1
    case Normal =>
      if inPreparation then 2
      else if readyAt.Some? && dayOf(readyAt.value) == dayOf(now) then 3
      else 4
  }

  function Rank(level: Level): nat {
    match level
    case Overdue => 0
    case Urgent => 1
    case Soon => 2
    case Normal => 3
  }

  /** The levels in minutes: half the notice is URGENT, the whole of it SOON, and an order without a time is never pressing. */
  lemma LevelsInMinutes(readyAt: Option<int>, now: int, soonMinutes: int)
    ensures var level := ComputeUrgency(readyAt, now, soonMinutes);
      match readyAt
      case None => level == Normal
      case Some(ready) =>
        && (level == Overdue <==> ready < now)
        && (level == Urgent <==> now <= ready <= now + 30_000 * soonMinutes)
        && (level == Soon <==> now <= ready <= now + 60_000 * soonMinutes && now + 30_000 * soonMinutes < ready)
        && (level == Normal <==> now <= ready && now + 60_000 * soonMinutes < ready)
  {
  }

  /** What puts a card in each place: overdue, within its notice, in preparation, due today, and the rest. */
  lemma PlacesInTheWorkspace(
    inPreparation: bool, readyAt: Option<int>, now: int, soonMinutes: int, dayOf: int -> int)
    requires soonMinutes >= 0
    ensures var place := WorkspacePriority(inPreparation, readyAt, now, soonMinutes, dayOf);
      match readyAt
      case None => place == if inPreparation then 2 else 4
      case Some(ready) =>
        && (place == 0 <==> ready < now)
        && (place == 1 <==> now <= ready <= now + 60_000 * soonMinutes)
        && (now + 60_000 * soonMinutes < ready ==>
              place == if inPreparation then 2 else if dayOf(ready) == dayOf(now) then 3 else 4)
  {
    LevelsInMinutes(readyAt, now, soonMinutes);
  }

  /** As the clock advances an order's urgency never relaxes and its place in the workspace never gets worse. */
  lemma PriorityNeverRelaxes(
    inPreparation: bool, readyAt: Option<int>, now: int, later: int, soonMinutes: int, dayOf: int -> int)
    requires now <= later && Calendar(dayOf)
    ensures Rank(ComputeUrgency(readyAt, later, soonMinutes)) <= Rank(ComputeUrgency(readyAt, now, soonMinutes))
    ensures WorkspacePriority(inPreparation, readyAt, later, soonMinutes, dayOf)
      <= WorkspacePriority(inPreparation, readyAt, now, soonMinutes, dayOf)
  {
    if readyAt.Some? && later <= readyAt.value {
      assert dayOf(now) <= dayOf(later) <= dayOf(readyAt.value);
    }
  }

  datatype Card = Card(priority: nat, readyAt: Option<int>, number: string)

  /** A missing time counts as later than any other. */
  function CompareReady(a: Option<int>, b: Option<int>): int {
    match (a, b)
    case (None, None) => 0
    case (None, Some(_)) => 1
    case (Some(_), None) => -1
    case (Some(x), Some(y)) => x - y
  }

  function CompareWorkspacePriority(a: Card, b: Card, collate: (string, string) -> int): int {
    if a.priority != b.priority then a.priority - b.priority
    else if CompareReady(a.readyAt, b.readyAt) != 0 then CompareReady(a.readyAt, b.readyAt)
    else collate(a.number, b.number)
  }

  /** What localeCompare promises: two strings compare oppositely the other way round, and transitively. */
  ghost predicate Collation(collate: (string, string) -> int) {
    && (forall a, b :: collate(a, b) <= 0 <==> collate(b, a) >= 0)
    && forall a, b, c :: collate(a, b) <= 0 && collate(b, c) <= 0 ==> collate(a, c) <= 0
  }

  function NotAfter(collate: (string, string) -> int): (Card, Card) -> bool {
    (a: Card, b: Card) => CompareWorkspacePriority(a, b, collate) <= 0
  }

  lemma CompareIsTransitive(a: Card, b: Card, c: Card, collate: (string, string) -> int)
    requires Collation(collate)
    requires CompareWorkspacePriority(a, b, collate) <= 0 && CompareWorkspacePriority(b, c, collate) <= 0
    ensures CompareWorkspacePriority(a, c, collate) <= 0
  {
  }

  lemma CompareIsTotal(a: Card, b: Card, collate: (string, string) -> int)
    requires Collation(collate)
    ensures CompareWorkspacePriority(a, b, collate) <= 0 <==> CompareWorkspacePriority(b, a, collate) >= 0
  {
  }

  lemma CompareIsPreorder(collate: (string, string) -> int)
    requires Collation(collate)
    ensures TotalPreorder(NotAfter(collate))
  {
    var leq := NotAfter(collate);
    forall a, b ensures leq(a, b) || leq(b, a) {
      CompareIsTotal(a, b, collate);
    }
    forall a, b, c | leq(a, b) && leq(b, c) ensures leq(a, c) {
      CompareIsTransitive(a, b, c, collate);
    }
  }

  /**
   The sorted page holds the same cards, no more pressing one behind a less pressing, undated ones last of their
   rank, and by number where rank and time are the same.
   */
  lemma PageIsRanked(page: seq<Card>, collate: (string, string) -> int, i: nat, j: nat)
    requires Collation(collate) && i < j < |Sort(page, NotAfter(collate))|
    ensures var sorted := Sort(page, NotAfter(collate));
      && multiset(sorted) == multiset(page)
      && sorted[i].priority <= sorted[j].priority
      && (sorted[i].priority == sorted[j].priority && sorted[j].readyAt.Some? ==>
            sorted[i].readyAt.Some? && sorted[i].readyAt.value <= sorted[j].readyAt.value)
      && (sorted[i].priority == sorted[j].priority && sorted[i].readyAt == sorted[j].readyAt ==>
            collate(sorted[i].number, sorted[j].number) <= 0)
  {
    CompareIsPreorder(collate);
    SortIsOrdered(page, NotAfter(collate));
    var sorted := Sort(page, NotAfter(collate));
    assert NotAfter(collate)(sorted[i], sorted[j]);
  }
}
