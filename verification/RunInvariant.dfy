/** What holds of every reachable state of a run. */
module RunInvariant {
  import opened BusinessCalendar
  import opened Allocation
  import opened Team
  import opened Routes

  type Visits = map<(nat, nat), Visit>

  // ---------- Items and their visits ----------

  /** The story points an item may have. */
  predicate Estimate(points: nat) {
    points == 1 || points == 2 || points == 3 || points == 5 || points == 8 || points == 13
  }

  /** The item's status is one its route times. */
  ghost predicate AtTimedStep(bp: Blueprint, item: Item) {
    && item.kind in bp.routes
    && exists p :: 0 <= p < |bp.routes[item.kind]|
         && bp.routes[item.kind][p].status == item.status && Timed(bp, bp.routes[item.kind][p])
  }

  /** An open visit stands where its item stands, and its labor balances. */
  ghost predicate OpenOk(bp: Blueprint, item: Item, v: Visit) {
    && v.status == item.status && v.closed.None?
    && v.elapsed == v.credited && v.elapsed + v.remaining == v.required
    && (v.member.Some? ==> v.member.value < |bp.members|)
  }

  ghost predicate ClosedOk(v: Visit) {
    && v.remaining == 0 && v.elapsed == v.required && v.credited <= v.required
    && v.closed.Some?
  }

  ghost predicate VisitOk(bp: Blueprint, item: Item, i: nat, n: nat, k: nat, v: Visit) {
    && v.item == i && v.ordinal == k
    && (v.open <==> item.life.Active? && k + 1 == n)
    && (if v.open then OpenOk(bp, item, v) else ClosedOk(v))
  }

  /** n is the item's visit counter: its visits are exactly those numbered below n, an active item has
      the last one open, and no other visit is open. */
  ghost predicate ItemOk(bp: Blueprint, visits: Visits, item: Item, i: nat, n: nat) {
    && item.kind in bp.routes && Estimate(item.points)
    && (item.life.Backlog? ==> n == 0)
    && (item.life.Active? ==> n > 0 && AtTimedStep(bp, item))
    && (forall k: nat :: (i, k) in visits <==> k < n)
    && (forall k: nat :: k < n ==> VisitOk(bp, item, i, n, k, visits[(i, k)]))
  }

  /** The instants of a visit are in order, none before `from` and none after `now`. */
  ghost predicate InTime(from: int, now: int, v: Visit) {
    from <= v.entered <= now && (v.closed.Some? ==> v.entered <= v.closed.value <= now)
  }

  ghost predicate Timely(from: int, now: int, visits: Visits) {
    forall key :: key in visits ==> InTime(from, now, visits[key])
  }

  /** The two maps agree on item i. */
  ghost predicate SameFor(i: nat, a: Visits, b: Visits) {
    && (forall k: nat :: (i, k) in a <==> (i, k) in b)
    && (forall k: nat :: (i, k) in a && (i, k) in b ==> a[(i, k)] == b[(i, k)])
  }

  lemma ItemSame(bp: Blueprint, visits: Visits, more: Visits, item: Item, i: nat, n: nat)
    requires ItemOk(bp, visits, item, i, n) && SameFor(i, visits, more)
    ensures ItemOk(bp, more, item, i, n)
  {
    forall k: nat | k < n ensures VisitOk(bp, item, i, n, k, more[(i, k)]) {
      assert VisitOk(bp, item, i, n, k, visits[(i, k)]);
    }
  }

  // ---------- Sprints and scope ----------

  /** Ordinals run without a gap from the first sprint to the open one; every sprint spans one cadence
      step, so each starts where its predecessor ends; only the last is not completed. */
  ghost predicate Tiled(bp: Blueprint, sprints: map<nat, Sprint>, first: nat, m: nat) {
    && first <= m
    && (forall k: nat :: k in sprints <==> first <= k <= m)
    && (forall k: nat :: k in sprints ==>
          && sprints[k].ordinal == k
          && sprints[k].start == CadenceBoundary(bp.calendar, bp.anchor, bp.cadenceDays, k)
          && sprints[k].end == CadenceBoundary(bp.calendar, bp.anchor, bp.cadenceDays, k + 1)
          && (sprints[k].phase.Completed? <==> k < m))
  }

  /** The ordinal of the open sprint. */
  function OpenOrdinal(s: State): nat {
    if Next(s, SprintOrdinal) > 0 then Next(s, SprintOrdinal) - 1 else 0
  }

  ghost predicate SprintsOk(bp: Blueprint, now: int, s: State, first: nat) {
    && SprintOrdinal in s.counters && s.counters[SprintOrdinal] > 0
    && Tiled(bp, s.sprints, first, OpenOrdinal(s))
    && var sprint := s.sprints[OpenOrdinal(s)];
       if sprint.phase.Planned?
       then now <= sprint.start && forall i :: 0 <= i < |s.items| ==> s.items[i].life.Backlog?
       else sprint.start <= now <= sprint.end
  }

  ghost predicate InScope(scope: map<(nat, nat), ScopeEntry>, k: nat, i: nat) {
    (k, i) in scope && scope[(k, i)].removed.None?
  }

  /** Current scope belongs to the open sprint only, and holds every active item. */
  ghost predicate ScopeOk(s: State) {
    var m := OpenOrdinal(s);
    && (forall k: nat, i: nat :: (k, i) in s.scope ==> i < |s.items| && k <= m)
    && (forall k: nat, i: nat :: InScope(s.scope, k, i) ==> k == m)
    && (forall i: nat :: InScope(s.scope, m, i) && i < |s.items| ==> !s.items[i].life.Backlog?)
    && (forall i: nat :: i < |s.items| && s.items[i].life.Active? ==> InScope(s.scope, m, i))
  }

  // ---------- Everything ----------

  ghost predicate ItemHolds(bp: Blueprint, s: State, i: nat)
    requires i < |s.items|
  {
    VisitOrdinal(i) in s.counters && ItemOk(bp, s.visits, s.items[i], i, s.counters[VisitOrdinal(i)])
  }

  ghost predicate ItemsOk(bp: Blueprint, s: State) {
    && (forall i: nat :: i < |s.items| ==> ItemHolds(bp, s, i))
    && (forall i: nat, k: nat :: (i, k) in s.visits ==> i < |s.items|)
  }

  ghost predicate OccurrencesKnown(bp: Blueprint, s: State) {
    && (forall i: nat :: i < |s.items| ==> Occurrence(CancellationOutcome, i) in s.counters)
    && (forall j: nat :: j < |bp.members| ==> Occurrence(AbsenceOutcome, j) in s.counters)
  }

  /** No member's day holds more labor than their configured capacity. */
  ghost predicate WithinCapacity(bp: Blueprint, book: Book) {
    forall j: nat, day: int :: j < |bp.members| ==> Spent(book, j, day) <= bp.members[j].capacity
  }

  ghost predicate ValidBlueprint(bp: Blueprint) {
    && Valid(bp.calendar) && ValidClock(bp.calendar) && ValidRoutes(bp) && bp.cadenceDays > 0
    && bp.minPoints <= bp.maxPoints
    && forall a, b :: 0 <= a < b < |bp.rules| ==> bp.rules[a].kind != bp.rules[b].kind
  }

  /** The invariant of a run: nothing in the state happens after `now`, and no visit was entered before the
      first sprint boundary. */
  ghost predicate Invariant(bp: Blueprint, now: int, s: State, first: nat) {
    && ValidWindows(bp, s.overlays)
    && ItemsOk(bp, s) && Timely(bp.anchor, now, s.visits) && OccurrencesKnown(bp, s) && SprintsOk(bp, now, s, first) && ScopeOk(s)
    && WithinCapacity(bp, s.book)
  }

  /** Each item is in the current scope at most once. */
  lemma OneCurrentScope(bp: Blueprint, now: int, s: State, first: nat, i: nat, k: nat, l: nat)
    requires Invariant(bp, now, s, first) && InScope(s.scope, k, i) && InScope(s.scope, l, i)
    ensures k == l
  {
  }

  /** Each sprint starts where the one before it ends, and ends later than it starts. */
  lemma SprintsTile(bp: Blueprint, now: int, s: State, first: nat, k: nat)
    requires ValidBlueprint(bp) && Invariant(bp, now, s, first) && k in s.sprints
    ensures s.sprints[k].start < s.sprints[k].end
    ensures k > first ==> k - 1 in s.sprints && s.sprints[k - 1].end == s.sprints[k].start
    ensures k < OpenOrdinal(s) ==> k + 1 in s.sprints
    ensures s.sprints[k].phase.Completed? <==> k != OpenOrdinal(s)
  {
    CadenceIncreases(bp.calendar, bp.anchor, bp.cadenceDays, k, k + 1);
  }

  /** Sprint k starts cadenceDays * k local days after the first boundary's day and ends cadenceDays days
      later, both at the first boundary's local clock. */
  lemma SprintDays(bp: Blueprint, now: int, s: State, first: nat, k: nat)
    requires ValidBlueprint(bp) && Invariant(bp, now, s, first) && k in s.sprints
    ensures var c, sprint := bp.calendar, s.sprints[k];
            && c.date(sprint.start) == c.date(bp.anchor) + bp.cadenceDays * k
            && c.date(sprint.end) == c.date(sprint.start) + bp.cadenceDays
            && c.clock(sprint.start) == c.clock(sprint.end) == c.clock(bp.anchor)
  {
    CadenceDay(bp.calendar, bp.anchor, bp.cadenceDays, k);
    CadenceDay(bp.calendar, bp.anchor, bp.cadenceDays, k + 1);
    DaysNext(bp.cadenceDays, k);
  }

  lemma DaysNext(days: nat, k: nat)
    ensures days * (k + 1) == days * k + days
  {
  }

  ghost predicate OpenAt(s: State, i: nat, k: nat) {
    (i, k) in s.visits && s.visits[(i, k)].open
  }

  /** An item is active exactly when it has an open visit; that visit is its last, stands in its
      status, and is the only open one. */
  lemma ActiveIffOpen(bp: Blueprint, now: int, s: State, first: nat, i: nat)
    requires Invariant(bp, now, s, first) && i < |s.items|
    ensures s.items[i].life.Active? <==> exists k: nat :: OpenAt(s, i, k)
    ensures forall k: nat, l: nat :: OpenAt(s, i, k) && OpenAt(s, i, l) ==> k == l
    ensures forall k: nat :: OpenAt(s, i, k) ==>
              s.visits[(i, k)].status == s.items[i].status && s.visits[(i, k)].elapsed == s.visits[(i, k)].credited
    ensures s.items[i].life.Backlog? ==> forall k: nat :: (i, k) !in s.visits
  {
    assert ItemHolds(bp, s, i);
    var n := s.counters[VisitOrdinal(i)];
    forall k: nat | k < n ensures VisitOk(bp, s.items[i], i, n, k, s.visits[(i, k)]) {
    }
    if s.items[i].life.Active? {
      assert OpenAt(s, i, n - 1);
    }
  }
}
