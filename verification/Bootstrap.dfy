/** The first state of a run. */
module Bootstrap {
  import opened BusinessCalendar
  import opened Team
  import opened Routes
  import opened Scope
  import opened RunInvariant
  import opened Lifecycle

  /** The sprint that contains t, or sprint 0 while it is still to come. */
  ghost predicate Contains(bp: Blueprint, k: nat, t: int) {
    if t < bp.anchor then k == 0
    else CadenceBoundary(bp.calendar, bp.anchor, bp.cadenceDays, k) <= t
         < CadenceBoundary(bp.calendar, bp.anchor, bp.cadenceDays, k + 1)
  }

  /** Counting sprints up from the first until one ends after t. */
  method ContainingOrdinal(bp: Blueprint, t: int) returns (k: nat)
    requires ValidClock(bp.calendar) && bp.cadenceDays > 0
    ensures Contains(bp, k, t)
  {
    k := 0;
    if t < bp.anchor {
      return;
    }
    while CadenceBoundary(bp.calendar, bp.anchor, bp.cadenceDays, k + 1) <= t
      invariant CadenceBoundary(bp.calendar, bp.anchor, bp.cadenceDays, k) <= t
      decreases t - CadenceBoundary(bp.calendar, bp.anchor, bp.cadenceDays, k + 1)
    {
      CadenceIncreases(bp.calendar, bp.anchor, bp.cadenceDays, k + 1, k + 2);
      k := k + 1;
    }
  }

  /** Some sprint contains every instant. */
  lemma SprintOf(bp: Blueprint, t: int) returns (k: nat)
    requires ValidClock(bp.calendar) && bp.cadenceDays > 0 && t >= bp.anchor
    ensures Contains(bp, k, t)
  {
    k := 0;
    while CadenceBoundary(bp.calendar, bp.anchor, bp.cadenceDays, k + 1) <= t
      invariant CadenceBoundary(bp.calendar, bp.anchor, bp.cadenceDays, k) <= t
      decreases t - CadenceBoundary(bp.calendar, bp.anchor, bp.cadenceDays, k + 1)
    {
      CadenceIncreases(bp.calendar, bp.anchor, bp.cadenceDays, k + 1, k + 2);
      k := k + 1;
    }
  }

  /** No other sprint contains t. */
  lemma ContainsUnique(bp: Blueprint, k: nat, l: nat, t: int)
    requires ValidClock(bp.calendar) && bp.cadenceDays > 0 && Contains(bp, k, t) && Contains(bp, l, t)
    ensures k == l
  {
    if k < l {
      OrdinalOrder(bp, k + 1, l);
    } else if l < k {
      OrdinalOrder(bp, l + 1, k);
    }
  }

  lemma OrdinalOrder(bp: Blueprint, k: nat, l: nat)
    requires ValidClock(bp.calendar) && bp.cadenceDays > 0 && k <= l
    ensures CadenceBoundary(bp.calendar, bp.anchor, bp.cadenceDays, k) <= CadenceBoundary(bp.calendar, bp.anchor, bp.cadenceDays, l)
  {
    if k < l {
      CadenceIncreases(bp.calendar, bp.anchor, bp.cadenceDays, k, l);
    }
  }

  // ---------- The initial state ----------

  function CounterDomain(members: nat, items: nat): set<Counter> {
    {SprintOrdinal}
    + (set i: nat | i < items :: VisitOrdinal(i))
    + (set i: nat | i < items :: Occurrence(CancellationOutcome, i))
    + (set j: nat | j < members :: Occurrence(AbsenceOutcome, j))
  }

  function InitialCounters(members: nat, items: nat, k: nat, visits: Visits): map<Counter, nat> {
    map c | c in CounterDomain(members, items) ::
      match c
      case SprintOrdinal => k + 1
      case VisitOrdinal(i) => if (i, 0) in visits then 1 else 0
      case Occurrence(_, _) => 0
  }

  /** The state a run starts in at t, when its first sprint is k: planned and empty before the first
      boundary, otherwise running with its scope selected and activated. */
  function InitialState(bp: Blueprint, draws: Draws, backlog: seq<Item>, t: int, k: nat): State
    requires KindsKnown(bp, backlog)
  {
    var start := CadenceBoundary(bp.calendar, bp.anchor, bp.cadenceDays, k);
    var end := CadenceBoundary(bp.calendar, bp.anchor, bp.cadenceDays, k + 1);
    if t < start then
      State(t, 0, backlog, map[], map[k := Sprint(k, Planned, start, end)], map[], map[], [],
            InitialCounters(|bp.members|, |backlog|, k, map[]))
    else
      var ids := SelectFrom(backlog, bp.minPoints, Target(bp, draws.target(k)), 0, 0);
      var visits := Opened(bp, draws, backlog, ids, t);
      State(t, 0, Activated(bp, draws, backlog, ids, t), visits, map[k := Sprint(k, Running, start, end)],
            Entries(k, ids, t), map[], [], InitialCounters(|bp.members|, |backlog|, k, visits))
  }

  /** A backlog a run may start from. */
  ghost predicate Fresh(bp: Blueprint, backlog: seq<Item>) {
    forall i :: 0 <= i < |backlog| ==> backlog[i].life.Backlog? && backlog[i].kind in bp.routes && Estimate(backlog[i].points)
  }

  lemma KindsFresh(bp: Blueprint, backlog: seq<Item>)
    requires ValidRoutes(bp) && Fresh(bp, backlog)
    ensures KindsKnown(bp, backlog)
  {
    forall i | 0 <= i < |backlog| ensures |bp.routes[backlog[i].kind]| > 0 {
      assert ValidRoute(bp, bp.routes[backlog[i].kind]);
    }
  }

  /** A fresh item, before any visit. */
  lemma FreshItem(bp: Blueprint, backlog: seq<Item>, visits: Visits, i: nat)
    requires Fresh(bp, backlog) && i < |backlog| && forall k: nat :: (i, k) !in visits
    ensures ItemOk(bp, visits, backlog[i], i, 0)
  {
  }

  lemma FirstItem(bp: Blueprint, draws: Draws, backlog: seq<Item>, ids: seq<nat>, t: int, i: nat)
    requires ValidRoutes(bp) && Fresh(bp, backlog) && KindsKnown(bp, backlog) && i < |backlog|
    ensures var visits := Opened(bp, draws, backlog, ids, t);
            ItemOk(bp, visits, Activated(bp, draws, backlog, ids, t)[i], i, if (i, 0) in visits then 1 else 0)
  {
    var visits := Opened(bp, draws, backlog, ids, t);
    FreshItem(bp, backlog, map[], i);
    if i in ids {
      ActivateOk(bp, draws, t, map[], visits, backlog[i], i);
    } else {
      FreshItem(bp, backlog, visits, i);
    }
  }

  /** Every run starts in a state that meets the invariant. */
  lemma InitialInvariant(bp: Blueprint, draws: Draws, backlog: seq<Item>, t: int, k: nat)
    requires ValidBlueprint(bp) && ValidWindows(bp, []) && Fresh(bp, backlog) && Contains(bp, k, t)
    ensures KindsKnown(bp, backlog) && Invariant(bp, t, InitialState(bp, draws, backlog, t, k), k)
  {
    KindsFresh(bp, backlog);
    if t < CadenceBoundary(bp.calendar, bp.anchor, bp.cadenceDays, k) {
      PlannedInvariant(bp, draws, backlog, t, k);
    } else {
      RunningInvariant(bp, draws, backlog, t, k);
    }
  }

  lemma PlannedInvariant(bp: Blueprint, draws: Draws, backlog: seq<Item>, t: int, k: nat)
    requires ValidWindows(bp, []) && Fresh(bp, backlog) && KindsKnown(bp, backlog)
    requires t < CadenceBoundary(bp.calendar, bp.anchor, bp.cadenceDays, k)
    ensures Invariant(bp, t, InitialState(bp, draws, backlog, t, k), k)
  {
    var s := InitialState(bp, draws, backlog, t, k);
    InitialKnown(bp, backlog, t, k, s);
    forall i: nat | i < |s.items| ensures ItemHolds(bp, s, i) {
      FreshItem(bp, backlog, map[], i);
    }
    InitialSprints(bp, t, k, s);
  }

  lemma RunningInvariant(bp: Blueprint, draws: Draws, backlog: seq<Item>, t: int, k: nat)
    requires ValidBlueprint(bp) && ValidWindows(bp, []) && Fresh(bp, backlog) && Contains(bp, k, t) && KindsKnown(bp, backlog)
    requires CadenceBoundary(bp.calendar, bp.anchor, bp.cadenceDays, k) <= t
    ensures Invariant(bp, t, InitialState(bp, draws, backlog, t, k), k)
  {
    var s := InitialState(bp, draws, backlog, t, k);
    var ids := SelectFrom(backlog, bp.minPoints, Target(bp, draws.target(k)), 0, 0);
    SelectFills(backlog, bp.minPoints, Target(bp, draws.target(k)));
    InitialKnown(bp, backlog, t, k, s);
    forall i: nat | i < |s.items| ensures ItemHolds(bp, s, i) {
      FirstItem(bp, draws, backlog, ids, t, i);
    }
    CadenceIncreases(bp.calendar, bp.anchor, bp.cadenceDays, 0, k + 1);
    AnchorFirst(bp.calendar, bp.anchor, bp.cadenceDays, k);
    OpenedTimely(bp, draws, backlog, ids, t);
    InitialSprints(bp, t, k, s);
    FirstScope(bp, draws, backlog, ids, t, k, s);
  }

  lemma OpenedTimely(bp: Blueprint, draws: Draws, items: seq<Item>, ids: seq<nat>, t: int)
    requires KindsKnown(bp, items) && bp.anchor <= t
    ensures Timely(bp.anchor, t, Opened(bp, draws, items, ids, t))
  {
  }

  lemma InitialKnown(bp: Blueprint, backlog: seq<Item>, t: int, k: nat, s: State)
    requires |s.items| == |backlog| && s.counters == InitialCounters(|bp.members|, |backlog|, k, s.visits)
    ensures OccurrencesKnown(bp, s) && SprintOrdinal in s.counters && s.counters[SprintOrdinal] == k + 1
    ensures forall i: nat :: i < |s.items| ==>
              VisitOrdinal(i) in s.counters && s.counters[VisitOrdinal(i)] == if (i, 0) in s.visits then 1 else 0
  {
  }

  lemma InitialSprints(bp: Blueprint, t: int, k: nat, s: State)
    requires SprintOrdinal in s.counters && s.counters[SprintOrdinal] == k + 1
    requires s.sprints.Keys == {k} && !s.sprints[k].phase.Completed? && s.sprints[k].ordinal == k
    requires s.sprints[k].start == CadenceBoundary(bp.calendar, bp.anchor, bp.cadenceDays, k)
    requires s.sprints[k].end == CadenceBoundary(bp.calendar, bp.anchor, bp.cadenceDays, k + 1)
    requires if s.sprints[k].phase.Planned? then t <= s.sprints[k].start && forall i :: 0 <= i < |s.items| ==> s.items[i].life.Backlog?
             else s.sprints[k].start <= t <= s.sprints[k].end
    ensures SprintsOk(bp, t, s, k)
  {
  }

  lemma FirstScope(bp: Blueprint, draws: Draws, backlog: seq<Item>, ids: seq<nat>, t: int, k: nat, s: State)
    requires KindsKnown(bp, backlog) && Fresh(bp, backlog) && forall x :: 0 <= x < |ids| ==> ids[x] < |backlog|
    requires OpenOrdinal(s) == k && s.items == Activated(bp, draws, backlog, ids, t) && s.scope == Entries(k, ids, t)
    ensures ScopeOk(s)
  {
    forall l: nat, i: nat | InScope(s.scope, l, i) ensures l == k && i < |s.items| && !s.items[i].life.Backlog? {
      assert i in ids;
    }
    forall i: nat | i < |s.items| && s.items[i].life.Active? ensures InScope(s.scope, k, i) {
      assert i in ids;
    }
  }

  /** Starting a team: find the sprint that contains t, and build the first state. */
  method StartTeam(bp: Blueprint, draws: Draws, backlog: seq<Item>, t: int) returns (s: State, k: nat)
    requires ValidBlueprint(bp) && ValidWindows(bp, []) && Fresh(bp, backlog)
    ensures KindsKnown(bp, backlog) && Contains(bp, k, t) && s == InitialState(bp, draws, backlog, t, k)
    ensures Invariant(bp, t, s, k)
  {
    k := ContainingOrdinal(bp, t);
    InitialInvariant(bp, draws, backlog, t, k);
    var start := CadenceBoundary(bp.calendar, bp.anchor, bp.cadenceDays, k);
    var end := CadenceBoundary(bp.calendar, bp.anchor, bp.cadenceDays, k + 1);
    if t < start {
      s := State(t, 0, backlog, map[], map[k := Sprint(k, Planned, start, end)], map[], map[], [],
                 InitialCounters(|bp.members|, |backlog|, k, map[]));
    } else {
      var ids := SelectScope(backlog, bp.minPoints, Target(bp, draws.target(k)));
      var visits := Opened(bp, draws, backlog, ids, t);
      s := State(t, 0, Activated(bp, draws, backlog, ids, t), visits, map[k := Sprint(k, Running, start, end)],
                 Entries(k, ids, t), map[], [], InitialCounters(|bp.members|, |backlog|, k, visits));
    }
  }
}
