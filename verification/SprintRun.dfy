/** A boundary crossing as a whole: what is due, what it keeps, and what it carries over. */
module SprintRun {
  import opened BusinessCalendar
  import opened AllocationLaws
  import opened Team
  import opened Commands
  import opened Routes
  import opened Scope
  import opened RunInvariant
  import opened Lifecycle
  import opened LifecycleLaws

  // ---------- What is due ----------

  function OpenSprint(s: State): Sprint
    requires OpenOrdinal(s) in s.sprints
  {
    s.sprints[OpenOrdinal(s)]
  }

  /** The instant of the next sprint transition. */
  function NextBoundary(s: State): int
    requires OpenOrdinal(s) in s.sprints
  {
    if OpenSprint(s).phase.Planned? then OpenSprint(s).start else OpenSprint(s).end
  }

  /** What a crossing does to a state whose open sprint is due: activation of a planned sprint, or
      rollover of a running one. */
  function Crossing(bp: Blueprint, draws: Draws, s: State, t: int): Outcome
    requires KindsKnown(bp, s.items) && OpenOrdinal(s) in s.sprints
  {
    if OpenSprint(s).phase.Planned? then ActivateSprint(bp, draws, s, OpenOrdinal(s), t)
    else RollSprint(bp, draws, s, OpenOrdinal(s), t)
  }

  /** A crossing happens exactly at the open sprint's boundary, and to that sprint. */
  lemma CrossingDue(bp: Blueprint, draws: Draws, now: int, s: State, first: nat, t: int)
    requires KindsKnown(bp, s.items) && SprintsOk(bp, now, s, first)
    ensures CrossBoundary(bp, draws, s, t) == if NextBoundary(s) == t then Some(Crossing(bp, draws, s, t)) else None
  {
    var m := OpenOrdinal(s);
    var planned := FindSprint(s.sprints, (sprint: Sprint) => sprint.phase.Planned? && sprint.start == t, 0, Next(s, SprintOrdinal));
    var running := FindSprint(s.sprints, (sprint: Sprint) => sprint.phase.Running? && sprint.end == t, 0, Next(s, SprintOrdinal));
    assert planned.Some? ==> planned.value == m;
    assert running.Some? ==> running.value == m;
    assert m < Next(s, SprintOrdinal);
  }

  // ---------- Activation ----------

  lemma ActivationPlans(bp: Blueprint, draws: Draws, s: State, k: nat, t: int) returns (ids: seq<nat>)
    requires KindsKnown(bp, s.items) && k in s.sprints && forall i :: 0 <= i < |s.items| ==> s.items[i].life.Backlog?
    ensures ids == SelectFrom(s.items, bp.minPoints, Target(bp, draws.target(k)), 0, 0)
    ensures Plannable(s, ids) && Plans(bp, draws, s, ids, t, ActivateSprint(bp, draws, s, k, t), false)
  {
    ids := SelectFrom(s.items, bp.minPoints, Target(bp, draws.target(k)), 0, 0);
    SelectFills(s.items, bp.minPoints, Target(bp, draws.target(k)));
    assert Plannable(s, ids);
    VisitClaimsFor(bp, draws, s, ids, t);
  }

  lemma ActivationKeeps(bp: Blueprint, draws: Draws, now: int, s: State, first: nat, t: int)
    requires ValidBlueprint(bp) && Invariant(bp, now, s, first) && KindsKnown(bp, s.items) && now <= t
    requires OpenSprint(s).phase.Planned? && t == OpenSprint(s).start
    ensures var o := ActivateSprint(bp, draws, s, OpenOrdinal(s), t);
            Accepted(s, o) && Invariant(bp, t, Committed(s, o), first)
  {
    var m := OpenOrdinal(s);
    var o := ActivateSprint(bp, draws, s, m, t);
    var ids := ActivationPlans(bp, draws, s, m, t);
    PlanAccepted(bp, draws, s, ids, t, o, false);
    PlanKeepsItems(bp, draws, s, ids, t, o, false);
    AnchorFirst(bp.calendar, bp.anchor, bp.cadenceDays, m);
    PlanTimely(bp, draws, now, s, ids, t, o.after.visits);
    CountersKnown(bp, s);
    PlanCounters(bp, draws, s, ids, t, o.claims, false);
    CadenceIncreases(bp.calendar, bp.anchor, bp.cadenceDays, m, m + 1);
    ActivationScope(bp, draws, s, ids, t, m, Committed(s, o));
    SameOccurrences(bp, s, o);
    ActivationTiles(bp, s.sprints, first, m, Committed(s, o).sprints);
  }

  /** Planning at t opens visits at t. */
  lemma PlanTimely(bp: Blueprint, draws: Draws, now: int, s: State, ids: seq<nat>, t: int, after: Visits)
    requires KindsKnown(bp, s.items) && Timely(bp.anchor, now, s.visits) && bp.anchor <= t && now <= t
    requires after == s.visits + Opened(bp, draws, s.items, ids, t)
    ensures Timely(bp.anchor, t, after)
  {
    forall key | key in after ensures InTime(bp.anchor, t, after[key]) {
      if key !in Opened(bp, draws, s.items, ids, t) {
        assert InTime(bp.anchor, now, s.visits[key]);
      }
    }
  }

  lemma ActivationTiles(bp: Blueprint, sprints: map<nat, Sprint>, first: nat, m: nat, after: map<nat, Sprint>)
    requires Tiled(bp, sprints, first, m) && after == sprints[m := sprints[m].(phase := Running)]
    ensures Tiled(bp, after, first, m)
  {
  }

  lemma SameOccurrences(bp: Blueprint, s: State, o: Outcome)
    requires OccurrencesKnown(bp, s) && |o.after.items| == |s.items| && CountersSeen(s.counters, o.claims)
    ensures OccurrencesKnown(bp, Committed(s, o))
  {
    CounterKeys(s.counters, o.claims);
  }

  lemma ActivationScope(bp: Blueprint, draws: Draws, s: State, ids: seq<nat>, t: int, m: nat, after: State)
    requires KindsKnown(bp, s.items) && Plannable(s, ids) && ScopeOk(s) && m == OpenOrdinal(s) == OpenOrdinal(after)
    requires forall i :: 0 <= i < |s.items| ==> s.items[i].life.Backlog?
    requires after.items == Activated(bp, draws, s.items, ids, t) && after.scope == s.scope + Entries(m, ids, t)
    ensures ScopeOk(after)
  {
    ActivationKeys(s, ids, t, m, after.scope);
    forall k: nat, i: nat | InScope(after.scope, k, i) ensures k == m && i in ids {
      ActivatedEntry(s, ids, t, m, after.scope, k, i);
    }
    forall i: nat | i in ids ensures InScope(after.scope, m, i) {
      assert (m, i) in Entries(m, ids, t);
    }
  }

  lemma ActivationKeys(s: State, ids: seq<nat>, t: int, m: nat, scope: map<(nat, nat), ScopeEntry>)
    requires Plannable(s, ids) && ScopeOk(s) && m == OpenOrdinal(s) && scope == s.scope + Entries(m, ids, t)
    ensures forall k: nat, i: nat :: (k, i) in scope ==> i < |s.items| && k <= m
  {
    forall k: nat, i: nat | (k, i) in scope ensures i < |s.items| && k <= m {
      assert (k, i) in s.scope || (k == m && i in ids);
    }
  }

  lemma ActivatedEntry(s: State, ids: seq<nat>, t: int, m: nat, scope: map<(nat, nat), ScopeEntry>, k: nat, i: nat)
    requires ScopeOk(s) && m == OpenOrdinal(s) && forall i :: 0 <= i < |s.items| ==> s.items[i].life.Backlog?
    requires scope == s.scope + Entries(m, ids, t) && InScope(scope, k, i)
    ensures k == m && i in ids
  {
    if !(k == m && i in ids) {
      assert InScope(s.scope, k, i);
      assert false;
    }
  }

  // ---------- Rollover ----------

  lemma {:induction false} CarryoverComplete(s: State, k: nat, i: nat, x: nat)
    requires i <= x < |s.items| && Carried(s, k, x)
    ensures x in Carryover(s, k, i)
    decreases |s.items| - i
  {
    if i < x {
      CarryoverComplete(s, k, i + 1, x);
    }
  }

  lemma BacklogDistinct(items: seq<Item>, ids: seq<nat>)
    requires ids <= BacklogOf(items, 0)
    ensures forall k, l :: 0 <= k < l < |ids| ==> ids[k] != ids[l]
  {
    BacklogRises(items, 0);
    var queue := BacklogOf(items, 0);
    forall k, l | 0 <= k < l < |ids| ensures ids[k] != ids[l] {
      assert ids[k] == queue[k] && ids[l] == queue[l];
    }
  }

  lemma RolloverPlans(bp: Blueprint, draws: Draws, s: State, k: nat, t: int) returns (ids: seq<nat>)
    requires KindsKnown(bp, s.items) && k in s.sprints && SprintOrdinal in s.counters && s.counters[SprintOrdinal] !in s.sprints
    ensures ids == RolloverBacklog(bp, draws, s, k)
    ensures Plannable(s, ids) && Plans(bp, draws, s, ids, t, RollSprint(bp, draws, s, k, t), true)
  {
    ids := RolloverBacklog(bp, draws, s, k);
    var target := Target(bp, draws.target(Next(s, SprintOrdinal)));
    BacklogFills(s.items, bp.minPoints, target, Sum(PointsAt(s.items, Carryover(s, k, 0))));
    BacklogDistinct(s.items, ids);
    assert Plannable(s, ids);
    VisitClaimsFor(bp, draws, s, ids, t);
    var o := RollSprint(bp, draws, s, k, t);
    assert o.claims[1..] == VisitClaims(bp, draws, s, ids, t);
  }

  lemma RolloverTiles(bp: Blueprint, sprints: map<nat, Sprint>, first: nat, m: nat, after: map<nat, Sprint>)
    requires Tiled(bp, sprints, first, m)
    requires after == sprints[m := sprints[m].(phase := Completed)]
                             [m + 1 := Sprint(m + 1, Running,
                                              CadenceBoundary(bp.calendar, bp.anchor, bp.cadenceDays, m + 1),
                                              CadenceBoundary(bp.calendar, bp.anchor, bp.cadenceDays, m + 2))]
    ensures Tiled(bp, after, first, m + 1)
  {
  }

  lemma RolloverKeeps(bp: Blueprint, draws: Draws, now: int, s: State, first: nat, t: int)
    requires ValidBlueprint(bp) && Invariant(bp, now, s, first) && KindsKnown(bp, s.items) && now <= t
    requires !OpenSprint(s).phase.Planned? && t == OpenSprint(s).end
    ensures var o := RollSprint(bp, draws, s, OpenOrdinal(s), t);
            Accepted(s, o) && Invariant(bp, t, Committed(s, o), first)
  {
    var m := OpenOrdinal(s);
    var o := RollSprint(bp, draws, s, m, t);
    var ids := RolloverPlans(bp, draws, s, m, t);
    PlanAccepted(bp, draws, s, ids, t, o, true);
    PlanKeepsItems(bp, draws, s, ids, t, o, true);
    AnchorFirst(bp.calendar, bp.anchor, bp.cadenceDays, m + 1);
    PlanTimely(bp, draws, now, s, ids, t, o.after.visits);
    CountersKnown(bp, s);
    PlanCounters(bp, draws, s, ids, t, o.claims, true);
    RolloverTiles(bp, s.sprints, first, m, o.after.sprints);
    CadenceIncreases(bp.calendar, bp.anchor, bp.cadenceDays, m + 1, m + 2);
    RolloverScope(bp, draws, s, ids, t, m, Committed(s, o));
    SameOccurrences(bp, s, o);
  }

  lemma RolloverScope(bp: Blueprint, draws: Draws, s: State, ids: seq<nat>, t: int, m: nat, after: State)
    requires KindsKnown(bp, s.items) && Plannable(s, ids) && ScopeOk(s) && m == OpenOrdinal(s) && OpenOrdinal(after) == m + 1
    requires after.items == Activated(bp, draws, s.items, ids, t)
    requires after.scope == CloseScope(s.scope, m, t) + Entries(m + 1, Carryover(s, m, 0) + ids, t)
    ensures ScopeOk(after)
    ensures forall i: nat :: InScope(after.scope, m + 1, i) <==> i < |s.items| && (s.items[i].life.Active? || i in ids)
  {
    RolloverKeys(bp, draws, s, ids, t, m, after);
    forall k: nat, i: nat ensures InScope(after.scope, k, i) <==> k == m + 1 && i < |s.items| && (s.items[i].life.Active? || i in ids) {
      RolledScope(s, ids, t, m, after.scope, k, i);
    }
  }

  lemma RolloverKeys(bp: Blueprint, draws: Draws, s: State, ids: seq<nat>, t: int, m: nat, after: State)
    requires KindsKnown(bp, s.items) && Plannable(s, ids) && ScopeOk(s) && m == OpenOrdinal(s)
    requires after.items == Activated(bp, draws, s.items, ids, t)
    requires after.scope == CloseScope(s.scope, m, t) + Entries(m + 1, Carryover(s, m, 0) + ids, t)
    ensures forall k: nat, i: nat :: (k, i) in after.scope ==> i < |after.items| && k <= m + 1
  {
    forall k: nat, i: nat | (k, i) in after.scope ensures i < |after.items| && k <= m + 1 {
      assert (k, i) in s.scope || (k == m + 1 && i in Carryover(s, m, 0) + ids);
    }
  }

  /** What is current after a rollover. */
  lemma RolledScope(s: State, ids: seq<nat>, t: int, m: nat, scope: map<(nat, nat), ScopeEntry>, k: nat, i: nat)
    requires ScopeOk(s) && m == OpenOrdinal(s) && forall x :: 0 <= x < |ids| ==> ids[x] < |s.items|
    requires scope == CloseScope(s.scope, m, t) + Entries(m + 1, Carryover(s, m, 0) + ids, t)
    ensures InScope(scope, k, i) <==> k == m + 1 && i < |s.items| && (s.items[i].life.Active? || i in ids)
  {
    if InScope(scope, k, i) {
      RolledEntry(s, ids, t, m, scope, k, i);
    }
    if k == m + 1 && i < |s.items| && s.items[i].life.Active? {
      assert InScope(s.scope, m, i);
      CarryoverComplete(s, m, 0, i);
    }
  }

  lemma RolledEntry(s: State, ids: seq<nat>, t: int, m: nat, scope: map<(nat, nat), ScopeEntry>, k: nat, i: nat)
    requires ScopeOk(s) && m == OpenOrdinal(s) && InScope(scope, k, i)
    requires scope == CloseScope(s.scope, m, t) + Entries(m + 1, Carryover(s, m, 0) + ids, t)
    ensures k == m + 1 && (i in ids || (i < |s.items| && s.items[i].life.Active?))
  {
    if k == m + 1 && i in Carryover(s, m, 0) + ids {
    } else {
      assert InScope(CloseScope(s.scope, m, t), k, i);
      assert InScope(s.scope, k, i);
      assert false;
    }
  }

  // ---------- The crossing as a whole ----------

  /** Whenever a boundary is due, crossing it gives an acceptable command and keeps the invariant; when
      none is due, nothing happens. */
  lemma CrossingKeeps(bp: Blueprint, draws: Draws, now: int, s: State, first: nat, t: int)
    requires ValidBlueprint(bp) && Invariant(bp, now, s, first) && now <= t
    ensures KindsKnown(bp, s.items)
    ensures CrossBoundary(bp, draws, s, t).Some? <==> NextBoundary(s) == t
    ensures CrossBoundary(bp, draws, s, t).Some? ==>
              var o := CrossBoundary(bp, draws, s, t).value;
              Accepted(s, o) && Invariant(bp, t, Committed(s, o), first)
  {
    KindsFromInvariant(bp, s);
    CrossingDue(bp, draws, now, s, first, t);
    if NextBoundary(s) == t {
      if OpenSprint(s).phase.Planned? {
        ActivationKeeps(bp, draws, now, s, first, t);
      } else {
        RolloverKeeps(bp, draws, now, s, first, t);
      }
    }
  }

  /** Crossing the same boundary twice does nothing the second time: the next boundary is later. */
  lemma CrossingOnce(bp: Blueprint, draws: Draws, now: int, s: State, first: nat, t: int)
    requires ValidBlueprint(bp) && Invariant(bp, now, s, first) && now <= t && NextBoundary(s) == t
    ensures KindsKnown(bp, s.items) && CrossBoundary(bp, draws, s, t).Some?
    ensures var after := Committed(s, CrossBoundary(bp, draws, s, t).value);
            KindsKnown(bp, after.items) && OpenOrdinal(after) in after.sprints
            && NextBoundary(after) > t && CrossBoundary(bp, draws, after, t).None?
  {
    CrossingKeeps(bp, draws, now, s, first, t);
    var after := Committed(s, CrossBoundary(bp, draws, s, t).value);
    KindsFromInvariant(bp, after);
    CrossingMoves(bp, draws, now, s, first, t);
    CrossingKeeps(bp, draws, t, after, first, t);
  }

  /** A crossing moves the next boundary on: activation to the sprint's own end, rollover to the next
      sprint's. */
  lemma CrossingMoves(bp: Blueprint, draws: Draws, now: int, s: State, first: nat, t: int)
    requires ValidBlueprint(bp) && Invariant(bp, now, s, first) && KindsKnown(bp, s.items) && now <= t && NextBoundary(s) == t
    ensures CrossBoundary(bp, draws, s, t).Some?
    ensures var after := Committed(s, CrossBoundary(bp, draws, s, t).value);
            MovedOn(s, after, if OpenSprint(s).phase.Planned? then 0 else 1, t)
  {
    CrossingDue(bp, draws, now, s, first, t);
    if OpenSprint(s).phase.Planned? {
      ActivationMoves(bp, draws, now, s, first, t);
    } else {
      RolloverMoves(bp, draws, now, s, first, t);
    }
  }

  /** The open sprint is now a running one, n ordinals on, with its end after t. */
  ghost predicate MovedOn(s: State, after: State, n: nat, t: int) {
    && OpenOrdinal(after) == OpenOrdinal(s) + n && OpenOrdinal(after) in after.sprints
    && OpenSprint(after).phase.Running? && NextBoundary(after) > t
  }

  lemma ActivationMoves(bp: Blueprint, draws: Draws, now: int, s: State, first: nat, t: int)
    requires ValidBlueprint(bp) && Invariant(bp, now, s, first) && KindsKnown(bp, s.items)
    requires OpenSprint(s).phase.Planned? && t == OpenSprint(s).start
    ensures MovedOn(s, Committed(s, ActivateSprint(bp, draws, s, OpenOrdinal(s), t)), 0, t)
  {
    ActivationCounter(bp, draws, now, s, first, t);
    ActivatedSprint(bp, draws, s, OpenOrdinal(s), t);
    StartsEarlier(bp, now, s, first);
  }

  lemma StartsEarlier(bp: Blueprint, now: int, s: State, first: nat)
    requires ValidBlueprint(bp) && SprintsOk(bp, now, s, first)
    ensures OpenSprint(s).start < OpenSprint(s).end
  {
    CadenceIncreases(bp.calendar, bp.anchor, bp.cadenceDays, OpenOrdinal(s), OpenOrdinal(s) + 1);
  }

  lemma ActivatedSprint(bp: Blueprint, draws: Draws, s: State, m: nat, t: int)
    requires KindsKnown(bp, s.items) && m in s.sprints
    ensures var sprints := Committed(s, ActivateSprint(bp, draws, s, m, t)).sprints;
            m in sprints && sprints[m] == s.sprints[m].(phase := Running)
  {
  }

  lemma ActivationCounter(bp: Blueprint, draws: Draws, now: int, s: State, first: nat, t: int)
    requires ValidBlueprint(bp) && Invariant(bp, now, s, first) && KindsKnown(bp, s.items) && OpenSprint(s).phase.Planned?
    ensures OpenOrdinal(Committed(s, ActivateSprint(bp, draws, s, OpenOrdinal(s), t))) == OpenOrdinal(s)
  {
    var ids := ActivationPlans(bp, draws, s, OpenOrdinal(s), t);
    CountersKnown(bp, s);
    PlanCounters(bp, draws, s, ids, t, ActivateSprint(bp, draws, s, OpenOrdinal(s), t).claims, false);
  }

  lemma RolloverMoves(bp: Blueprint, draws: Draws, now: int, s: State, first: nat, t: int)
    requires ValidBlueprint(bp) && Invariant(bp, now, s, first) && KindsKnown(bp, s.items)
    requires !OpenSprint(s).phase.Planned? && t == OpenSprint(s).end
    ensures MovedOn(s, Committed(s, RollSprint(bp, draws, s, OpenOrdinal(s), t)), 1, t)
  {
    var m := OpenOrdinal(s);
    RolloverCounter(bp, draws, now, s, first, t);
    EndsLater(bp, now, s, first);
    SuccessorSprint(bp, draws, s, m, t);
  }

  lemma EndsLater(bp: Blueprint, now: int, s: State, first: nat)
    requires ValidBlueprint(bp) && SprintsOk(bp, now, s, first)
    ensures OpenSprint(s).end < CadenceBoundary(bp.calendar, bp.anchor, bp.cadenceDays, OpenOrdinal(s) + 2)
  {
    CadenceIncreases(bp.calendar, bp.anchor, bp.cadenceDays, OpenOrdinal(s) + 1, OpenOrdinal(s) + 2);
  }

  lemma SuccessorSprint(bp: Blueprint, draws: Draws, s: State, m: nat, t: int)
    requires KindsKnown(bp, s.items) && m in s.sprints && Next(s, SprintOrdinal) == m + 1
    ensures var sprints := Committed(s, RollSprint(bp, draws, s, m, t)).sprints;
            m + 1 in sprints && sprints[m + 1].phase.Running?
            && sprints[m + 1].end == CadenceBoundary(bp.calendar, bp.anchor, bp.cadenceDays, m + 2)
  {
  }

  lemma RolloverCounter(bp: Blueprint, draws: Draws, now: int, s: State, first: nat, t: int)
    requires ValidBlueprint(bp) && Invariant(bp, now, s, first) && KindsKnown(bp, s.items)
    ensures OpenOrdinal(Committed(s, RollSprint(bp, draws, s, OpenOrdinal(s), t))) == OpenOrdinal(s) + 1
  {
    var ids := RolloverPlans(bp, draws, s, OpenOrdinal(s), t);
    CountersKnown(bp, s);
    PlanCounters(bp, draws, s, ids, t, RollSprint(bp, draws, s, OpenOrdinal(s), t).claims, true);
  }

  /** Rollover scope: the successor holds exactly the unfinished items and the selected backlog; the old
      sprint's current entries are closed at the boundary. */
  lemma RolloverCarries(bp: Blueprint, draws: Draws, now: int, s: State, first: nat, t: int, i: nat)
    requires ValidBlueprint(bp) && Invariant(bp, now, s, first) && KindsKnown(bp, s.items)
    requires !OpenSprint(s).phase.Planned?
    ensures var m := OpenOrdinal(s);
            var after := Committed(s, RollSprint(bp, draws, s, m, t));
            && (InScope(after.scope, m + 1, i) <==> i < |s.items| && (s.items[i].life.Active? || i in RolloverBacklog(bp, draws, s, m)))
            && (InScope(s.scope, m, i) ==> (m, i) in after.scope && after.scope[(m, i)].removed == Some(t))
  {
    var m := OpenOrdinal(s);
    RolloverCounter(bp, draws, now, s, first, t);
    var ids := RolloverPlans(bp, draws, s, m, t);
    RolloverScope(bp, draws, s, ids, t, m, Committed(s, RollSprint(bp, draws, s, m, t)));
  }

  /** The backlog it selects is a rank prefix, filled on top of the carried points to where filling
      stops. */
  lemma RolloverFills(bp: Blueprint, draws: Draws, s: State, m: nat)
    ensures var ids, queue := RolloverBacklog(bp, draws, s, m), BacklogOf(s.items, 0);
            ids <= queue
            && FillsTo(PointsAt(s.items, queue), bp.minPoints, Target(bp, draws.target(Next(s, SprintOrdinal))),
                       Sum(PointsAt(s.items, Carryover(s, m, 0))), |ids|)
  {
    BacklogFills(s.items, bp.minPoints, Target(bp, draws.target(Next(s, SprintOrdinal))), Sum(PointsAt(s.items, Carryover(s, m, 0))));
  }

  /** For every draw, the points carried and selected stay within the configured maximum, unless the last
      item selected was still needed to reach the configured minimum. */
  lemma RolloverWithinMax(bp: Blueprint, draws: Draws, s: State, m: nat)
    requires bp.minPoints <= bp.maxPoints && 0.0 <= draws.target(Next(s, SprintOrdinal)) < 1.0
    ensures var carried, points := Sum(PointsAt(s.items, Carryover(s, m, 0))), PointsAt(s.items, RolloverBacklog(bp, draws, s, m));
            points != [] ==> carried + Sum(points) <= bp.maxPoints || carried + Sum(points[..|points| - 1]) < bp.minPoints
  {
    var carried, queue := Sum(PointsAt(s.items, Carryover(s, m, 0))), PointsAt(s.items, BacklogOf(s.items, 0));
    var ids := RolloverBacklog(bp, draws, s, m);
    RolloverFills(bp, draws, s, m);
    TargetBounds(bp, draws.target(Next(s, SprintOrdinal)));
    assert queue[..|ids|] == PointsAt(s.items, ids);
    if ids != [] {
      assert queue[..|ids| - 1] == PointsAt(s.items, ids)[..|ids| - 1];
      FillWithinTarget(queue, bp.minPoints, Target(bp, draws.target(Next(s, SprintOrdinal))), carried, |ids|);
    }
  }

  /** A crossing changes no visit that was there, no consumption and no overlay. */
  lemma CrossingTouchesNothing(bp: Blueprint, draws: Draws, now: int, s: State, first: nat, t: int)
    requires ValidBlueprint(bp) && Invariant(bp, now, s, first) && KindsKnown(bp, s.items) && NextBoundary(s) == t
    ensures CrossBoundary(bp, draws, s, t).Some?
    ensures var after := CrossBoundary(bp, draws, s, t).value.after;
            && (forall key :: key in s.visits ==> key in after.visits && after.visits[key] == s.visits[key])
            && after.book == s.book && after.overlays == s.overlays && after.cursor == s.cursor
  {
    var m := OpenOrdinal(s);
    CrossingDue(bp, draws, now, s, first, t);
    if OpenSprint(s).phase.Planned? {
      var ids := ActivationPlans(bp, draws, s, m, t);
      VisitsKept(bp, draws, s, ids, t);
    } else {
      var ids := RolloverPlans(bp, draws, s, m, t);
      VisitsKept(bp, draws, s, ids, t);
    }
  }

  /** Planning opens new visits and touches no old one. */
  lemma VisitsKept(bp: Blueprint, draws: Draws, s: State, ids: seq<nat>, t: int)
    requires ItemsOk(bp, s) && KindsKnown(bp, s.items) && Plannable(s, ids)
    ensures forall key :: key in s.visits ==> key !in Opened(bp, draws, s.items, ids, t)
  {
    forall key | key in s.visits ensures key !in Opened(bp, draws, s.items, ids, t) {
      PlannedVisits(bp, draws, s, ids, t, key.0, key.1);
      assert ItemHolds(bp, s, key.0);
    }
  }
}
