/** Which visits open, with what work and for whom: when a sprint takes items in, and when a visit closes. */
module Openings {
  import opened BusinessCalendar
  import opened Allocation
  import opened Team
  import opened Routes
  import opened Scope
  import opened RunInvariant
  import opened Lifecycle
  import opened SprintRun
  import opened Bootstrap
  import opened Completion
  import opened FirstCompletion
  import opened Tick
  import opened Finish
  import opened TickLaws
  import opened TickRun

  // ---------- Steps ----------

  /** A step that takes working time: its status consumes capacity and it names an activity. */
  ghost predicate TakesTime(bp: Blueprint, step: Step) {
    step.status in bp.statuses && bp.statuses[step.status].consumes && step.activity.Some?
  }

  ghost predicate FirstFrom(bp: Blueprint, steps: seq<Step>, from: nat, p: nat) {
    from <= p < |steps| && TakesTime(bp, steps[p]) && forall q: nat :: from <= q < p ==> !TakesTime(bp, steps[q])
  }

  ghost predicate NoneFrom(bp: Blueprint, steps: seq<Step>, from: nat) {
    forall q: nat :: from <= q < |steps| ==> !TakesTime(bp, steps[q])
  }

  /** The route's first step with this status. */
  ghost predicate FirstWith(steps: seq<Step>, status: Key, p: nat) {
    p < |steps| && steps[p].status == status && forall q: nat :: q < p ==> steps[q].status != status
  }

  lemma NextTimedIs(bp: Blueprint, steps: seq<Step>, from: nat)
    ensures forall p: nat :: FirstFrom(bp, steps, from, p) <==> NextTimed(bp, steps, from) == Some(p)
    ensures NoneFrom(bp, steps, from) <==> NextTimed(bp, steps, from).None?
  {
    assert forall step :: TakesTime(bp, step) <==> Timed(bp, step);
  }

  lemma PositionIs(steps: seq<Step>, status: Key)
    ensures forall p: nat :: FirstWith(steps, status, p) <==> Position(steps, status, 0) == Some(p)
  {
  }

  // ---------- Visits ----------

  /** Visit k of item i at this step, entered at t, with the drawn work and dwell ahead and nothing done. */
  ghost predicate Begins(draws: Draws, v: Visit, i: nat, k: nat, step: Step, t: int) {
    && v.item == i && v.ordinal == k && v.open && v.status == step.status && step.activity == Some(v.activity)
    && v.entered == t && v.closed == None
    && v.required == draws.touch(i, k, step.status) && v.remaining == v.required && v.dwell == draws.dwell(i, k, step.status)
    && v.elapsed == 0 && v.credited == 0 && v.queue == 0 && v.pause == 0
  }

  /** The first member, in configured order, who knows the activity; nobody when none does. */
  ghost predicate FirstWhoKnows(bp: Blueprint, activity: Key, member: Option<nat>) {
    && (member.None? ==> forall j: nat :: j < |bp.members| ==> activity !in bp.members[j].skill)
    && (member.Some? ==> member.value < |bp.members| && activity in bp.members[member.value].skill
                         && forall j: nat :: j < member.value ==> activity !in bp.members[j].skill)
  }

  /** The visit (i, k) of these visits, if there is one. */
  ghost function VisitOf(visits: Visits, i: nat, k: nat): Option<Visit> {
    if (i, k) in visits then Some(visits[(i, k)]) else None
  }

  /** Taken into a sprint at t, an item goes to its route's first step that takes time and its first visit
      opens there; a route without such a step leaves it done in the last status. */
  ghost predicate Taken(bp: Blueprint, draws: Draws, i: nat, before: Item, after: Item, visit: Option<Visit>, t: int) {
    && before.kind in bp.routes
    && var steps := bp.routes[before.kind];
       && (forall p: nat :: FirstFrom(bp, steps, 0, p) ==>
             && after == before.(life := Active, status := steps[p].status)
             && visit.Some? && Begins(draws, visit.value, i, 0, steps[p], t)
             && FirstWhoKnows(bp, visit.value.activity, visit.value.member))
       && (NoneFrom(bp, steps, 0) ==>
             |steps| > 0 && after == before.(life := Done, status := steps[|steps| - 1].status) && visit.None?)
  }

  /** Its visit in this status closed at t, an item goes on to the next step that takes time, where visit k
      opens with no owner; without such a step it is done in the last status. */
  ghost predicate MovedOn(bp: Blueprint, draws: Draws, i: nat, k: nat, before: Item, status: Key, after: Item, visit: Option<Visit>, t: int) {
    && before.kind in bp.routes
    && var steps := bp.routes[before.kind];
       && (forall o: nat, p: nat :: FirstWith(steps, status, o) && FirstFrom(bp, steps, o + 1, p) ==>
             && after == before.(status := steps[p].status)
             && visit.Some? && Begins(draws, visit.value, i, k, steps[p], t) && visit.value.member == None)
       && (forall o: nat :: FirstWith(steps, status, o) && NoneFrom(bp, steps, o + 1) ==>
             after == before.(life := Done, status := steps[|steps| - 1].status) && visit.None?)
  }

  lemma ActivateTakes(bp: Blueprint, draws: Draws, i: nat, item: Item, t: int)
    requires item.kind in bp.routes && |bp.routes[item.kind]| > 0
    ensures var m := Activate(bp, draws, i, item, t); Taken(bp, draws, i, item, m.item, m.visit, t)
  {
    NextTimedIs(bp, bp.routes[item.kind], 0);
  }

  lemma LeaveMovesOn(bp: Blueprint, draws: Draws, i: nat, k: nat, item: Item, status: Key, t: int)
    requires item.kind in bp.routes && Position(bp.routes[item.kind], status, 0).Some?
    ensures var m := Leave(bp, draws, i, k, item, status, t); MovedOn(bp, draws, i, k, item, status, m.item, m.visit, t)
  {
    var steps := bp.routes[item.kind];
    var at := Position(steps, status, 0).value;
    PositionIs(steps, status);
    NextTimedIs(bp, steps, at + 1);
    var next := NextTimed(bp, steps, at + 1);
    var m := Leave(bp, draws, i, k, item, status, t);
    if next.Some? {
      assert FirstFrom(bp, steps, at + 1, next.value) && !NoneFrom(bp, steps, at + 1);
      assert Begins(draws, m.visit.value, i, k, steps[next.value], t);
    } else {
      assert NoneFrom(bp, steps, at + 1);
    }
  }

  // ---------- Taking items into a sprint ----------

  /** What planning looks at and changes. */
  datatype Board = Board(items: seq<Item>, visits: Visits, scope: map<(nat, nat), ScopeEntry>)

  function BoardOf(s: State): Board { Board(s.items, s.visits, s.scope) }

  /** Item i is taken into sprint k at t. */
  ghost predicate TakenInto(bp: Blueprint, draws: Draws, s: Board, after: Board, k: nat, i: nat, t: int)
    requires i < |s.items| == |after.items|
  {
    && Taken(bp, draws, i, s.items[i], after.items[i], VisitOf(after.visits, i, 0), t)
    && (k, i) in after.scope && after.scope[(k, i)] == ScopeEntry(t, None)
  }

  /** Item i is as it was, with the visits it had. */
  ghost predicate LeftOut(s: Board, after: Board, i: nat)
    requires i < |s.items| == |after.items|
  {
    after.items[i] == s.items[i] && SameFor(i, s.visits, after.visits)
  }

  /** Exactly these items are taken into sprint k at t. */
  ghost predicate TakesIn(bp: Blueprint, draws: Draws, s: Board, after: Board, ids: seq<nat>, k: nat, t: int) {
    && |s.items| == |after.items|
    && forall i: nat :: i < |s.items| ==> if i in ids then TakenInto(bp, draws, s, after, k, i, t) else LeftOut(s, after, i)
  }

  lemma OpenedAre(bp: Blueprint, draws: Draws, items: seq<Item>, ids: seq<nat>, t: int, i: nat)
    requires KindsKnown(bp, items) && i < |items|
    ensures var o := Opened(bp, draws, items, ids, t);
            && (forall l: nat :: (i, l) in o ==> l == 0 && i in ids)
            && (i in ids ==> VisitOf(o, i, 0) == Activate(bp, draws, i, items[i], t).visit)
  {
  }

  lemma JoinVisits(a: Visits, b: Visits, i: nat)
    ensures (i, 0) !in a ==> VisitOf(a + b, i, 0) == VisitOf(b, i, 0)
    ensures (forall l: nat :: (i, l) !in b) ==> SameFor(i, a, a + b)
  {
  }

  /** The scope holds an entry of sprint k, made at t and open, for each of these items. */
  ghost predicate Entered(scope: map<(nat, nat), ScopeEntry>, ids: seq<nat>, k: nat, t: int) {
    forall i :: i in ids ==> (k, i) in scope && scope[(k, i)] == ScopeEntry(t, None)
  }

  ghost predicate Unvisited(visits: Visits, ids: seq<nat>) {
    forall i :: i in ids ==> (i, 0) !in visits
  }

  /** What planning does to the board. */
  ghost predicate PlannedAs(bp: Blueprint, draws: Draws, s: Board, after: Board, ids: seq<nat>, k: nat, t: int)
    requires KindsKnown(bp, s.items)
  {
    && after.items == Activated(bp, draws, s.items, ids, t) && after.visits == s.visits + Opened(bp, draws, s.items, ids, t)
    && Entered(after.scope, ids, k, t)
  }

  lemma PlanTakes(bp: Blueprint, draws: Draws, s: Board, ids: seq<nat>, t: int, after: Board, k: nat, i: nat)
    requires KindsKnown(bp, s.items) && i < |s.items| && Unvisited(s.visits, ids) && PlannedAs(bp, draws, s, after, ids, k, t)
    ensures if i in ids then TakenInto(bp, draws, s, after, k, i, t) else LeftOut(s, after, i)
  {
    OpenedAre(bp, draws, s.items, ids, t, i);
    JoinVisits(s.visits, Opened(bp, draws, s.items, ids, t), i);
    if i in ids {
      ActivateTakes(bp, draws, i, s.items[i], t);
    }
  }

  /** Planning takes in the planned items and leaves the others out. */
  lemma PlanTakesIn(bp: Blueprint, draws: Draws, s: Board, ids: seq<nat>, t: int, after: Board, k: nat)
    requires KindsKnown(bp, s.items) && Unvisited(s.visits, ids) && PlannedAs(bp, draws, s, after, ids, k, t)
    ensures TakesIn(bp, draws, s, after, ids, k, t)
  {
    forall i: nat | i < |s.items|
      ensures if i in ids then TakenInto(bp, draws, s, after, k, i, t) else LeftOut(s, after, i)
    {
      PlanTakes(bp, draws, s, ids, t, after, k, i);
    }
  }

  lemma PlannableUnvisited(bp: Blueprint, s: State, ids: seq<nat>)
    requires ItemsOk(bp, s) && Plannable(s, ids)
    ensures Unvisited(s.visits, ids)
  {
    forall i | i in ids ensures (i, 0) !in s.visits {
      var k :| 0 <= k < |ids| && ids[k] == i;
      assert ItemHolds(bp, s, ids[k]);
    }
  }

  ghost function AllPoints(items: seq<Item>): seq<nat> {
    seq(|items|, i requires 0 <= i < |items| => items[i].points)
  }

  /** The first items of the board, up to where filling stops. */
  ghost predicate FillsFrom(items: seq<Item>, min: nat, target: int, ids: seq<nat>) {
    (forall x :: 0 <= x < |ids| ==> ids[x] == x) && FillsTo(AllPoints(items), min, target, 0, |ids|)
  }

  lemma BoardTakes(bp: Blueprint, draws: Draws, s: Board, ids: seq<nat>, t: int, scope: map<(nat, nat), ScopeEntry>, k: nat)
    requires KindsKnown(bp, s.items) && Unvisited(s.visits, ids) && Entered(scope, ids, k, t)
    ensures TakesIn(bp, draws, s, Board(Activated(bp, draws, s.items, ids, t), s.visits + Opened(bp, draws, s.items, ids, t), scope), ids, k, t)
  {
    PlanTakesIn(bp, draws, s, ids, t, Board(Activated(bp, draws, s.items, ids, t), s.visits + Opened(bp, draws, s.items, ids, t), scope), k);
  }

  lemma NewEntries(scope: map<(nat, nat), ScopeEntry>, ids: seq<nat>, k: nat, t: int)
    ensures Entered(scope + Entries(k, ids, t), ids, k, t)
  {
  }

  lemma StartTakes(bp: Blueprint, draws: Draws, s: State, m: nat, t: int, ids: seq<nat>)
    requires KindsKnown(bp, s.items) && m in s.sprints && ItemsOk(bp, s) && Plannable(s, ids)
    ensures var after := StartWith(bp, draws, s, m, t, ids).after;
            && TakesIn(bp, draws, BoardOf(s), BoardOf(after), ids, m, t)
            && after.sprints == s.sprints[m := s.sprints[m].(phase := Running)]
  {
    PlannableUnvisited(bp, s, ids);
    NewEntries(s.scope, ids, m, t);
    BoardTakes(bp, draws, BoardOf(s), ids, t, s.scope + Entries(m, ids, t), m);
  }

  /** Activating the planned sprint starts it and takes in the first items of the board, up to where filling
      stops at the target drawn for this sprint, and no others. */
  lemma ActivationTakes(bp: Blueprint, draws: Draws, now: int, s: State, first: nat, t: int) returns (ids: seq<nat>)
    requires ValidBlueprint(bp) && Invariant(bp, now, s, first) && KindsKnown(bp, s.items)
    requires OpenSprint(s).phase.Planned?
    ensures var m := OpenOrdinal(s);
            var after := ActivateSprint(bp, draws, s, m, t).after;
            && FillsFrom(s.items, bp.minPoints, Target(bp, draws.target(m)), ids)
            && TakesIn(bp, draws, BoardOf(s), BoardOf(after), ids, m, t)
            && after.sprints == s.sprints[m := s.sprints[m].(phase := Running)]
  {
    var m := OpenOrdinal(s);
    SelectFills(s.items, bp.minPoints, Target(bp, draws.target(m)));
    ids := ActivationPlans(bp, draws, s, m, t);
    StartTakes(bp, draws, s, m, t, ids);
  }

  lemma RollScope(s: State, t: int, m: nat, carry: seq<nat>, ids: seq<nat>, next: nat)
    ensures var scope := CloseScope(s.scope, m, t) + Entries(next, carry + ids, t);
            Entered(scope, ids, next, t) && Entered(scope, carry, next, t)
  {
    forall i: nat | i in ids || i in carry ensures i in carry + ids {
    }
  }

  lemma RollTakes(bp: Blueprint, draws: Draws, s: State, m: nat, t: int, carry: seq<nat>, ids: seq<nat>)
    requires KindsKnown(bp, s.items) && m in s.sprints && ItemsOk(bp, s) && Plannable(s, ids)
    ensures var after := RollWith(bp, draws, s, m, t, carry, ids).after;
            && TakesIn(bp, draws, BoardOf(s), BoardOf(after), ids, Next(s, SprintOrdinal), t)
            && Entered(after.scope, carry, Next(s, SprintOrdinal), t)
  {
    PlannableUnvisited(bp, s, ids);
    RollScope(s, t, m, carry, ids, Next(s, SprintOrdinal));
    BoardTakes(bp, draws, BoardOf(s), ids, t, RollWith(bp, draws, s, m, t, carry, ids).after.scope, Next(s, SprintOrdinal));
  }

  lemma AllCarried(s: State, m: nat)
    requires forall i: nat :: i < |s.items| && s.items[i].life.Active? ==> InScope(s.scope, m, i)
    ensures forall i: nat :: i < |s.items| && s.items[i].life.Active? ==> i in Carryover(s, m, 0)
  {
    forall i: nat | i < |s.items| && s.items[i].life.Active? ensures i in Carryover(s, m, 0) {
      CarryoverComplete(s, m, 0, i);
    }
  }

  /** The rollover of sprint m, whose successor is m + 1. */
  lemma RollSprintTakes(bp: Blueprint, draws: Draws, s: State, m: nat, t: int)
    requires KindsKnown(bp, s.items) && m in s.sprints && ItemsOk(bp, s)
    requires SprintOrdinal in s.counters && s.counters[SprintOrdinal] == m + 1 && m + 1 !in s.sprints
    ensures var after := RollSprint(bp, draws, s, m, t).after;
            && TakesIn(bp, draws, BoardOf(s), BoardOf(after), RolloverBacklog(bp, draws, s, m), m + 1, t)
            && Entered(after.scope, Carryover(s, m, 0), m + 1, t)
  {
    var carry := Carryover(s, m, 0);
    var ids := RolloverPlans(bp, draws, s, m, t);
    assert RollSprint(bp, draws, s, m, t) == RollWith(bp, draws, s, m, t, carry, ids);
    RollTakes(bp, draws, s, m, t, carry, ids);
  }

  /** Rolling over takes in the selected backlog, enters the unfinished items too, and leaves every other
      item alone. */
  lemma RolloverTakes(bp: Blueprint, draws: Draws, now: int, s: State, first: nat, t: int)
    requires ValidBlueprint(bp) && Invariant(bp, now, s, first) && KindsKnown(bp, s.items)
    requires !OpenSprint(s).phase.Planned?
    ensures var m := OpenOrdinal(s);
            var after := RollSprint(bp, draws, s, m, t).after;
            && TakesIn(bp, draws, BoardOf(s), BoardOf(after), RolloverBacklog(bp, draws, s, m), m + 1, t)
            && (forall i: nat :: i < |s.items| && s.items[i].life.Active? ==>
                  (m + 1, i) in after.scope && after.scope[(m + 1, i)] == ScopeEntry(t, None))
  {
    RollSprintTakes(bp, draws, s, OpenOrdinal(s), t);
    AllCarried(s, OpenOrdinal(s));
  }

  lemma NothingJoined<K, V>(m: map<K, V>)
    ensures map[] + m == m
  {
  }

  lemma FirstTaken(bp: Blueprint, draws: Draws, s: Board, ids: seq<nat>, t: int, k: nat)
    requires KindsKnown(bp, s.items) && s.visits == map[]
    ensures TakesIn(bp, draws, s, Board(Activated(bp, draws, s.items, ids, t), Opened(bp, draws, s.items, ids, t), Entries(k, ids, t)), ids, k, t)
  {
    NewEntries(map[], ids, k, t);
    NothingJoined(Entries(k, ids, t));
    NothingJoined(Opened(bp, draws, s.items, ids, t));
    BoardTakes(bp, draws, s, ids, t, Entries(k, ids, t), k);
  }

  lemma StartsWith(bp: Blueprint, draws: Draws, backlog: seq<Item>, t: int, k: nat)
    requires KindsKnown(bp, backlog) && CadenceBoundary(bp.calendar, bp.anchor, bp.cadenceDays, k) <= t
    ensures var s := InitialState(bp, draws, backlog, t, k);
            var ids := SelectFrom(backlog, bp.minPoints, Target(bp, draws.target(k)), 0, 0);
            && (forall x :: 0 <= x < |ids| ==> ids[x] < |backlog|)
            && BoardOf(s) == Board(Activated(bp, draws, backlog, ids, t), Opened(bp, draws, backlog, ids, t), Entries(k, ids, t))
            && s.cursor == t && s.sprints.Keys == {k} && s.sprints[k].phase == Running
  {
    SelectFills(backlog, bp.minPoints, Target(bp, draws.target(k)));
  }

  lemma NothingTaken(bp: Blueprint, draws: Draws, s: Board, k: nat, t: int)
    ensures TakesIn(bp, draws, s, s, [], k, t)
  {
  }

  /** A team started before its first boundary has that sprint planned and nothing taken in; one started
      later has the sprint running, with the first items taken in up to where filling stops. */
  lemma BootstrapTakes(bp: Blueprint, draws: Draws, backlog: seq<Item>, t: int, k: nat) returns (ids: seq<nat>)
    requires ValidBlueprint(bp) && KindsKnown(bp, backlog) && Contains(bp, k, t)
    ensures var s := InitialState(bp, draws, backlog, t, k);
            && s.cursor == t && s.sprints.Keys == {k}
            && (if t < bp.anchor then s.sprints[k].phase == Planned && ids == [] && s.scope == map[]
                else s.sprints[k].phase == Running && FillsFrom(backlog, bp.minPoints, Target(bp, draws.target(k)), ids))
            && TakesIn(bp, draws, Board(backlog, map[], map[]), BoardOf(s), ids, k, t)
  {
    AnchorFirst(bp.calendar, bp.anchor, bp.cadenceDays, k);
    if t < bp.anchor {
      ids := [];
      NothingTaken(bp, draws, Board(backlog, map[], map[]), k, t);
    } else {
      SelectFills(backlog, bp.minPoints, Target(bp, draws.target(k)));
      ids := SelectFrom(backlog, bp.minPoints, Target(bp, draws.target(k)), 0, 0);
      StartsWith(bp, draws, backlog, t, k);
      FirstTaken(bp, draws, Board(backlog, map[], map[]), ids, t, k);
    }
  }

  // ---------- Closing a visit ----------

  /** A tick moves the item of every visit complete at its end on to its next step, and no other item. */
  lemma TickMovesOn(bp: Blueprint, draws: Draws, s: State, a: Attempted, i: nat)
    requires Ticks(bp, draws, s, a) && i < |s.items|
    ensures Placed(bp, a.risks.working.items, a.lane.slots) && i < |a.lane.slots| && i < |a.risks.working.items|
    ensures var working, slot, after := a.risks.working, a.lane.slots[i], FinishTick(bp, draws, a).after;
            && VisitOrdinal(i) in working.counters && i < |after.items|
            && var n := working.counters[VisitOrdinal(i)];
               if !slot.Idle? && CompleteAt(slot, Clock(bp.calendar, slot, a.end))
               then MovedOn(bp, draws, i, n, working.items[i], slot.visit.status, after.items[i], VisitOf(after.visits, i, n), a.end)
               else after.items[i] == working.items[i] && (i, n) !in after.visits
  {
    TickParts(bp, draws, s, a);
    CarryingAt(bp, s, a, i);
    var working, slot := a.risks.working, a.lane.slots[i];
    var n := working.counters[VisitOrdinal(i)];
    NextKeys(bp, draws, working, a.lane.slots, a.end, i, n);
    FinishKeys(bp, draws, working, a.lane.slots, a.end, i, n);
    if !slot.Idle? {
      LeaveMovesOn(bp, draws, i, n, working.items[i], slot.visit.status, a.end);
    }
  }

  /** By t the visit's work is done and its dwell served: business time since entry beyond what it paused. */
  ghost predicate Served(c: Calendar, v: Visit, t: int) {
    v.remaining == 0 && (v.dwell == 0 || Count(c, v.entered, t) >= v.pause + v.dwell)
  }

  /** A tick closes the last visit of an active item exactly if it is served at the tick's end, and closes it
      then. */
  lemma TickClosesServed(bp: Blueprint, draws: Draws, s: State, a: Attempted, i: nat)
    requires Ticks(bp, draws, s, a) && i < |s.items|
    ensures Placed(bp, a.risks.working.items, a.lane.slots) && i < |a.risks.working.items|
    ensures var working, after := a.risks.working, FinishTick(bp, draws, a).after.visits;
            && VisitOrdinal(i) in working.counters
            && (working.items[i].life.Active? ==>
                  && working.counters[VisitOrdinal(i)] > 0
                  && var key := (i, working.counters[VisitOrdinal(i)] - 1);
                     && key in after && (after[key].open <==> !Served(bp.calendar, after[key], a.end))
                     && (!after[key].open ==> after[key].closed == Some(a.end)))
  {
    TickParts(bp, draws, s, a);
    CarryingAt(bp, s, a, i);
    var working, slot := a.risks.working, a.lane.slots[i];
    var n := working.counters[VisitOrdinal(i)];
    if working.items[i].life.Active? {
      CarriedOpen(bp, working.visits, working.items[i], i, n, slot);
      CloseServes(bp, draws, i, n, working.items[i], slot, a.end);
      LastVisit(bp, draws, a, i, n);
    }
  }

  /** Where the tick leaves the visit of a slot. */
  lemma LastVisit(bp: Blueprint, draws: Draws, a: Attempted, i: nat, n: nat)
    requires Placed(bp, a.risks.working.items, a.lane.slots) && i < |a.lane.slots| && !a.lane.slots[i].Idle?
    requires n == Next(a.risks.working, VisitOrdinal(i)) == a.lane.slots[i].visit.ordinal + 1
    ensures var after := FinishTick(bp, draws, a).after.visits;
            (i, n - 1) in after && after[(i, n - 1)] == ClosingAt(bp, draws, a.risks.working, a.lane.slots, a.end, i).visit
  {
    NextKeys(bp, draws, a.risks.working, a.lane.slots, a.end, i, n - 1);
    FinishKeys(bp, draws, a.risks.working, a.lane.slots, a.end, i, n - 1);
  }

  lemma CloseServes(bp: Blueprint, draws: Draws, i: nat, n: nat, item: Item, slot: Slot, end: int)
    requires !slot.Idle? && slot.visit.open && item.kind in bp.routes && Position(bp.routes[item.kind], slot.visit.status, 0).Some?
    ensures var v := Close(bp, draws, i, n, item, slot, end).visit;
            && (v.open <==> !Served(bp.calendar, v, end)) && (!v.open ==> v.closed == Some(end))
  {
  }

  lemma CarriedOpen(bp: Blueprint, visits: Visits, item: Item, i: nat, n: nat, slot: Slot)
    requires Carrying(bp, visits, item, i, n, slot) && item.life.Active?
    ensures n > 0 && !slot.Idle? && slot.visit.open
  {
    assert VisitOk(bp, item, i, n, n - 1, visits[(i, n - 1)]);
  }
}
