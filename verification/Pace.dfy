/** No visit is credited with more labor than business time has passed since its entry, as long as no tick
    starts with an open visit entered after the cursor. */
module Pace {
  import opened BusinessCalendar
  import opened Allocation
  import opened AllocationLaws
  import opened Team
  import opened Segments
  import opened FirstCompletion
  import opened CommittedEnd
  import opened Commands
  import opened Routes
  import opened RunInvariant
  import opened Lifecycle
  import opened SprintRun
  import opened Risks
  import opened RiskLaws
  import opened Waits
  import opened Tick
  import opened Finish
  import opened TickLaws
  import opened TickRun
  import opened Steps
  import opened Progress
  import opened Restart
  import opened Scope
  import opened Histories

  // ---------- Inside a tick ----------

  /** A segment credits no visit with more than its own length. */
  lemma SegmentPace(d: Desk, spent: seq<nat>, slots: seq<Slot>, i: nat)
    requires ValidDesk(d) && ValidSlots(d, slots) && |spent| == |d.seats| && i < |slots|
    ensures var r := Advance(d, spent, slots).slots;
            slots[i].Busy? && r[i].Busy? ==> r[i].visit.credited <= slots[i].visit.credited + d.len
  {
    AssignShape(d, spent, slots);
    AssignExplains(d, spent, slots);
    WorkPrefix(d, spent, Assign(d, spent, slots), i);
  }

  lemma StepPace(bp: Blueprint, overlays: seq<Overlay>, lane: Lane, g: Segment, i: nat)
    requires ValidWindows(bp, overlays) && g.start <= g.end && Staffed(bp, lane.slots) && i < |lane.slots| && !lane.slots[i].Idle?
    ensures var after := StepSegment(bp, overlays, lane, g).slots[i];
            !after.Idle? && after.visit.credited <= lane.slots[i].visit.credited + (g.end - g.start)
  {
    StepMoves(bp, overlays, lane, g);
    assert Moved(lane.slots[i], StepSegment(bp, overlays, lane, g).slots[i]);
    SegmentPace(DeskFor(bp, overlays, g), DaySpent(bp, lane.book, g.day), lane.slots, i);
  }

  /** Business time up to a point inside the next stretch of working time. */
  lemma CountInto(c: Calendar, from: int, g: Segment, x: int)
    requires from <= g.start <= x <= g.end && Count(c, from, g.start) == 0 && Count(c, g.start, g.end) == g.end - g.start
    ensures Count(c, from, x) == x - g.start
  {
    CountAdds(c, g.start, x, g.end);
    CountAtMostCalendar(c, g.start, x);
    CountAtMostCalendar(c, x, g.end);
    CountAdds(c, from, g.start, x);
  }

  /** Up to where one segment stops, no visit gains more than business time passes. */
  lemma OnePace(bp: Blueprint, overlays: seq<Overlay>, lane: Lane, g: Segment, from: int, i: nat)
    requires ValidWindows(bp, overlays) && Staffed(bp, lane.slots) && i < |lane.slots| && !lane.slots[i].Idle?
    requires from <= g.start <= g.end && Count(bp.calendar, from, g.start) == 0
    requires Count(bp.calendar, g.start, g.end) == g.end - g.start
    ensures var one := OneSegment(bp, overlays, lane, g);
            var x := if one.1.Some? then one.1.value else g.end;
            && from <= x && !one.0.slots[i].Idle?
            && one.0.slots[i].visit.credited <= lane.slots[i].visit.credited + Count(bp.calendar, from, x)
  {
    var x := OneStops(bp, overlays, lane, g);
    CountInto(bp.calendar, from, g, x);
    StepPace(bp, overlays, lane, Segment(g.day, g.start, x), i);
  }

  /** A segment's outcome is that of its part up to where it stops. */
  lemma OneStops(bp: Blueprint, overlays: seq<Overlay>, lane: Lane, g: Segment) returns (x: int)
    requires ValidWindows(bp, overlays) && Staffed(bp, lane.slots) && g.start <= g.end
    ensures var one := OneSegment(bp, overlays, lane, g);
            && x == (if one.1.Some? then one.1.value else g.end) && g.start <= x <= g.end
            && one.0 == StepSegment(bp, overlays, lane, Segment(g.day, g.start, x))
  {
    var boundary := SegmentBoundary(bp, overlays, lane, g);
    if boundary.Some? {
      x := g.start + boundary.value;
      assert Cut(g, boundary.value) == Segment(g.day, g.start, x);
    } else {
      x := g.end;
      assert g == Segment(g.day, g.start, g.end);
    }
  }

  /** A walk credits no visit with more than the business time it spans. */
  lemma {:induction false} WalkPace(bp: Blueprint, overlays: seq<Overlay>, lane: Lane, segs: seq<Segment>, from: int, e: int, i: nat)
    requires ValidWindows(bp, overlays) && Staffed(bp, lane.slots) && Forward(segs) && Chained(bp.calendar, segs, from, e)
    requires i < |lane.slots| && !lane.slots[i].Idle?
    ensures var r := Walk(bp, overlays, lane, segs, e);
            && from <= r.1 && !r.0.slots[i].Idle?
            && r.0.slots[i].visit.credited <= lane.slots[i].visit.credited + Count(bp.calendar, from, r.1)
    decreases |segs|
  {
    if segs != [] {
      OnePace(bp, overlays, lane, segs[0], from, i);
      var one := OneSegment(bp, overlays, lane, segs[0]);
      if one.1.None? {
        WalkPace(bp, overlays, one.0, segs[1..], segs[0].end, e, i);
        CountAdds(bp.calendar, from, segs[0].end, Walk(bp, overlays, one.0, segs[1..], e).1);
      }
    }
  }

  lemma AttemptPace(bp: Blueprint, draws: Draws, s: State, e: int, i: nat)
    requires TickReady(bp, s) && NotPast(bp, s, e) && s.cursor <= e
    requires var slots := SlotsOf(s, Evaluate(bp, draws, s, e, |bp.rules|).working); i < |slots| && !slots[i].Idle?
    ensures var a, slots := Attempt(bp, draws, s, e), SlotsOf(s, Evaluate(bp, draws, s, e, |bp.rules|).working);
            && i < |a.lane.slots| && !a.lane.slots[i].Idle?
            && a.lane.slots[i].visit.credited <= slots[i].visit.credited + Count(bp.calendar, s.cursor, a.end)
  {
    AttemptReady(bp, draws, s, e);
    var working := Evaluate(bp, draws, s, e, |bp.rules|).working;
    SegmentsChained(bp, working.overlays, s.cursor, e);
    WalkPace(bp, working.overlays, Lane(SlotsOf(s, working), s.book, []), SegmentsOf(bp, working.overlays, s.cursor, e), s.cursor, e, i);
  }

  // ---------- One tick ----------

  /** The visit has been credited with no more than the business time from its entry to t. */
  ghost predicate KeepsPace(c: Calendar, t: int, v: Visit) {
    v.credited <= Count(c, v.entered, t)
  }

  ghost predicate AllKeepPace(bp: Blueprint, s: State) {
    forall key :: key in s.visits ==> KeepsPace(bp.calendar, s.cursor, s.visits[key])
  }

  lemma PaceLater(c: Calendar, t: int, u: int, v: Visit, w: Visit)
    requires KeepsPace(c, t, v) && t <= u && w.entered == v.entered && w.credited == v.credited
    ensures KeepsPace(c, u, w)
  {
    CountGrows(c, v.entered, t, u);
  }

  /** A slot's visit keeps pace over the tick, if it was entered by the cursor. */
  lemma SlotPace(bp: Blueprint, draws: Draws, s: State, a: Attempted, i: nat)
    requires Ticks(bp, draws, s, a) && Advancing(bp, s, a) && Placed(bp, a.risks.working.items, a.lane.slots)
    requires i < |a.lane.slots| && !a.lane.slots[i].Idle? && NoneEarly(s) && AllKeepPace(bp, s)
    ensures KeepsPace(bp.calendar, a.end, a.lane.slots[i].visit)
  {
    var working := a.risks.working;
    assert Moved(SlotsOf(s, working)[i], a.lane.slots[i]);
    AttemptPace(bp, draws, s, a.end, i);
    assert ItemHolds(bp, working, i);
    SlotIs(bp, s, working, i);
    EvaluateVisits(bp, draws, s, a.end, |bp.rules|);
    var key := (i, OpenKey(working, i).value);
    SlotKeeps(bp.calendar, s.cursor, a.end, s.visits[key], SlotsOf(s, working)[i].visit, a.lane.slots[i].visit);
  }

  lemma SlotKeeps(c: Calendar, t: int, u: int, v: Visit, w: Visit, x: Visit)
    requires KeepsPace(c, t, v) && v.entered <= t <= u && VisitStep(v, w) && x.entered == w.entered
    requires x.credited <= w.credited + Count(c, t, u)
    ensures KeepsPace(c, u, x)
  {
    CountAdds(c, v.entered, t, u);
  }

  lemma ClosingPace(bp: Blueprint, draws: Draws, a: Attempted, i: nat)
    requires Placed(bp, a.risks.working.items, a.lane.slots) && i < |a.lane.slots| && !a.lane.slots[i].Idle?
    requires KeepsPace(bp.calendar, a.end, a.lane.slots[i].visit)
    ensures var c := ClosingAt(bp, draws, a.risks.working, a.lane.slots, a.end, i);
            KeepsPace(bp.calendar, a.end, c.visit) && (c.next.Some? ==> KeepsPace(bp.calendar, a.end, c.next.value))
  {
  }

  /** A tick from a state with no early visit keeps every visit at pace. */
  lemma AdvancePace(bp: Blueprint, draws: Draws, s: State, a: Attempted)
    requires Ticks(bp, draws, s, a) && Placed(bp, a.risks.working.items, a.lane.slots) && NoneEarly(s) && AllKeepPace(bp, s)
    ensures AllKeepPace(bp, Committed(s, FinishTick(bp, draws, a)))
  {
    TickParts(bp, draws, s, a);
    var visits := VisitsAfter(bp, draws, a);
    forall i: nat, k: nat | (i, k) in visits ensures KeepsPace(bp.calendar, a.end, visits[(i, k)]) {
      FinishKeys(bp, draws, a.risks.working, a.lane.slots, a.end, i, k);
      NextKeys(bp, draws, a.risks.working, a.lane.slots, a.end, i, k);
      if i < |a.lane.slots| && !a.lane.slots[i].Idle? {
        SlotPace(bp, draws, s, a, i);
        ClosingPace(bp, draws, a, i);
      }
      if (i, k) in a.risks.working.visits {
        RulesPace(bp, draws, s, a, (i, k));
      }
    }
    EachKeepsPace(bp, a.end, visits);
  }

  lemma EachKeepsPace(bp: Blueprint, t: int, visits: Visits)
    requires forall i: nat, k: nat :: (i, k) in visits ==> KeepsPace(bp.calendar, t, visits[(i, k)])
    ensures forall key :: key in visits ==> KeepsPace(bp.calendar, t, visits[key])
  {
    forall key | key in visits ensures KeepsPace(bp.calendar, t, visits[key]) {
      assert KeepsPace(bp.calendar, t, visits[(key.0, key.1)]);
    }
  }

  lemma RulesPace(bp: Blueprint, draws: Draws, s: State, a: Attempted, key: (nat, nat))
    requires Ticks(bp, draws, s, a) && key in a.risks.working.visits && AllKeepPace(bp, s)
    ensures KeepsPace(bp.calendar, a.end, a.risks.working.visits[key])
  {
    EvaluateVisits(bp, draws, s, a.end, |bp.rules|);
    assert VisitStep(s.visits[key], a.risks.working.visits[key]);
    PaceLater(bp.calendar, s.cursor, a.end, s.visits[key], a.risks.working.visits[key]);
  }

  // ---------- Crossings and restarts ----------

  /** Visits that were there are as they were; the others have earned nothing yet. */
  ghost predicate OnlyFresh(s: State, t: State) {
    forall key :: key in t.visits ==> if key in s.visits then t.visits[key] == s.visits[key] else t.visits[key].credited == 0
  }

  lemma FreshPace(bp: Blueprint, s: State, t: State)
    requires AllKeepPace(bp, s) && OnlyFresh(s, t) && s.cursor <= t.cursor
    ensures AllKeepPace(bp, t)
  {
    forall key | key in t.visits ensures KeepsPace(bp.calendar, t.cursor, t.visits[key]) {
      if key in s.visits {
        PaceLater(bp.calendar, s.cursor, t.cursor, s.visits[key], t.visits[key]);
      }
    }
  }

  lemma PlannedOnlyFresh(bp: Blueprint, draws: Draws, s: State, ids: seq<nat>, t: int, after: State)
    requires KindsKnown(bp, s.items) && after.visits == s.visits + Opened(bp, draws, s.items, ids, t)
    requires forall key :: key in s.visits ==> key in after.visits && after.visits[key] == s.visits[key]
    ensures OnlyFresh(s, after)
  {
    forall key | key in after.visits && key !in s.visits ensures after.visits[key].credited == 0 {
      PlannedVisits(bp, draws, s, ids, t, key.0, key.1);
    }
  }

  lemma CrossingFresh(bp: Blueprint, draws: Draws, now: int, s: State, first: nat)
    requires ValidBlueprint(bp) && Invariant(bp, now, s, first) && KindsKnown(bp, s.items)
    ensures CrossBoundary(bp, draws, s, NextBoundary(s)).Some?
    ensures var after := Committed(s, CrossBoundary(bp, draws, s, NextBoundary(s)).value);
            OnlyFresh(s, after) && after.cursor == s.cursor
  {
    var t := NextBoundary(s);
    CrossingTouchesNothing(bp, draws, now, s, first, t);
    CrossingDue(bp, draws, now, s, first, t);
    var after := Committed(s, CrossBoundary(bp, draws, s, t).value);
    if OpenSprint(s).phase.Planned? {
      var ids := ActivationPlans(bp, draws, s, OpenOrdinal(s), t);
      PlannedOnlyFresh(bp, draws, s, ids, t, after);
    } else {
      PlannedOnlyFresh(bp, draws, s, RolloverBacklog(bp, draws, s, OpenOrdinal(s)), t, after);
    }
  }

  lemma StepPaceKept(bp: Blueprint, draws: Draws, s: State, now: int, requested: int)
    requires StepReady(bp, s) && Standing(bp, s, now) && s.cursor <= requested && NoneEarly(s) && AllKeepPace(bp, s)
    ensures AllKeepPace(bp, Committed(s, StepFrom(bp, draws, s, requested)))
  {
    var first: nat :| Invariant(bp, now, s, first) && s.cursor <= now <= NextBoundary(s);
    NoCrossing(bp, draws, s, now);
    if AtBoundary(s) {
      CrossingFresh(bp, draws, now, s, first);
      FreshPace(bp, s, Committed(s, StepFrom(bp, draws, s, requested)));
    } else {
      StepAdvances(bp, draws, s, requested);
      AdvancePace(bp, draws, s, AdvanceFrom(bp, draws, s, requested));
    }
  }

  // ---------- Restarts ----------

  lemma FreshTrans(s: State, r: State, t: State)
    requires OnlyFresh(s, r) && OnlyFresh(r, t) && forall key :: key in s.visits ==> key in r.visits
    ensures OnlyFresh(s, t)
  {
  }

  lemma LeftNext(bp: Blueprint, draws: Draws, s: State, now: int, asOf: int, k: nat)
    requires ValidBlueprint(bp) && Standing(bp, s, now) && AllDue(bp, draws, s, asOf, k) && OnlyFresh(s, LeftAfter(bp, draws, s, k))
    ensures OnlyFresh(s, LeftAfter(bp, draws, s, k + 1))
  {
    var r := LeftAfter(bp, draws, s, k);
    var later := LeftStands(bp, draws, s, now, asOf, k);
    StandingParts(bp, r, later);
    var first: nat :| Invariant(bp, later, r, first) && r.cursor <= later <= NextBoundary(r);
    CrossingFresh(bp, draws, later, r, first);
    FreshTrans(s, r, CrossNext(bp, draws, r));
  }

  /** Wherever a restart is broken off, the visits it has opened have earned nothing. */
  lemma LeftFresh(bp: Blueprint, draws: Draws, s: State, now: int, asOf: int, n: nat)
    requires ValidBlueprint(bp) && Standing(bp, s, now) && AllDue(bp, draws, s, asOf, n)
    ensures OnlyFresh(s, LeftAfter(bp, draws, s, n))
  {
    NoneLeft(bp, draws, s);
    forall k: nat | k < n && OnlyFresh(s, LeftAfter(bp, draws, s, k)) ensures OnlyFresh(s, LeftAfter(bp, draws, s, k + 1)) {
      LeftNext(bp, draws, s, now, asOf, k);
    }
    Inductive((k: nat) => OnlyFresh(s, LeftAfter(bp, draws, s, k)), n);
  }

  // ---------- Whole histories ----------

  lemma HappensPace(bp: Blueprint, s: State, event: Event, t: State)
    requires ValidBlueprint(bp) && Stands(bp, s) && Happens(bp, s, event, t) && AllKeepPace(bp, s) && (event.Ticked? ==> NoneEarly(s))
    ensures AllKeepPace(bp, t)
  {
    var now :| Standing(bp, s, now);
    HappensStands(bp, s, event, t);
    match event {
      case Ticked(draws, requested) => StepPaceKept(bp, draws, s, now, requested);
      case Restarted(draws, asOf, crossed) =>
        LeftFresh(bp, draws, s, now, asOf, crossed);
        FreshPace(bp, s, t);
      case Interrupted(draws, asOf, crossed) =>
        LeftFresh(bp, draws, s, now, asOf, crossed);
        FreshPace(bp, s, t);
    }
  }

  lemma BeginsAtPace(bp: Blueprint, s: State)
    requires Histories.Begins(bp, s)
    ensures AllKeepPace(bp, s)
  {
    var draws, backlog, k: nat :| BeginsWith(bp, s, draws, backlog, k);
    forall key | key in s.visits ensures s.visits[key].credited == 0 {
      var ids := SelectFrom(backlog, bp.minPoints, Target(bp, draws.target(k)), 0, 0);
      OpenedIdle(bp, draws, backlog, ids, s.cursor, key.0, key.1);
    }
  }

  lemma OpenedIdle(bp: Blueprint, draws: Draws, items: seq<Item>, ids: seq<nat>, t: int, i: nat, k: nat)
    requires KindsKnown(bp, items) && (i, k) in Opened(bp, draws, items, ids, t)
    ensures Opened(bp, draws, items, ids, t)[(i, k)].credited == 0
  {
  }

  /** Labor never runs ahead of business time since entry, as long as no tick starts with an open visit
      entered after the cursor. */
  lemma HistoryPace(bp: Blueprint, states: seq<State>, events: seq<Event>, k: nat)
    requires IsHistory(bp, states, events) && k < |states|
    requires forall j :: 0 <= j < k && events[j].Ticked? ==> NoneEarly(states[j])
    ensures AllKeepPace(bp, states[k])
  {
    BeginsAtPace(bp, states[0]);
    var first := states[..k + 1];
    forall j | 0 < j < |first| && AllKeepPace(bp, first[j - 1]) ensures AllKeepPace(bp, first[j]) {
      EventAt(bp, states, events, j);
      HistoryStands(bp, states, events, j - 1);
      HappensPace(bp, states[j - 1], events[j - 1], states[j]);
    }
    KeptAlong((s: State) => AllKeepPace(bp, s), first, k);
  }

  /** So as long as no restart is broken off, every visit's labor keeps to its business time. */
  lemma SoundHistoryPace(bp: Blueprint, states: seq<State>, events: seq<Event>, k: nat)
    requires IsHistory(bp, states, events) && k < |states| && forall j :: 0 <= j < k ==> !events[j].Interrupted?
    ensures AllKeepPace(bp, states[k])
  {
    forall j | 0 <= j < k && events[j].Ticked? ensures NoneEarly(states[j]) {
      HistorySound(bp, states, events, j);
      SoundNotEarly(bp, states[j]);
    }
    HistoryPace(bp, states, events, k);
  }
}
