/** Why the catch-up loop ends: a tick that does not move the cursor closes a visit. */
module Progress {
  import opened BusinessCalendar
  import opened Allocation
  import opened Team
  import opened Segments
  import opened Completion
  import opened FirstCompletion
  import opened CommittedEnd
  import opened Commands
  import opened Routes
  import opened RunInvariant
  import opened Lifecycle
  import opened SprintRun
  import opened Risks
  import opened RiskLaws
  import opened Workdays
  import opened Waits
  import opened Tick
  import opened Finish
  import opened TickLaws
  import opened TickRun
  import opened Steps

  // ---------- A walk that stops where it starts ----------

  lemma StretchPositive(labor: nat, fraction: real)
    requires labor > 0 && 0.0 < fraction <= 1.0
    ensures Stretch(labor, fraction) > 0
  {
    PositiveQuotient(labor as real, fraction);
  }

  lemma PositiveQuotient(a: real, f: real)
    requires a > 0.0 && f > 0.0
    ensures a / f > 0.0
  {
  }

  lemma NoWorkAtOnce(d: Desk, v: Visit, w: Visit, used: seq<nat>)
    requires |used| == |d.seats| && Present(d, v, w) && TouchOffset(d, v, w, used) == Some(0)
    ensures v.remaining == 0
  {
    if v.remaining > 0 && w.remaining == 0 && w.member.Some? {
      StretchPositive(used[w.member.value] + v.remaining, d.seats[w.member.value].fraction);
    }
  }

  lemma AtOnceComplete(d: Desk, s: Slot, t: Slot, clock: nat, used: seq<nat>)
    requires |used| == |d.seats| && Scannable(d, s, t) && Offset(d, s, t, clock, used) == Some(0)
    ensures CompleteAt(s, clock)
  {
    NoWorkAtOnce(d, s.visit, t.visit, used);
  }

  /** Whatever the availability, a segment that stops at its start holds a visit complete there. */
  lemma StopsAtOnce(bp: Blueprint, overlays: seq<Overlay>, lane: Lane, g: Segment)
    requires ValidWindows(bp, overlays) && g.start <= g.end && Staffed(bp, lane.slots)
    requires SegmentBoundary(bp, overlays, lane, g) == Some(0)
    ensures CompleteNow(bp.calendar, lane.slots, g.start)
  {
    ProbeScannable(bp, overlays, lane, g);
    var d, after, clocks := DeskFor(bp, overlays, g), StepSegment(bp, overlays, lane, g).slots, Clocks(bp.calendar, lane.slots, g.start);
    ScanIsLeast(d, lane.slots, after, clocks, |lane.slots|);
    var i :| 0 <= i < |lane.slots| && OffsetAt(d, lane.slots, after, clocks, i) == Some(0);
    AtOnceComplete(d, lane.slots[i], after[i], clocks[i], ScanTo(d, lane.slots, after, clocks, i).used);
    assert CompleteAt(lane.slots[i], Clock(bp.calendar, lane.slots[i], g.start));
  }

  lemma {:induction false} WalkAfter(bp: Blueprint, overlays: seq<Overlay>, lane: Lane, segs: seq<Segment>, lo: int, e: int)
    requires ValidWindows(bp, overlays) && Staffed(bp, lane.slots) && Forward(segs) && lo < e
    requires forall k :: 0 <= k < |segs| ==> lo < segs[k].start
    ensures Walk(bp, overlays, lane, segs, e).1 > lo
    decreases |segs|
  {
    if segs != [] && OneSegment(bp, overlays, lane, segs[0]).1.None? {
      assert forall k :: 0 <= k < |segs[1..]| ==> segs[1..][k] == segs[k + 1];
      WalkAfter(bp, overlays, OneSegment(bp, overlays, lane, segs[0]).0, segs[1..], lo, e);
    }
  }

  /** A walk over a non-empty stretch that ends where it starts found a visit complete there. */
  lemma WalkStuck(bp: Blueprint, overlays: seq<Overlay>, lane: Lane, segs: seq<Segment>, s: int, e: int)
    requires ValidWindows(bp, overlays) && Staffed(bp, lane.slots) && Forward(segs) && Ordered(segs, s, e) && s < e
    requires Walk(bp, overlays, lane, segs, e).1 == s
    ensures CompleteNow(bp.calendar, lane.slots, s)
  {
    if segs != [] {
      StuckFirst(bp, overlays, lane, segs, s, e);
      StopsAtOnce(bp, overlays, lane, segs[0]);
    }
  }

  /** Only the first segment can stop the walk where it starts. */
  lemma StuckFirst(bp: Blueprint, overlays: seq<Overlay>, lane: Lane, segs: seq<Segment>, s: int, e: int)
    requires ValidWindows(bp, overlays) && Staffed(bp, lane.slots) && Forward(segs) && Ordered(segs, s, e) && s < e
    requires segs != [] && Walk(bp, overlays, lane, segs, e).1 == s
    ensures segs[0].start == s && SegmentBoundary(bp, overlays, lane, segs[0]) == Some(0)
  {
    var one := OneSegment(bp, overlays, lane, segs[0]);
    if one.1.None? {
      assert forall k :: 0 <= k < |segs[1..]| ==> segs[1..][k] == segs[k + 1];
      WalkAfter(bp, overlays, one.0, segs[1..], s, e);
    }
  }

  // ---------- A tick that does not move ----------

  /** A slot complete after the rules made it wait was complete before. */
  lemma CompleteBefore(c: Calendar, a: Slot, b: Slot, t: int)
    requires !a.Idle? && !b.Idle? && b.visit.pause >= a.visit.pause && b.visit == PauseFor(a.visit, b.visit.pause - a.visit.pause)
    requires CompleteAt(b, Clock(c, b, t))
    ensures CompleteAt(a, Clock(c, a, t))
  {
  }

  lemma StuckSlot(bp: Blueprint, s: State, working: State, i: nat)
    requires ItemsOk(bp, s) && RiskStep(bp, s, working) && VisitsStep(s, working) && i < |s.items|
    requires CompleteAt(SlotAt(s, working, i), Clock(bp.calendar, SlotAt(s, working, i), s.cursor))
    ensures CompleteAt(SlotAt(s, s, i), Clock(bp.calendar, SlotAt(s, s, i), s.cursor))
  {
    assert ItemHolds(bp, s, i) && ItemHolds(bp, working, i);
    SlotIs(bp, s, working, i);
    SlotIs(bp, s, s, i);
    var n := s.counters[VisitOrdinal(i)];
    assert VisitStep(s.visits[(i, n - 1)], working.visits[(i, n - 1)]);
    CompleteBefore(bp.calendar, SlotAt(s, s, i), SlotAt(s, working, i), s.cursor);
  }

  /** An attempt over a non-empty stretch that ends at the cursor starts from a visit complete there. */
  lemma AttemptStuck(bp: Blueprint, draws: Draws, s: State, e: int)
    requires TickReady(bp, s) && NotPast(bp, s, e) && s.cursor < e && Attempt(bp, draws, s, e).end == s.cursor
    ensures CompleteNow(bp.calendar, SlotsOf(s, s), s.cursor)
  {
    AttemptReady(bp, draws, s, e);
    var working := Evaluate(bp, draws, s, e, |bp.rules|).working;
    var start := Lane(SlotsOf(s, working), s.book, []);
    WalkStuck(bp, working.overlays, start, SegmentsOf(bp, working.overlays, s.cursor, e), s.cursor, e);
    var i :| 0 <= i < |start.slots| && CompleteAt(start.slots[i], Clock(bp.calendar, start.slots[i], s.cursor));
    EvaluateVisits(bp, draws, s, e, |bp.rules|);
    StuckSlot(bp, s, working, i);
    assert CompleteAt(SlotsOf(s, s)[i], Clock(bp.calendar, SlotsOf(s, s)[i], s.cursor));
  }

  lemma {:induction false} StableStuck(bp: Blueprint, draws: Draws, s: State, e: int)
    requires TickReady(bp, s) && NotPast(bp, s, e) && s.cursor < e && Stable(bp, draws, s, e).end == s.cursor
    ensures CompleteNow(bp.calendar, SlotsOf(s, s), s.cursor)
    decreases e - s.cursor
  {
    var a := Attempt(bp, draws, s, e);
    if a.end == s.cursor {
      AttemptStuck(bp, draws, s, e);
    } else {
      StableStuck(bp, draws, s, a.end);
    }
  }

  /** At the cursor itself an attempt changes nothing. */
  lemma AttemptHere(bp: Blueprint, draws: Draws, s: State)
    requires TickReady(bp, s) && NotPast(bp, s, s.cursor)
    ensures var a := Attempt(bp, draws, s, s.cursor);
            a.risks == Evaluation(s, [], []) && a.lane == Lane(SlotsOf(s, s), s.book, []) && a.end == s.cursor
  {
    NothingDue(bp, draws, s, |bp.rules|);
    AttemptReady(bp, draws, s, s.cursor);
  }

  // ---------- Timed steps left to finish ----------

  /** Timed steps an active item still has to finish, the one it is in included. */
  function ItemAhead(bp: Blueprint, item: Item): nat {
    if item.life.Active? && item.kind in bp.routes && Position(bp.routes[item.kind], item.status, 0).Some?
    then TimedAhead(bp, bp.routes[item.kind], Position(bp.routes[item.kind], item.status, 0).value) else 0
  }

  function Unfinished(bp: Blueprint, items: seq<Item>): nat {
    if items == [] then 0 else Unfinished(bp, items[..|items| - 1]) + ItemAhead(bp, items[|items| - 1])
  }

  lemma {:induction false} UnfinishedLess(bp: Blueprint, a: seq<Item>, b: seq<Item>, i: nat)
    requires |a| == |b| && i <= |a|
    requires forall k :: 0 <= k < |a| ==> ItemAhead(bp, b[k]) <= ItemAhead(bp, a[k])
    requires i < |a| ==> ItemAhead(bp, b[i]) < ItemAhead(bp, a[i])
    ensures Unfinished(bp, b) <= Unfinished(bp, a)
    ensures i < |a| ==> Unfinished(bp, b) < Unfinished(bp, a)
    decreases |a|
  {
    if a != [] {
      var n := |a| - 1;
      UnfinishedLess(bp, a[..n], b[..n], if i < n then i else n);
    }
  }

  ghost predicate RoutesDistinct(bp: Blueprint) {
    forall kind :: kind in bp.routes ==> DistinctStatuses(bp, bp.routes[kind])
  }

  lemma LeaveAhead(bp: Blueprint, draws: Draws, i: nat, ordinal: nat, item: Item, t: int)
    requires RoutesDistinct(bp) && item.life.Active? && AtTimedStep(bp, item)
    ensures Position(bp.routes[item.kind], item.status, 0).Some?
    ensures ItemAhead(bp, Leave(bp, draws, i, ordinal, item, item.status, t).item) < ItemAhead(bp, item)
  {
    var steps := bp.routes[item.kind];
    var p :| 0 <= p < |steps| && steps[p].status == item.status && Timed(bp, steps[p]);
    LeavingProgresses(bp, steps, p);
    var next := NextTimed(bp, steps, p + 1);
    if next.Some? {
      LeavingProgresses(bp, steps, next.value);
    }
  }

  /** A tick never adds timed steps to an item; closing its visit takes one away. */
  lemma FinishAhead(bp: Blueprint, draws: Draws, s: State, a: Attempted, i: nat)
    requires RoutesDistinct(bp) && Advancing(bp, s, a) && Placed(bp, a.risks.working.items, a.lane.slots)
    requires i < |s.items| && |a.lane.slots| == |s.items|
    ensures var item := FinishItems(bp, draws, a.risks.working, a.lane.slots, a.end)[i];
            && ItemAhead(bp, item) <= ItemAhead(bp, s.items[i])
            && (CompleteAt(a.lane.slots[i], Clock(bp.calendar, a.lane.slots[i], a.end)) ==> ItemAhead(bp, item) < ItemAhead(bp, s.items[i]))
  {
    CarryingAt(bp, s, a, i);
    FinishEndsAs(bp, draws, a, i);
    var working, slot := a.risks.working, a.lane.slots[i];
    var n := working.counters[VisitOrdinal(i)];
    if !slot.Idle? {
      PlacedItem(bp, working.visits, working.items[i], i, n, slot);
      LeaveAhead(bp, draws, i, n, working.items[i], a.end);
    }
  }

  /** A tick that neither crosses a boundary nor moves the cursor leaves strictly fewer timed steps to
      finish, whenever it was asked to move. */
  lemma StuckTickProgresses(bp: Blueprint, draws: Draws, s: State, now: int, requested: int)
    requires StepReady(bp, s) && RoutesDistinct(bp) && Standing(bp, s, now) && s.cursor < requested && !AtBoundary(s)
    requires StepFrom(bp, draws, s, requested).after.cursor == s.cursor
    ensures Unfinished(bp, Committed(s, StepFrom(bp, draws, s, requested)).items) < Unfinished(bp, s.items)
  {
    NoCrossing(bp, draws, s, now);
    StepAdvances(bp, draws, s, requested);
    NotStuckAtEnd(bp, s, now, requested);
    StuckAttempt(bp, draws, s, requested);
    AdvancedProgresses(bp, draws, s, AdvanceFrom(bp, draws, s, requested));
  }

  /** The open sprint's boundary is at the cursor. */
  ghost predicate AtBoundary(s: State) {
    OpenOrdinal(s) in s.sprints && NextBoundary(s) == s.cursor
  }

  lemma NoCrossing(bp: Blueprint, draws: Draws, s: State, now: int)
    requires StepReady(bp, s) && Standing(bp, s, now)
    ensures CrossBoundary(bp, draws, s, s.cursor).Some? <==> AtBoundary(s)
  {
    var first: nat :| Invariant(bp, now, s, first) && s.cursor <= now <= NextBoundary(s);
    CrossingDue(bp, draws, now, s, first, s.cursor);
  }

  /** Short of a boundary the effective end lies past the cursor. */
  lemma NotStuckAtEnd(bp: Blueprint, s: State, now: int, requested: int)
    requires StepReady(bp, s) && Standing(bp, s, now) && s.cursor < requested && !AtBoundary(s)
    ensures s.cursor < EffectiveEnd(bp, s, requested)
  {
    var first: nat :| Invariant(bp, now, s, first) && s.cursor <= now <= NextBoundary(s);
    SprintBoundIs(bp, now, s, first, requested);
    NextWorkdayLeast(bp.calendar, s.cursor, Max(s.cursor, SprintBound(s, requested)));
  }

  lemma StuckAttempt(bp: Blueprint, draws: Draws, s: State, requested: int)
    requires StepReady(bp, s) && s.cursor < EffectiveEnd(bp, s, requested) && s.cursor <= requested
    requires AdvanceFrom(bp, draws, s, requested).end == s.cursor
    ensures var a := AdvanceFrom(bp, draws, s, requested);
            a.lane.slots == SlotsOf(s, s) && a.end == s.cursor && CompleteNow(bp.calendar, a.lane.slots, a.end)
  {
    EffectiveEndBounds(bp, s, requested);
    StableStuck(bp, draws, s, EffectiveEnd(bp, s, requested));
    AttemptHere(bp, draws, s);
  }

  lemma AdvancedProgresses(bp: Blueprint, draws: Draws, s: State, a: Attempted)
    requires RoutesDistinct(bp) && Ticks(bp, draws, s, a) && Placed(bp, a.risks.working.items, a.lane.slots)
    requires CompleteNow(bp.calendar, a.lane.slots, a.end)
    ensures Unfinished(bp, FinishTick(bp, draws, a).after.items) < Unfinished(bp, s.items)
  {
    TickParts(bp, draws, s, a);
    var i :| 0 <= i < |a.lane.slots| && CompleteAt(a.lane.slots[i], Clock(bp.calendar, a.lane.slots[i], a.end));
    FinishesOne(bp, draws, s, a, i);
  }

  lemma FinishesOne(bp: Blueprint, draws: Draws, s: State, a: Attempted, i: nat)
    requires RoutesDistinct(bp) && Advancing(bp, s, a) && Placed(bp, a.risks.working.items, a.lane.slots)
    requires i < |s.items| && |a.lane.slots| == |s.items|
    requires CompleteAt(a.lane.slots[i], Clock(bp.calendar, a.lane.slots[i], a.end))
    ensures Unfinished(bp, FinishItems(bp, draws, a.risks.working, a.lane.slots, a.end)) < Unfinished(bp, s.items)
  {
    var after := FinishItems(bp, draws, a.risks.working, a.lane.slots, a.end);
    forall k | 0 <= k < |s.items| ensures ItemAhead(bp, after[k]) <= ItemAhead(bp, s.items[k]) {
      FinishAhead(bp, draws, s, a, k);
    }
    FinishAhead(bp, draws, s, a, i);
    UnfinishedLess(bp, s.items, after, i);
  }
}
