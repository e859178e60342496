/** A tick that stays where it starts does so at a working instant, on a visit already entered; so a team
    that never works after its first sprint boundary always catches up. */
module Closed {
  import opened BusinessCalendar
  import opened Allocation
  import opened Team
  import opened Segments
  import opened Completion
  import opened FirstCompletion
  import opened CommittedEnd
  import opened Commands
  import opened Routes
  import opened RunInvariant
  import opened SprintRun
  import opened Risks
  import opened RiskLaws
  import opened Waits
  import opened Tick
  import opened Steps
  import opened Progress
  import opened Scheduler
  import opened Idle

  lemma FirstWorks(c: Calendar, g: Segment)
    requires g.start < g.end && Count(c, g.start, g.end) == g.end - g.start
    ensures Working(c, g.start)
  {
    CountAdds(c, g.start, g.start + 1, g.end);
    CountAtMostCalendar(c, g.start + 1, g.end);
    assert Count(c, g.start, g.start) == 0;
  }

  /** A scan that finds something asked for its clock. */
  lemma FoundAsked(d: Desk, before: seq<Slot>, after: seq<Slot>, clocks: seq<nat>) returns (i: nat)
    requires AllScannable(d, before, after) && |clocks| == |before| && Boundary(d, before, after, clocks).Some?
    ensures i < |before| && Asked(before[i], after[i])
  {
    ScanIsLeast(d, before, after, clocks, |before|);
    i :| i < |before| && OffsetAt(d, before, after, clocks, i) == Boundary(d, before, after, clocks);
    OffsetAsked(d, before[i], after[i], clocks[i], ScanTo(d, before, after, clocks, i).used);
  }

  lemma OffsetAsked(d: Desk, s: Slot, t: Slot, clock: nat, used: seq<nat>)
    requires |used| == |d.seats| && Scannable(d, s, t) && Offset(d, s, t, clock, used).Some?
    ensures Asked(s, t)
  {
  }

  lemma StopAsked(bp: Blueprint, overlays: seq<Overlay>, lane: Lane, g: Segment) returns (i: nat)
    requires ValidWindows(bp, overlays) && g.start <= g.end && Staffed(bp, lane.slots)
    requires SegmentBoundary(bp, overlays, lane, g).Some? && SegmentReadable(bp, overlays, lane, g)
    ensures i < |lane.slots| && !lane.slots[i].Idle? && lane.slots[i].visit.entered <= g.start
  {
    ProbeScannable(bp, overlays, lane, g);
    i := FoundAsked(DeskFor(bp, overlays, g), lane.slots, StepSegment(bp, overlays, lane, g).slots, Clocks(bp.calendar, lane.slots, g.start));
  }

  /** A readable walk that stops where it starts does so at a working instant, on a visit entered by then. */
  lemma WalkWorks(bp: Blueprint, overlays: seq<Overlay>, lane: Lane, segs: seq<Segment>, s: int, e: int) returns (i: nat)
    requires ValidWindows(bp, overlays) && Staffed(bp, lane.slots) && Forward(segs) && Ordered(segs, s, e) && s < e
    requires Chained(bp.calendar, segs, s, e) && WalkReadable(bp, overlays, lane, segs)
    requires Walk(bp, overlays, lane, segs, e).1 == s
    ensures Working(bp.calendar, s) && i < |lane.slots| && !lane.slots[i].Idle? && lane.slots[i].visit.entered <= s
  {
    assert segs != [];
    StuckFirst(bp, overlays, lane, segs, s, e);
    FirstWorks(bp.calendar, segs[0]);
    i := StopAsked(bp, overlays, lane, segs[0]);
  }

  lemma AttemptWorks(bp: Blueprint, draws: Draws, s: State, e: int) returns (key: (nat, nat))
    requires TickReady(bp, s) && NotPast(bp, s, e) && s.cursor < e && AttemptReadable(bp, draws, s, e)
    requires Attempt(bp, draws, s, e).end == s.cursor
    ensures Working(bp.calendar, s.cursor) && key in s.visits && s.visits[key].entered <= s.cursor
  {
    AttemptReady(bp, draws, s, e);
    var working := Evaluate(bp, draws, s, e, |bp.rules|).working;
    SegmentsChained(bp, working.overlays, s.cursor, e);
    var i := WalkWorks(bp, working.overlays, Lane(SlotsOf(s, working), s.book, []),
                       SegmentsOf(bp, working.overlays, s.cursor, e), s.cursor, e);
    EvaluateVisits(bp, draws, s, e, |bp.rules|);
    key := SlotEntered(bp, s, working, i);
  }

  /** A slot's visit is one the state had, entered at the same instant. */
  lemma SlotEntered(bp: Blueprint, s: State, working: State, i: nat) returns (key: (nat, nat))
    requires ItemsOk(bp, working) && VisitsStep(s, working) && i < |working.items| && !SlotAt(s, working, i).Idle?
    ensures key in s.visits && s.visits[key].entered == SlotAt(s, working, i).visit.entered
  {
    assert ItemHolds(bp, working, i);
    SlotIs(bp, s, working, i);
    key := (i, OpenKey(working, i).value);
    assert VisitStep(s.visits[key], working.visits[key]);
  }

  lemma {:induction false} StableWorks(bp: Blueprint, draws: Draws, s: State, e: int) returns (key: (nat, nat))
    requires TickReady(bp, s) && NotPast(bp, s, e) && s.cursor < e && StableReadable(bp, draws, s, e)
    requires Stable(bp, draws, s, e).end == s.cursor
    ensures Working(bp.calendar, s.cursor) && key in s.visits && s.visits[key].entered <= s.cursor
    decreases e - s.cursor
  {
    var a := Attempt(bp, draws, s, e);
    if a.end == s.cursor {
      key := AttemptWorks(bp, draws, s, e);
    } else {
      key := StableWorks(bp, draws, s, a.end);
    }
  }

  /** The team never works once its first sprint could have begun. */
  ghost predicate NeverWorks(bp: Blueprint) {
    forall t :: t >= bp.anchor ==> !Working(bp.calendar, t)
  }

  lemma ClosedMoves(bp: Blueprint, draws: Draws, s: State, now: int, asOf: int)
    requires StepReady(bp, s) && Standing(bp, s, now) && s.cursor < asOf && !AtBoundary(s) && StepReadable(bp, draws, s, asOf)
    requires NeverWorks(bp)
    ensures AdvanceFrom(bp, draws, s, asOf).end > s.cursor
  {
    NoCrossing(bp, draws, s, now);
    NotStuckAtEnd(bp, s, now, asOf);
    EffectiveEndBounds(bp, s, asOf);
    EnteredFrom(bp, s, now);
    if AdvanceFrom(bp, draws, s, asOf).end == s.cursor {
      var _ := StableWorks(bp, draws, s, EffectiveEnd(bp, s, asOf));
    }
  }

  lemma EnteredFrom(bp: Blueprint, s: State, now: int)
    requires Standing(bp, s, now)
    ensures forall key :: key in s.visits ==> bp.anchor <= s.visits[key].entered
  {
    var first: nat :| Invariant(bp, now, s, first) && s.cursor <= now <= NextBoundary(s);
    forall key | key in s.visits ensures bp.anchor <= s.visits[key].entered {
      assert InTime(bp.anchor, now, s.visits[key]);
    }
  }

  lemma ClosedProgresses(bp: Blueprint, draws: Draws, s: State, now: int, asOf: int)
    requires StepReady(bp, s) && Standing(bp, s, now) && s.cursor <= asOf && StepReadable(bp, draws, s, asOf) && NeverWorks(bp)
    ensures Progresses(bp, s, Committed(s, StepFrom(bp, draws, s, asOf)), asOf)
  {
    if s.cursor < asOf && !AtBoundary(s) {
      ClosedMoves(bp, draws, s, now, asOf);
    }
    MovesOn(bp, draws, s, now, asOf);
  }
}
