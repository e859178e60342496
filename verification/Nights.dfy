/** A visit complete while the team is closed: the tick ends when the team next works, or where it was
    asked to end. */
module Nights {
  import opened BusinessCalendar
  import opened Allocation
  import opened AllocationLaws
  import opened Team
  import opened Segments
  import opened Completion
  import opened FirstCompletion
  import opened CommittedEnd
  import opened Routes
  import opened Risks
  import opened RiskLaws
  import opened Tick
  import opened TickRun
  import opened Steps
  import opened Loops

  /** x is the first working instant from t on, or e if the team does not work before e. */
  ghost predicate OpensAt(c: Calendar, t: int, e: int, x: int) {
    && t <= x <= e && (x < e ==> Working(c, x)) && forall u :: t <= u < x ==> !Working(c, u)
  }

  lemma IdleUntil(c: Calendar, t: int, x: int)
    requires t <= x && Count(c, t, x) == 0
    ensures forall u :: t <= u < x ==> !Working(c, u)
  {
    forall u | t <= u < x ensures !Working(c, u) {
      CountAdds(c, t, u + 1, x);
    }
  }

  /** What is complete stays complete. */
  lemma StaysComplete(c: Calendar, s: Slot, t: int, u: int)
    requires t <= u && CompleteAt(s, Clock(c, s, t))
    ensures CompleteAt(s, Clock(c, s, u))
  {
    CountGrows(c, s.visit.entered, t, u);
  }

  /** An empty step leaves a complete slot complete. */
  lemma EmptyStep(bp: Blueprint, overlays: seq<Overlay>, lane: Lane, g: Segment, i: nat)
    requires ValidWindows(bp, overlays) && g.start == g.end && Staffed(bp, lane.slots) && i < |lane.slots|
    requires CompleteAt(lane.slots[i], Clock(bp.calendar, lane.slots[i], g.start))
    ensures var after := StepSegment(bp, overlays, lane, g).slots;
            CompleteAt(after[i], Clock(bp.calendar, after[i], g.start))
  {
    SegmentEffect(DeskFor(bp, overlays, g), DaySpent(bp, lane.book, g.day), lane.slots, i);
  }

  lemma FirstOpens(c: Calendar, g: Segment, t: int, e: int)
    requires t <= g.start < g.end <= e && Count(c, t, g.start) == 0 && Count(c, g.start, g.end) == g.end - g.start
    ensures OpensAt(c, t, e, g.start)
  {
    IdleUntil(c, t, g.start);
    CountAdds(c, g.start, g.start + 1, g.end);
    CountAtMostCalendar(c, g.start + 1, g.end);
    assert Count(c, g.start, g.start) == 0;
  }

  /** The walk stops at the start of the first segment, if slot i is complete there. */
  lemma StopsFirst(bp: Blueprint, overlays: seq<Overlay>, lane: Lane, segs: seq<Segment>, e: int, i: nat)
    requires ValidWindows(bp, overlays) && Staffed(bp, lane.slots) && Forward(segs) && i < |lane.slots| && segs != []
    requires CompleteAt(lane.slots[i], Clock(bp.calendar, lane.slots[i], segs[0].start))
    ensures segs[0].start <= segs[0].end
    ensures Walk(bp, overlays, lane, segs, e) == (StepSegment(bp, overlays, lane, Cut(segs[0], 0)), segs[0].start)
  {
    CompleteStops(bp, overlays, lane, segs[0], i);
  }

  /** A walk over a stretch at whose start slot i is complete: it ends when the team first works, and the
      slot is complete there. */
  lemma WalkOpens(bp: Blueprint, overlays: seq<Overlay>, lane: Lane, segs: seq<Segment>, t: int, e: int, i: nat)
    requires ValidWindows(bp, overlays) && Staffed(bp, lane.slots) && Forward(segs) && i < |lane.slots|
    requires Chained(bp.calendar, segs, t, e) && CompleteAt(lane.slots[i], Clock(bp.calendar, lane.slots[i], t))
    ensures var r := Walk(bp, overlays, lane, segs, e);
            OpensAt(bp.calendar, t, e, r.1) && CompleteAt(r.0.slots[i], Clock(bp.calendar, r.0.slots[i], r.1))
  {
    if segs == [] {
      IdleUntil(bp.calendar, t, e);
      StaysComplete(bp.calendar, lane.slots[i], t, e);
    } else {
      StaysComplete(bp.calendar, lane.slots[i], t, segs[0].start);
      StopsFirst(bp, overlays, lane, segs, e, i);
      EmptyStep(bp, overlays, lane, Cut(segs[0], 0), i);
      FirstOpens(bp.calendar, segs[0], t, e);
    }
  }

  /** An attempt whose rules leave slot i complete at the cursor ends when the team first works. */
  lemma AttemptOpens(bp: Blueprint, draws: Draws, s: State, e: int, i: nat)
    requires TickReady(bp, s) && NotPast(bp, s, e) && s.cursor <= e && CompleteFor(bp, draws, s, e, i)
    ensures var a := Attempt(bp, draws, s, e);
            && OpensAt(bp.calendar, s.cursor, e, a.end)
            && i < |a.lane.slots| && CompleteAt(a.lane.slots[i], Clock(bp.calendar, a.lane.slots[i], a.end))
  {
    AttemptReady(bp, draws, s, e);
    var working := Evaluate(bp, draws, s, e, |bp.rules|).working;
    SegmentsChained(bp, working.overlays, s.cursor, e);
    WalkOpens(bp, working.overlays, Lane(SlotsOf(s, working), s.book, []), SegmentsOf(bp, working.overlays, s.cursor, e), s.cursor, e, i);
  }

  /** Once the rules due by e are applied, item i's visit is complete at the cursor. */
  ghost predicate CompleteFor(bp: Blueprint, draws: Draws, s: State, e: int, i: nat) {
    var working := Evaluate(bp, draws, s, e, |bp.rules|).working;
    i < |working.items| && CompleteAt(SlotAt(s, working, i), Clock(bp.calendar, SlotAt(s, working, i), s.cursor))
  }

  /** Where the team does not work, an attempt ends where it was asked to. */
  lemma ClosedAttempt(bp: Blueprint, draws: Draws, s: State, x: int)
    requires TickReady(bp, s) && NotPast(bp, s, x) && s.cursor <= x && forall u :: s.cursor <= u < x ==> !Working(bp.calendar, u)
    ensures Attempt(bp, draws, s, x).end == x
  {
    AttemptReady(bp, draws, s, x);
    var overlays := Evaluate(bp, draws, s, x, |bp.rules|).working.overlays;
    var segs := SegmentsOf(bp, overlays, s.cursor, x);
    SegmentsChained(bp, overlays, s.cursor, x);
    if segs != [] {
      CountIdle(bp.calendar, segs[0].start, segs[0].end);
    }
  }

  /** A tick that starts with a complete visit ends when the team first works, or where it was asked to
      end if the team does not work by then. */
  lemma StableOpens(bp: Blueprint, draws: Draws, s: State, e: int, i: nat)
    requires TickReady(bp, s) && NotPast(bp, s, e) && s.cursor <= e && CompleteFor(bp, draws, s, e, i)
    ensures OpensAt(bp.calendar, s.cursor, e, Stable(bp, draws, s, e).end)
  {
    AttemptOpens(bp, draws, s, e, i);
    var a := Attempt(bp, draws, s, e);
    if a.end < e {
      NotPastSooner(bp, s, e, a.end);
      ClosedAttempt(bp, draws, s, a.end);
      StableNext(bp, draws, s, e, a.end);
      AlreadySettled(bp, draws, s, a.end, Attempt(bp, draws, s, a.end));
    }
  }

  /** The committed end of such a tick: the cursor itself exactly if the team works there. So a visit
      complete while the team is closed is closed at whatever instant the scheduler happened to ask for, or
      when the team opens if that comes first. */
  lemma CompleteWaits(bp: Blueprint, draws: Draws, s: State, requested: int, i: nat)
    requires StepReady(bp, s) && s.cursor <= requested && CompleteFor(bp, draws, s, EffectiveEnd(bp, s, requested), i)
    ensures var e, end := EffectiveEnd(bp, s, requested), AdvanceFrom(bp, draws, s, requested).end;
            && OpensAt(bp.calendar, s.cursor, e, end)
            && (s.cursor < e ==> (end == s.cursor <==> Working(bp.calendar, s.cursor)))
  {
    EffectiveEndBounds(bp, s, requested);
    StableOpens(bp, draws, s, EffectiveEnd(bp, s, requested), i);
  }

  /** If the rules still leave it complete when the tick ends there, it is closed there. */
  lemma CompleteCloses(bp: Blueprint, draws: Draws, s: State, a: Attempted, i: nat)
    requires Ticks(bp, draws, s, a) && CompleteFor(bp, draws, s, a.end, i)
    ensures i < |a.lane.slots| && CompleteAt(a.lane.slots[i], Clock(bp.calendar, a.lane.slots[i], a.end))
  {
    AttemptOpens(bp, draws, s, a.end, i);
  }
}
