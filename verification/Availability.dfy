/** What a member's availability in a segment is, read off the configured windows and the overlays. */
module Availability {
  import opened BusinessCalendar
  import opened Rounding
  import opened Allocation
  import opened AllocationLaws
  import opened Team
  import opened Segments
  import opened FirstCompletion
  import opened Routes
  import opened Tick
  import opened TickRun

  /** A configured window or an overlay of member j that is in force at t. */
  ghost predicate InForce(bp: Blueprint, overlays: seq<Overlay>, j: nat, t: int, w: Window)
    requires j < |bp.members|
  {
    && w.starts <= t < w.ends
    && ((exists k :: 0 <= k < |bp.members[j].windows| && bp.members[j].windows[k] == w)
        || (exists o :: 0 <= o < |overlays| && overlays[o].member == j && overlays[o].window == w))
  }

  // ---------- Windows and overlays together ----------

  lemma {:induction false} OverlayHeld(overlays: seq<Overlay>, j: nat, w: Window)
    ensures w in OverlayWindows(overlays, j) <==> exists o :: 0 <= o < |overlays| && overlays[o].member == j && overlays[o].window == w
  {
    if overlays != [] {
      var n := |overlays| - 1;
      OverlayHeld(overlays[..n], j, w);
      if exists o :: 0 <= o < |overlays| && overlays[o].member == j && overlays[o].window == w {
        var o :| 0 <= o < |overlays| && overlays[o].member == j && overlays[o].window == w;
        assert o < n ==> overlays[..n][o] == overlays[o];
      }
    }
  }

  lemma WindowHeld(bp: Blueprint, overlays: seq<Overlay>, j: nat, t: int, w: Window)
    requires j < |bp.members|
    ensures InForce(bp, overlays, j, t, w) <==> w in MemberWindows(bp, overlays, j) && w.starts <= t < w.ends
  {
    OverlayHeld(overlays, j, w);
  }

  // ---------- Least of those in force ----------

  lemma {:induction false} FractionIsLeast(ws: seq<Window>, t: int)
    ensures forall w :: w in ws && w.starts <= t < w.ends ==> Fraction(ws, t) <= w.fraction
    ensures Fraction(ws, t) == 1.0 || exists w :: w in ws && w.starts <= t < w.ends && w.fraction == Fraction(ws, t)
  {
    if ws != [] {
      FractionIsLeast(ws[..|ws| - 1], t);
    }
  }

  lemma {:induction false} CeilingIsLeast(capacity: nat, ws: seq<Window>, t: int)
    ensures forall w :: w in ws && w.starts <= t < w.ends && w.ceiling.Some? ==> Ceiling(capacity, ws, t) <= w.ceiling.value
    ensures Ceiling(capacity, ws, t) == capacity
            || exists w :: w in ws && w.starts <= t < w.ends && w.ceiling == Some(Ceiling(capacity, ws, t))
  {
    if ws != [] {
      CeilingIsLeast(capacity, ws[..|ws| - 1], t);
    }
  }

  /** A member's fraction in a segment is the least of the windows and overlays in force at its start, and 1
      when none is. */
  lemma SeatFraction(bp: Blueprint, overlays: seq<Overlay>, g: Segment, j: nat)
    requires j < |bp.members| && ValidWindows(bp, overlays) && g.start <= g.end
    ensures var f := SeatFor(bp, overlays, g, j).fraction;
            && (forall w :: InForce(bp, overlays, j, g.start, w) ==> f <= w.fraction)
            && (f == 1.0 || exists w :: InForce(bp, overlays, j, g.start, w) && w.fraction == f)
  {
    var ws := MemberWindows(bp, overlays, j);
    forall w ensures InForce(bp, overlays, j, g.start, w) <==> w in ws && w.starts <= g.start < w.ends {
      WindowHeld(bp, overlays, j, g.start, w);
    }
    FractionIsLeast(ws, g.start);
  }

  /** c is the least of the configured capacity and the ceilings in force at t. */
  ghost predicate LeastCeiling(bp: Blueprint, overlays: seq<Overlay>, j: nat, t: int, c: nat)
    requires j < |bp.members|
  {
    && c <= bp.members[j].capacity
    && (forall w :: InForce(bp, overlays, j, t, w) && w.ceiling.Some? ==> c <= w.ceiling.value)
    && (c == bp.members[j].capacity || exists w :: InForce(bp, overlays, j, t, w) && w.ceiling == Some(c))
  }

  /** The day's ceiling is the fraction's share of the least ceiling in force, and the labor available the
      fraction's share of the segment; a share is rounded to the nearest (ShareNearest). */
  lemma SeatCeiling(bp: Blueprint, overlays: seq<Overlay>, g: Segment, j: nat) returns (c: nat)
    requires j < |bp.members| && ValidWindows(bp, overlays) && g.start <= g.end
    ensures LeastCeiling(bp, overlays, j, g.start, c)
    ensures var seat := SeatFor(bp, overlays, g, j);
            && seat.ceiling == Share(c, seat.fraction) && seat.available == Share(g.end - g.start, seat.fraction)
            && seat.wip == bp.members[j].wip && seat.skill == bp.members[j].skill
  {
    var ws := MemberWindows(bp, overlays, j);
    c := Ceiling(bp.members[j].capacity, ws, g.start);
    forall w ensures InForce(bp, overlays, j, g.start, w) <==> w in ws && w.starts <= g.start < w.ends {
      WindowHeld(bp, overlays, j, g.start, w);
    }
    CeilingIsLeast(bp.members[j].capacity, ws, g.start);
  }

  /** What is in force for a member never changes inside a segment. */
  lemma SteadyInForce(bp: Blueprint, overlays: seq<Overlay>, s: int, e: int, k: nat, j: nat, t: int, w: Window)
    requires Valid(bp.calendar) && s <= e && k < |SegmentsOf(bp, overlays, s, e)| && j < |bp.members|
    requires var g := SegmentsOf(bp, overlays, s, e)[k]; g.start <= t < g.end
    ensures InForce(bp, overlays, j, t, w) <==> InForce(bp, overlays, j, SegmentsOf(bp, overlays, s, e)[k].start, w)
  {
    var g, all := SegmentsOf(bp, overlays, s, e)[k], TeamWindows(bp, overlays, |bp.members|);
    WindowHeld(bp, overlays, j, t, w);
    WindowHeld(bp, overlays, j, g.start, w);
    SegmentsGood(bp, overlays, s, e);
    if w in MemberWindows(bp, overlays, j) {
      var i :| 0 <= i < |MemberWindows(bp, overlays, j)| && MemberWindows(bp, overlays, j)[i] == w;
      TeamWindowsHold(bp, overlays, |bp.members|, j, i);
      var l :| 0 <= l < |all| && all[l] == w;
      assert IsChange(all, all[l].starts) && IsChange(all, all[l].ends);
    }
  }

  // ---------- Absence ----------

  /** A member is absent over [from, to): an overlay of zero fraction covers it. */
  ghost predicate AbsentOver(overlays: seq<Overlay>, j: nat, from: int, to: int) {
    exists o :: 0 <= o < |overlays| && overlays[o].member == j && overlays[o].window.fraction == 0.0
      && overlays[o].window.starts <= from && to <= overlays[o].window.ends
  }

  lemma AbsentSeat(bp: Blueprint, overlays: seq<Overlay>, g: Segment, j: nat, from: int, to: int)
    requires j < |bp.members| && ValidWindows(bp, overlays) && AbsentOver(overlays, j, from, to) && from <= g.start < g.end <= to
    ensures SeatFor(bp, overlays, g, j).available == 0 && SeatFor(bp, overlays, g, j).ceiling == 0
  {
    var o :| 0 <= o < |overlays| && overlays[o].member == j && overlays[o].window.fraction == 0.0
             && overlays[o].window.starts <= from && to <= overlays[o].window.ends;
    assert InForce(bp, overlays, j, g.start, overlays[o].window);
    SeatFraction(bp, overlays, g, j);
  }

  lemma AbsentStep(bp: Blueprint, overlays: seq<Overlay>, lane: Lane, g: Segment, j: nat, from: int, to: int, day: int)
    requires ValidWindows(bp, overlays) && Staffed(bp, lane.slots) && j < |bp.members| && AbsentOver(overlays, j, from, to)
    requires from <= g.start <= g.end <= to
    ensures Spent(StepSegment(bp, overlays, lane, g).book, j, day) == Spent(lane.book, j, day)
  {
    var d, spent := DeskFor(bp, overlays, g), DaySpent(bp, lane.book, g.day);
    if g.start < g.end {
      AbsentSeat(bp, overlays, g, j, from, to);
    }
    AssignExplains(d, spent, lane.slots);
    GreedyTotal(d, spent, Assign(d, spent, lane.slots), j);
    PostSpent(lane.book, g.day, Advance(d, spent, lane.slots).spent, j, day);
  }

  lemma {:induction false} AbsentWalk(bp: Blueprint, overlays: seq<Overlay>, lane: Lane, segs: seq<Segment>, e: int, j: nat, from: int, to: int, day: int)
    requires ValidWindows(bp, overlays) && Staffed(bp, lane.slots) && Forward(segs) && j < |bp.members|
    requires AbsentOver(overlays, j, from, to) && forall k :: 0 <= k < |segs| ==> from <= segs[k].start && segs[k].end <= to
    ensures Spent(Walk(bp, overlays, lane, segs, e).0.book, j, day) == Spent(lane.book, j, day)
    decreases |segs|
  {
    if segs != [] {
      var boundary := SegmentBoundary(bp, overlays, lane, segs[0]);
      if boundary.Some? {
        AbsentStep(bp, overlays, lane, Cut(segs[0], boundary.value), j, from, to, day);
      } else {
        AbsentStep(bp, overlays, lane, segs[0], j, from, to, day);
        AbsentWalk(bp, overlays, OneSegment(bp, overlays, lane, segs[0]).0, segs[1..], e, j, from, to, day);
      }
    }
  }

  /** A member absent over a tick, by an overlay that was there or one the rules have just added, consumes
      nothing in it. */
  lemma AbsentConsumesNothing(bp: Blueprint, draws: Draws, s: State, a: Attempted, j: nat, day: int)
    requires Ticks(bp, draws, s, a) && j < |bp.members| && AbsentOver(a.risks.working.overlays, j, s.cursor, a.end)
    ensures Spent(a.lane.book, j, day) == Spent(s.book, j, day)
  {
    AttemptReady(bp, draws, s, a.end);
    var overlays := a.risks.working.overlays;
    SegmentsGood(bp, overlays, s.cursor, a.end);
    AbsentWalk(bp, overlays, Lane(SlotsOf(s, a.risks.working), s.book, []), SegmentsOf(bp, overlays, s.cursor, a.end), a.end,
               j, s.cursor, a.end, day);
  }
}
