/** Where a tick stops: the walk over probed and shortened segments against the simple meaning of
    "the first instant at which some visit is complete". */
module CommittedEnd {
  import opened BusinessCalendar
  import opened Allocation
  import opened AllocationLaws
  import opened Granularity
  import opened Team
  import opened Segments
  import opened Completion
  import opened FirstCompletion

  // ---------- The reference ----------

  /** The state at instant t when every segment is simply advanced as far as t, with no probing. */
  ghost function At(bp: Blueprint, overlays: seq<Overlay>, lane: Lane, segs: seq<Segment>, t: int): (r: Lane)
    requires ValidWindows(bp, overlays) && Staffed(bp, lane.slots) && Forward(segs)
    ensures Staffed(bp, r.slots) && |r.slots| == |lane.slots|
    decreases |segs|
  {
    if segs == [] || t <= segs[0].start then lane
    else if t < segs[0].end then StepSegment(bp, overlays, lane, Cut(segs[0], t - segs[0].start))
    else At(bp, overlays, StepSegment(bp, overlays, lane, segs[0]), segs[1..], t)
  }

  /** Some visit has its touch and its dwell done at t. */
  ghost predicate CompleteNow(c: Calendar, slots: seq<Slot>, t: int) {
    exists i :: 0 <= i < |slots| && CompleteAt(slots[i], Clock(c, slots[i], t))
  }

  /** end is the least instant of [from, e] at which something is complete, or e if there is none. */
  ghost predicate IsFirst(bp: Blueprint, overlays: seq<Overlay>, lane: Lane, segs: seq<Segment>, from: int, e: int, end: int)
    requires ValidWindows(bp, overlays) && Staffed(bp, lane.slots) && Forward(segs)
  {
    && from <= end <= e
    && (forall t :: from <= t < end ==> !CompleteNow(bp.calendar, At(bp, overlays, lane, segs, t).slots, t))
    && (end < e ==> CompleteNow(bp.calendar, At(bp, overlays, lane, segs, end).slots, end))
  }

  // ---------- Segments that hold all business time ----------

  /** In order from `from` to e, with no business time between them. */
  ghost predicate Chained(c: Calendar, segs: seq<Segment>, from: int, e: int)
    decreases |segs|
  {
    if segs == [] then from <= e && Count(c, from, e) == 0
    else
      && from <= segs[0].start < segs[0].end <= e
      && Count(c, from, segs[0].start) == 0
      && Count(c, segs[0].start, segs[0].end) == segs[0].end - segs[0].start
      && Chained(c, segs[1..], segs[0].end, e)
  }

  lemma {:induction false} NoTimeBefore(segs: seq<Segment>, t: int)
    requires forall k :: 0 <= k < |segs| ==> t <= segs[k].start
    ensures TimeBefore(segs, t) == 0
  {
    if segs != [] {
      assert forall k :: 0 <= k < |segs[1..]| ==> segs[1..][k] == segs[k + 1];
      NoTimeBefore(segs[1..], t);
    }
  }

  ghost predicate Counts(c: Calendar, segs: seq<Segment>, from: int, e: int) {
    forall t :: from <= t <= e ==> TimeBefore(segs, t) == Count(c, from, t)
  }

  lemma {:induction false} ChainedFromPartition(c: Calendar, segs: seq<Segment>, from: int, e: int)
    requires Ordered(segs, from, e) && from <= e && Counts(c, segs, from, e)
    ensures Chained(c, segs, from, e)
    decreases |segs|
  {
    if segs == [] {
      assert TimeBefore(segs, e) == Count(c, from, e);
    } else {
      var g, rest := segs[0], segs[1..];
      assert forall k :: 0 <= k < |rest| ==> rest[k] == segs[k + 1];
      assert TimeBefore(segs, g.start) == Count(c, from, g.start) && TimeBefore(segs, g.end) == Count(c, from, g.end);
      NoTimeBefore(rest, g.start);
      NoTimeBefore(rest, g.end);
      CountAdds(c, from, g.start, g.end);
      forall t | g.end <= t <= e ensures TimeBefore(rest, t) == Count(c, g.end, t) {
        assert TimeBefore(segs, t) == Count(c, from, t);
        CountAdds(c, from, g.end, t);
      }
      ChainedFromPartition(c, rest, g.end, e);
    }
  }

  /** The tick's own segments hold all its business time. */
  lemma SegmentsChained(bp: Blueprint, overlays: seq<Overlay>, s: int, e: int)
    requires Valid(bp.calendar) && s <= e
    ensures Chained(bp.calendar, SegmentsOf(bp, overlays, s, e), s, e) && Forward(SegmentsOf(bp, overlays, s, e))
  {
    SegmentsGood(bp, overlays, s, e);
    forall t | s <= t <= e ensures TimeBefore(SegmentsOf(bp, overlays, s, e), t) == Count(bp.calendar, s, t) {
      SegmentsPartition(bp, overlays, s, e, t);
    }
    ChainedFromPartition(bp.calendar, SegmentsOf(bp, overlays, s, e), s, e);
  }

  /** Inside a segment business time is calendar time. */
  lemma ClockInside(c: Calendar, g: Segment, entered: int, t: int)
    requires entered <= g.start <= t <= g.end && Count(c, g.start, g.end) == g.end - g.start
    ensures Count(c, entered, t) == Count(c, entered, g.start) + (t - g.start)
  {
    CountAtMostCalendar(c, g.start, t);
    CountAtMostCalendar(c, t, g.end);
    CountAdds(c, g.start, t, g.end);
    CountAdds(c, entered, g.start, t);
  }

  // ---------- Where exactness holds ----------

  /** Every availability window makes its member present or absent. */
  ghost predicate PresentOrAbsent(bp: Blueprint, overlays: seq<Overlay>) {
    && (forall j, k :: 0 <= j < |bp.members| && 0 <= k < |bp.members[j].windows| ==> Binary(bp.members[j].windows[k]))
    && (forall k :: 0 <= k < |overlays| ==> Binary(overlays[k].window))
  }

  predicate Binary(w: Window) { w.fraction == 0.0 || w.fraction == 1.0 }

  lemma {:induction false} BinaryFraction(ws: seq<Window>, t: int)
    requires forall k :: 0 <= k < |ws| ==> Binary(ws[k])
    ensures Fraction(ws, t) == 0.0 || Fraction(ws, t) == 1.0
  {
    if ws != [] {
      BinaryFraction(ws[..|ws| - 1], t);
    }
  }

  lemma DeskBinary(bp: Blueprint, overlays: seq<Overlay>, g: Segment)
    requires ValidWindows(bp, overlays) && PresentOrAbsent(bp, overlays) && g.start < g.end
    ensures Whole(DeskFor(bp, overlays, g)) && FullOrNone(DeskFor(bp, overlays, g))
  {
    forall j | 0 <= j < |bp.members|
      ensures var f := SeatFor(bp, overlays, g, j).fraction; f == 0.0 || f == 1.0
    {
      BinaryFraction(MemberWindows(bp, overlays, j), g.start);
    }
  }

  lemma CutIsShorter(bp: Blueprint, overlays: seq<Overlay>, g: Segment, n: nat)
    requires ValidWindows(bp, overlays) && PresentOrAbsent(bp, overlays) && 0 < n <= g.end - g.start
    ensures Shorter(DeskFor(bp, overlays, Cut(g, n)), DeskFor(bp, overlays, g))
  {
    DeskBinary(bp, overlays, g);
    DeskBinary(bp, overlays, Cut(g, n));
    forall j | 0 <= j < |bp.members|
      ensures var p, d := SeatFor(bp, overlays, Cut(g, n), j), SeatFor(bp, overlays, g, j); p == d.(available := p.available)
    {
    }
  }

  /** At t, every visit meets the condition under which the dwell prediction is exact. */
  ghost predicate AllClean(bp: Blueprint, slots: seq<Slot>, t: int) {
    forall i :: 0 <= i < |slots| ==> Clean(PausingStatuses(bp), slots[i], Clock(bp.calendar, slots[i], t))
  }

  ghost predicate Ready(bp: Blueprint, overlays: seq<Overlay>, lane: Lane, t: int) {
    && ValidWindows(bp, overlays) && PresentOrAbsent(bp, overlays)
    && Staffed(bp, lane.slots) && EnteredBy(lane.slots, t) && AllClean(bp, lane.slots, t)
  }

  lemma CleanMoves(pausing: set<Key>, s: Slot, t: Slot, clock: nat, later: nat)
    requires Clean(pausing, s, clock) && Moved(s, t) && clock <= later
    requires s.Busy? && s.visit.status in pausing ==> t.visit.remaining == s.visit.remaining
    requires s.Busy? && s.visit.status !in pausing ==> t.visit.pause == s.visit.pause
    ensures Clean(pausing, t, later)
  {
  }

  lemma ReadyLater(bp: Blueprint, overlays: seq<Overlay>, lane: Lane, g: Segment, t: int)
    requires Ready(bp, overlays, lane, t) && t <= g.start <= g.end
    ensures Ready(bp, overlays, StepSegment(bp, overlays, lane, g), g.end)
  {
    var next := StepSegment(bp, overlays, lane, g);
    StepMoves(bp, overlays, lane, g);
    forall i | 0 <= i < |next.slots|
      ensures Clean(PausingStatuses(bp), next.slots[i], Clock(bp.calendar, next.slots[i], g.end))
      ensures !next.slots[i].Idle? ==> next.slots[i].visit.entered <= g.end
    {
      assert Moved(lane.slots[i], next.slots[i]);
      SegmentEffect(DeskFor(bp, overlays, g), DaySpent(bp, lane.book, g.day), lane.slots, i);
      ClockGrows(bp.calendar, lane.slots[i], t, g.end);
      CleanMoves(PausingStatuses(bp), lane.slots[i], next.slots[i], Clock(bp.calendar, lane.slots[i], t),
                 Clock(bp.calendar, next.slots[i], g.end));
    }
  }

  lemma ClockGrows(c: Calendar, s: Slot, t: int, u: int)
    requires t <= u && (!s.Idle? ==> s.visit.entered <= t)
    ensures Clock(c, s, t) <= Clock(c, s, u)
  {
    if !s.Idle? {
      CountAdds(c, s.visit.entered, t, u);
    }
  }

  /** Idle time passes without completing anything new. */
  lemma SameAcrossIdle(c: Calendar, slots: seq<Slot>, t: int, u: int)
    requires t <= u && EnteredBy(slots, t) && Count(c, t, u) == 0
    ensures forall i :: 0 <= i < |slots| ==> Clock(c, slots[i], u) == Clock(c, slots[i], t)
    ensures CompleteNow(c, slots, u) <==> CompleteNow(c, slots, t)
  {
    forall i | 0 <= i < |slots| ensures Clock(c, slots[i], u) == Clock(c, slots[i], t) {
      if !slots[i].Idle? {
        CountAdds(c, slots[i].visit.entered, t, u);
      }
    }
  }

  lemma CleanAcrossIdle(bp: Blueprint, overlays: seq<Overlay>, lane: Lane, t: int, u: int)
    requires Ready(bp, overlays, lane, t) && t <= u && Count(bp.calendar, t, u) == 0
    ensures Ready(bp, overlays, lane, u)
  {
    SameAcrossIdle(bp.calendar, lane.slots, t, u);
  }

  // ---------- One segment ----------

  /** n microseconds into the segment something is complete exactly when its boundary is at most n. */
  lemma SegmentExact(bp: Blueprint, overlays: seq<Overlay>, lane: Lane, g: Segment, n: nat, after: Lane, stop: Option<nat>)
    requires Ready(bp, overlays, lane, g.start) && 0 < n <= g.end - g.start
    requires Count(bp.calendar, g.start, g.end) == g.end - g.start
    requires after == StepSegment(bp, overlays, lane, Cut(g, n)) && stop == SegmentBoundary(bp, overlays, lane, g)
    ensures CompleteNow(bp.calendar, after.slots, g.start + n) <==> stop.Some? && stop.value <= n
  {
    CutExact(bp, overlays, lane, g, n, after.slots, Clocks(bp.calendar, lane.slots, g.start));
    StepMoves(bp, overlays, lane, Cut(g, n));
    ClocksInside(bp, lane.slots, after.slots, g, n);
  }

  lemma CutExact(bp: Blueprint, overlays: seq<Overlay>, lane: Lane, g: Segment, n: nat, after: seq<Slot>, clocks: seq<nat>)
    requires Ready(bp, overlays, lane, g.start) && 0 < n <= g.end - g.start
    requires after == StepSegment(bp, overlays, lane, Cut(g, n)).slots && clocks == Clocks(bp.calendar, lane.slots, g.start)
    ensures var boundary := SegmentBoundary(bp, overlays, lane, g);
            CompleteBy(after, clocks, n) <==> boundary.Some? && boundary.value <= n
  {
    CutIsShorter(bp, overlays, g, n);
    BoundaryExact(DeskFor(bp, overlays, Cut(g, n)), DeskFor(bp, overlays, g), DaySpent(bp, lane.book, g.day), lane.slots, clocks);
  }

  /** Inside a segment, being complete at an instant is being complete that long after its start. */
  lemma ClocksInside(bp: Blueprint, before: seq<Slot>, after: seq<Slot>, g: Segment, n: nat)
    requires AllMoved(before, after) && EnteredBy(before, g.start) && n <= g.end - g.start
    requires Count(bp.calendar, g.start, g.end) == g.end - g.start
    ensures CompleteNow(bp.calendar, after, g.start + n) <==> CompleteBy(after, Clocks(bp.calendar, before, g.start), n)
  {
    forall i | 0 <= i < |after| && !after[i].Idle?
      ensures Clock(bp.calendar, after[i], g.start + n) == Clocks(bp.calendar, before, g.start)[i] + n
    {
      assert Moved(before[i], after[i]);
      ClockInside(bp.calendar, g, before[i].visit.entered, g.start + n);
    }
    SameComplete(bp.calendar, after, Clocks(bp.calendar, before, g.start), n, g.start + n);
  }

  lemma SameComplete(c: Calendar, after: seq<Slot>, clocks: seq<nat>, n: nat, t: int)
    requires |clocks| == |after|
    requires forall i :: 0 <= i < |after| && !after[i].Idle? ==> Clock(c, after[i], t) == clocks[i] + n
    ensures CompleteNow(c, after, t) <==> CompleteBy(after, clocks, n)
  {
    if CompleteNow(c, after, t) {
      var i :| 0 <= i < |after| && CompleteAt(after[i], Clock(c, after[i], t));
      assert CompleteAt(after[i], clocks[i] + n);
    }
    if CompleteBy(after, clocks, n) {
      var i :| 0 <= i < |after| && CompleteAt(after[i], clocks[i] + n);
      assert CompleteAt(after[i], Clock(c, after[i], t));
    }
  }

  /** A boundary at the segment start means something was complete already. */
  lemma NoEarlyBoundary(bp: Blueprint, overlays: seq<Overlay>, lane: Lane, g: Segment)
    requires Ready(bp, overlays, lane, g.start) && g.start < g.end
    requires SegmentBoundary(bp, overlays, lane, g) == Some(0)
    ensures CompleteNow(bp.calendar, lane.slots, g.start)
  {
    ProbeScannable(bp, overlays, lane, g);
    DeskBinary(bp, overlays, g);
    var d, after, clocks := DeskFor(bp, overlays, g), StepSegment(bp, overlays, lane, g).slots, Clocks(bp.calendar, lane.slots, g.start);
    ScanIsLeast(d, lane.slots, after, clocks, |lane.slots|);
    var i :| 0 <= i < |lane.slots| && OffsetAt(d, lane.slots, after, clocks, i) == Some(0);
    ZeroOffset(d, lane.slots[i], after[i], clocks[i], ScanTo(d, lane.slots, after, clocks, i).used);
    assert CompleteAt(lane.slots[i], Clock(bp.calendar, lane.slots[i], g.start));
  }

  lemma ZeroOffset(d: Desk, s: Slot, t: Slot, clock: nat, used: seq<nat>)
    requires |used| == |d.seats| && Scannable(d, s, t) && FullOrNone(d) && Offset(d, s, t, clock, used) == Some(0)
    ensures CompleteAt(s, clock)
  {
  }

  // ---------- The walk, for any machine that meets three laws ----------

  /** Advancing a state over a segment, where the segment stops, what counts as complete, and the
      condition under which the three laws below hold. */
  datatype Machine = Machine(
    next: (Lane, Segment) -> Lane, stop: (Lane, Segment) -> Option<nat>,
    complete: (Lane, int) -> bool, ready: (Lane, int) -> bool)

  ghost function WalkOf(m: Machine, lane: Lane, segs: seq<Segment>, e: int): (Lane, int)
    decreases |segs|
  {
    if segs == [] then (lane, e)
    else
      var stop := m.stop(lane, segs[0]);
      if stop.Some? then (m.next(lane, Cut(segs[0], stop.value)), segs[0].start + stop.value)
      else WalkOf(m, m.next(lane, segs[0]), segs[1..], e)
  }

  ghost function AtOf(m: Machine, lane: Lane, segs: seq<Segment>, t: int): Lane
    decreases |segs|
  {
    if segs == [] || t <= segs[0].start then lane
    else if t < segs[0].end then m.next(lane, Cut(segs[0], t - segs[0].start))
    else AtOf(m, m.next(lane, segs[0]), segs[1..], t)
  }

  ghost predicate DoneAt(m: Machine, lane: Lane, segs: seq<Segment>, t: int) {
    m.complete(AtOf(m, lane, segs, t), t)
  }

  /** Idle time completes nothing. */
  ghost predicate IdleLaw(m: Machine, c: Calendar, lane: Lane, t: int, u: int) {
    m.ready(lane, t) && t <= u && Count(c, t, u) == 0 ==> m.ready(lane, u) && (m.complete(lane, u) <==> m.complete(lane, t))
  }

  ghost predicate FullSegment(c: Calendar, g: Segment) {
    g.start < g.end && Count(c, g.start, g.end) == g.end - g.start
  }

  /** A segment leads to a ready state, and stops at once only if something was already complete. */
  ghost predicate SegmentLaw(m: Machine, c: Calendar, lane: Lane, g: Segment) {
    m.ready(lane, g.start) && FullSegment(c, g) ==>
      && m.ready(m.next(lane, g), g.end)
      && (m.stop(lane, g) == Some(0) ==> m.complete(lane, g.start))
      && (m.stop(lane, g).Some? ==> m.stop(lane, g).value <= g.end - g.start)
  }

  /** Cut anywhere, a segment shows a completion exactly from its stop on. */
  ghost predicate CutLaw(m: Machine, c: Calendar, lane: Lane, g: Segment, n: nat) {
    m.ready(lane, g.start) && FullSegment(c, g) && 0 < n <= g.end - g.start ==>
      (m.complete(m.next(lane, Cut(g, n)), g.start + n) <==> m.stop(lane, g).Some? && m.stop(lane, g).value <= n)
  }

  ghost predicate Lawful(m: Machine, c: Calendar) {
    && (forall lane, t, u :: IdleLaw(m, c, lane, t, u))
    && (forall lane, g :: SegmentLaw(m, c, lane, g))
    && (forall lane, g, n :: CutLaw(m, c, lane, g, n))
  }

  ghost predicate FirstOf(m: Machine, lane: Lane, segs: seq<Segment>, from: int, e: int, end: int) {
    && from <= end <= e
    && (forall t :: from <= t < end ==> !DoneAt(m, lane, segs, t))
    && (end < e ==> DoneAt(m, lane, segs, end))
  }

  /** Before its first segment nothing happens. */
  lemma QuietBefore(m: Machine, c: Calendar, lane: Lane, segs: seq<Segment>, from: int, t: int, start: int)
    requires Lawful(m, c) && m.ready(lane, from) && !m.complete(lane, from)
    requires from <= t <= start && Count(c, from, start) == 0 && (segs != [] ==> start == segs[0].start)
    ensures !DoneAt(m, lane, segs, t)
  {
    CountAdds(c, from, t, start);
    assert IdleLaw(m, c, lane, from, t);
  }

  /** Up to t inside the first segment nothing is complete, when it stops later or not at all. */
  lemma QuietInside(m: Machine, c: Calendar, lane: Lane, segs: seq<Segment>, from: int, e: int, t: int)
    requires Lawful(m, c) && m.ready(lane, from) && !m.complete(lane, from)
    requires segs != [] && Chained(c, segs, from, e) && from <= t <= segs[0].end
    requires m.stop(lane, segs[0]).Some? ==> t < segs[0].start + m.stop(lane, segs[0]).value
    ensures !DoneAt(m, lane, segs, t)
  {
    var g := segs[0];
    if t <= g.start {
      QuietBefore(m, c, lane, segs, from, t, g.start);
    } else {
      assert IdleLaw(m, c, lane, from, g.start);
      AtInside(m, c, lane, segs, e, t);
      assert CutLaw(m, c, lane, g, t - g.start);
    }
  }

  /** Inside its first segment the reference is that segment cut at t. */
  lemma AtInside(m: Machine, c: Calendar, lane: Lane, segs: seq<Segment>, e: int, t: int)
    requires segs != [] && (exists from :: Chained(c, segs, from, e)) && segs[0].start < t <= segs[0].end
    ensures AtOf(m, lane, segs, t) == m.next(lane, Cut(segs[0], t - segs[0].start))
  {
    if t == segs[0].end {
      assert Cut(segs[0], t - segs[0].start) == segs[0];
    }
  }

  /** The walk stops at the first completion, in the reference state there. */
  lemma {:induction false} WalkIsFirst(m: Machine, c: Calendar, lane: Lane, segs: seq<Segment>, from: int, e: int)
    requires Lawful(m, c) && m.ready(lane, from) && !m.complete(lane, from) && Chained(c, segs, from, e)
    ensures var r := WalkOf(m, lane, segs, e);
            FirstOf(m, lane, segs, from, e, r.1) && r.0 == AtOf(m, lane, segs, r.1)
    decreases |segs|
  {
    if segs == [] {
      forall t | from <= t < e ensures !DoneAt(m, lane, segs, t) {
        QuietBefore(m, c, lane, segs, from, t, e);
      }
    } else if m.stop(lane, segs[0]).Some? {
      StopsInside(m, c, lane, segs, from, e);
    } else {
      PassesFirst(m, c, lane, segs, from, e);
    }
  }

  lemma StopsInside(m: Machine, c: Calendar, lane: Lane, segs: seq<Segment>, from: int, e: int)
    requires Lawful(m, c) && m.ready(lane, from) && !m.complete(lane, from) && Chained(c, segs, from, e)
    requires segs != [] && m.stop(lane, segs[0]).Some?
    ensures var end := segs[0].start + m.stop(lane, segs[0]).value;
            FirstOf(m, lane, segs, from, e, end)
            && m.next(lane, Cut(segs[0], m.stop(lane, segs[0]).value)) == AtOf(m, lane, segs, end)
  {
    var g := segs[0];
    var n := m.stop(lane, g).value;
    assert IdleLaw(m, c, lane, from, g.start);
    assert SegmentLaw(m, c, lane, g);
    forall t | from <= t < g.start + n ensures !DoneAt(m, lane, segs, t) {
      QuietInside(m, c, lane, segs, from, e, t);
    }
    AtInside(m, c, lane, segs, e, g.start + n);
    assert CutLaw(m, c, lane, g, n);
  }

  lemma {:induction false} PassesFirst(m: Machine, c: Calendar, lane: Lane, segs: seq<Segment>, from: int, e: int)
    requires Lawful(m, c) && m.ready(lane, from) && !m.complete(lane, from) && Chained(c, segs, from, e)
    requires segs != [] && m.stop(lane, segs[0]).None?
    ensures var r := WalkOf(m, lane, segs, e);
            FirstOf(m, lane, segs, from, e, r.1) && r.0 == AtOf(m, lane, segs, r.1)
    decreases |segs|, 0
  {
    var g, rest := segs[0], segs[1..];
    var next := m.next(lane, g);
    assert IdleLaw(m, c, lane, from, g.start);
    assert SegmentLaw(m, c, lane, g);
    QuietInside(m, c, lane, segs, from, e, g.end);
    AtInside(m, c, lane, segs, e, g.end);
    assert Cut(g, g.end - g.start) == g;
    WalkIsFirst(m, c, next, rest, g.end, e);
    var end := WalkOf(m, next, rest, e).1;
    forall t | from <= t < end ensures !DoneAt(m, lane, segs, t) {
      if t < g.end {
        QuietInside(m, c, lane, segs, from, e, t);
      } else {
        assert !DoneAt(m, next, rest, t);
      }
    }
  }

  // ---------- What every step keeps, the walk keeps ----------

  type Relation = (Lane, int, Lane, int) -> bool

  ghost predicate IdleKeeps(c: Calendar, R: Relation, a: Lane, t: int, u: int) {
    t <= u && Count(c, t, u) == 0 ==> R(a, t, a, u)
  }

  ghost predicate Chains(R: Relation, a: Lane, t: int, b: Lane, u: int, d: Lane, v: int) {
    R(a, t, b, u) && R(b, u, d, v) ==> R(a, t, d, v)
  }

  ghost predicate CutKeeps(m: Machine, c: Calendar, R: Relation, a: Lane, g: Segment, n: nat) {
    FullSegment(c, g) && n <= g.end - g.start ==> R(a, g.start, m.next(a, Cut(g, n)), g.start + n)
  }

  ghost predicate StopsWithin(m: Machine, a: Lane, g: Segment) {
    g.start <= g.end && m.stop(a, g).Some? ==> m.stop(a, g).value <= g.end - g.start
  }

  /** R holds across idle time, chains, and holds across every segment however it is cut. */
  ghost predicate Kept(m: Machine, c: Calendar, R: Relation) {
    && (forall a, t, u :: IdleKeeps(c, R, a, t, u))
    && (forall a, t, b, u, d, v :: Chains(R, a, t, b, u, d, v))
    && (forall a, g, n :: CutKeeps(m, c, R, a, g, n))
    && (forall a, g :: StopsWithin(m, a, g))
  }

  lemma {:induction false} WalkKeeps(m: Machine, c: Calendar, R: Relation, lane: Lane, segs: seq<Segment>, from: int, e: int)
    requires Kept(m, c, R) && Chained(c, segs, from, e)
    ensures var r := WalkOf(m, lane, segs, e); R(lane, from, r.0, r.1)
    decreases |segs|
  {
    if segs == [] {
      assert IdleKeeps(c, R, lane, from, e);
    } else {
      var g := segs[0];
      assert IdleKeeps(c, R, lane, from, g.start) && StopsWithin(m, lane, g);
      var stop := m.stop(lane, g);
      var n: nat := if stop.Some? then stop.value else g.end - g.start;
      assert CutKeeps(m, c, R, lane, g, n);
      assert Chains(R, lane, from, lane, g.start, m.next(lane, Cut(g, n)), g.start + n);
      if stop.None? {
        assert Cut(g, n) == g;
        WalkKeeps(m, c, R, m.next(lane, g), segs[1..], g.end, e);
        var r := WalkOf(m, lane, segs, e);
        assert Chains(R, lane, from, m.next(lane, g), g.end, r.0, r.1);
      }
    }
  }

  // ---------- The tick is such a machine ----------

  ghost function StepTo(bp: Blueprint, overlays: seq<Overlay>, lane: Lane, g: Segment): Lane {
    if ValidWindows(bp, overlays) && g.start <= g.end && Staffed(bp, lane.slots) then StepSegment(bp, overlays, lane, g) else lane
  }

  ghost function Stop(bp: Blueprint, overlays: seq<Overlay>, lane: Lane, g: Segment): Option<nat> {
    if ValidWindows(bp, overlays) && g.start <= g.end && Staffed(bp, lane.slots) then SegmentBoundary(bp, overlays, lane, g) else None
  }

  ghost function TickMachine(bp: Blueprint, overlays: seq<Overlay>): Machine {
    Machine((lane, g) => StepTo(bp, overlays, lane, g), (lane, g) => Stop(bp, overlays, lane, g),
            (lane: Lane, t) => CompleteNow(bp.calendar, lane.slots, t), (lane, t) => Ready(bp, overlays, lane, t))
  }

  lemma TickStops(bp: Blueprint, overlays: seq<Overlay>, lane: Lane, g: Segment)
    ensures StopsWithin(TickMachine(bp, overlays), lane, g)
  {
  }

  lemma TickIdle(bp: Blueprint, overlays: seq<Overlay>, lane: Lane, t: int, u: int)
    ensures IdleLaw(TickMachine(bp, overlays), bp.calendar, lane, t, u)
  {
    if Ready(bp, overlays, lane, t) && t <= u && Count(bp.calendar, t, u) == 0 {
      CleanAcrossIdle(bp, overlays, lane, t, u);
      SameAcrossIdle(bp.calendar, lane.slots, t, u);
    }
  }

  lemma TickSegment(bp: Blueprint, overlays: seq<Overlay>, lane: Lane, g: Segment)
    ensures SegmentLaw(TickMachine(bp, overlays), bp.calendar, lane, g)
  {
    if Ready(bp, overlays, lane, g.start) && FullSegment(bp.calendar, g) {
      ReadyLater(bp, overlays, lane, g, g.start);
      if SegmentBoundary(bp, overlays, lane, g) == Some(0) {
        NoEarlyBoundary(bp, overlays, lane, g);
      }
    }
  }

  /** The machine's parts, applied. */
  lemma MachineNext(bp: Blueprint, overlays: seq<Overlay>, lane: Lane, g: Segment)
    ensures TickMachine(bp, overlays).next(lane, g) == StepTo(bp, overlays, lane, g)
    ensures TickMachine(bp, overlays).stop(lane, g) == Stop(bp, overlays, lane, g)
  {
  }

  lemma MachineComplete(bp: Blueprint, overlays: seq<Overlay>, lane: Lane, t: int)
    ensures TickMachine(bp, overlays).complete(lane, t) == CompleteNow(bp.calendar, lane.slots, t)
    ensures TickMachine(bp, overlays).ready(lane, t) == Ready(bp, overlays, lane, t)
  {
  }

  lemma CutExactTo(bp: Blueprint, overlays: seq<Overlay>, lane: Lane, g: Segment, n: nat, after: Lane, stop: Option<nat>)
    requires after == StepTo(bp, overlays, lane, Cut(g, n)) && stop == Stop(bp, overlays, lane, g)
    requires Ready(bp, overlays, lane, g.start) && FullSegment(bp.calendar, g) && 0 < n <= g.end - g.start
    ensures CompleteNow(bp.calendar, after.slots, g.start + n) <==> stop.Some? && stop.value <= n
  {
    SegmentExact(bp, overlays, lane, g, n, after, stop);
  }

  lemma CutLawFrom(m: Machine, c: Calendar, lane: Lane, g: Segment, n: nat, after: Lane, stop: Option<nat>)
    requires m.next(lane, Cut(g, n)) == after && m.stop(lane, g) == stop
    requires m.ready(lane, g.start) && FullSegment(c, g) && 0 < n <= g.end - g.start ==>
               (m.complete(after, g.start + n) <==> stop.Some? && stop.value <= n)
    ensures CutLaw(m, c, lane, g, n)
  {
  }

  /** What the cut of one segment must show. */
  ghost predicate Shows(c: Calendar, ready: bool, g: Segment, n: nat, complete: bool, stop: Option<nat>) {
    ready && FullSegment(c, g) && 0 < n <= g.end - g.start ==> (complete <==> stop.Some? && stop.value <= n)
  }

  lemma CutShows(bp: Blueprint, overlays: seq<Overlay>, lane: Lane, g: Segment, n: nat, after: Lane, stop: Option<nat>)
    requires after == StepTo(bp, overlays, lane, Cut(g, n)) && stop == Stop(bp, overlays, lane, g)
    ensures Shows(bp.calendar, Ready(bp, overlays, lane, g.start), g, n, CompleteNow(bp.calendar, after.slots, g.start + n), stop)
  {
    if Ready(bp, overlays, lane, g.start) && FullSegment(bp.calendar, g) && 0 < n <= g.end - g.start {
      CutExactTo(bp, overlays, lane, g, n, after, stop);
    }
  }

  lemma TickCut(bp: Blueprint, overlays: seq<Overlay>, lane: Lane, g: Segment, n: nat)
    ensures CutLaw(TickMachine(bp, overlays), bp.calendar, lane, g, n)
  {
    var m := TickMachine(bp, overlays);
    var after, stop := m.next(lane, Cut(g, n)), m.stop(lane, g);
    MachineNext(bp, overlays, lane, g);
    MachineNext(bp, overlays, lane, Cut(g, n));
    CutShows(bp, overlays, lane, g, n, after, stop);
    MachineComplete(bp, overlays, lane, g.start);
    MachineComplete(bp, overlays, after, g.start + n);
    CutLawFrom(m, bp.calendar, lane, g, n, after, stop);
  }

  lemma TickLawful(bp: Blueprint, overlays: seq<Overlay>)
    ensures Lawful(TickMachine(bp, overlays), bp.calendar)
  {
    forall lane, t, u ensures IdleLaw(TickMachine(bp, overlays), bp.calendar, lane, t, u) {
      TickIdle(bp, overlays, lane, t, u);
    }
    forall lane, g ensures SegmentLaw(TickMachine(bp, overlays), bp.calendar, lane, g) {
      TickSegment(bp, overlays, lane, g);
    }
    forall lane, g, n ensures CutLaw(TickMachine(bp, overlays), bp.calendar, lane, g, n) {
      TickCut(bp, overlays, lane, g, n);
    }
  }

  lemma OneOfTick(bp: Blueprint, overlays: seq<Overlay>, lane: Lane, g: Segment)
    requires ValidWindows(bp, overlays) && Staffed(bp, lane.slots) && g.start <= g.end
    ensures var m, stop := TickMachine(bp, overlays), SegmentBoundary(bp, overlays, lane, g);
            && m.stop(lane, g) == stop && m.next(lane, g) == StepSegment(bp, overlays, lane, g)
            && OneSegment(bp, overlays, lane, g) ==
               if stop.Some? then (m.next(lane, Cut(g, stop.value)), Some(g.start + stop.value)) else (m.next(lane, g), None)
  {
  }

  lemma {:induction false} WalkOfTick(bp: Blueprint, overlays: seq<Overlay>, lane: Lane, segs: seq<Segment>, e: int)
    requires ValidWindows(bp, overlays) && Staffed(bp, lane.slots) && Forward(segs)
    ensures Walk(bp, overlays, lane, segs, e) == WalkOf(TickMachine(bp, overlays), lane, segs, e)
    decreases |segs|
  {
    if segs != [] {
      OneOfTick(bp, overlays, lane, segs[0]);
      var one := OneSegment(bp, overlays, lane, segs[0]);
      if one.1.None? {
        WalkOfTick(bp, overlays, one.0, segs[1..], e);
      }
    }
  }

  lemma {:induction false} AtOfTick(bp: Blueprint, overlays: seq<Overlay>, lane: Lane, segs: seq<Segment>, t: int)
    requires ValidWindows(bp, overlays) && Staffed(bp, lane.slots) && Forward(segs)
    ensures At(bp, overlays, lane, segs, t) == AtOf(TickMachine(bp, overlays), lane, segs, t)
    decreases |segs|
  {
    if segs != [] && segs[0].end <= t {
      AtOfTick(bp, overlays, StepSegment(bp, overlays, lane, segs[0]), segs[1..], t);
    }
  }

  /** First-completion exactness: the committed end is the least instant at which some visit is
      complete, or the requested end, and the committed state is the reference state there. */
  lemma FirstCompletionExact(bp: Blueprint, overlays: seq<Overlay>, lane: Lane, segs: seq<Segment>, from: int, e: int)
    requires Ready(bp, overlays, lane, from) && Forward(segs) && Chained(bp.calendar, segs, from, e)
    requires !CompleteNow(bp.calendar, lane.slots, from)
    ensures var r := Walk(bp, overlays, lane, segs, e);
            IsFirst(bp, overlays, lane, segs, from, e, r.1) && r.0 == At(bp, overlays, lane, segs, r.1)
  {
    var m := TickMachine(bp, overlays);
    TickLawful(bp, overlays);
    WalkIsFirst(m, bp.calendar, lane, segs, from, e);
    WalkOfTick(bp, overlays, lane, segs, e);
    var end := Walk(bp, overlays, lane, segs, e).1;
    forall t | from <= t <= end
      ensures At(bp, overlays, lane, segs, t) == AtOf(m, lane, segs, t)
      ensures CompleteNow(bp.calendar, At(bp, overlays, lane, segs, t).slots, t) <==> DoneAt(m, lane, segs, t)
    {
      AtOfTick(bp, overlays, lane, segs, t);
    }
  }
}
