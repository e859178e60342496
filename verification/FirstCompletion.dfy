/** Advancing visits over all segments of a tick, up to the first visit completion. */
module FirstCompletion {
  import opened BusinessCalendar
  import opened Allocation
  import opened AllocationLaws
  import opened Team
  import opened Completion

  // ---------- One segment against the team's state ----------

  /** What a tick has reached: visits, consumption, and one row of queue causes per segment. */
  datatype Lane = Lane(slots: seq<Slot>, book: Book, causes: seq<seq<Option<Cause>>>)

  ghost predicate Staffed(bp: Blueprint, slots: seq<Slot>) {
    forall i :: 0 <= i < |slots| && !slots[i].Idle? && slots[i].visit.member.Some? ==>
      slots[i].visit.member.value < |bp.members|
  }

  function StepSegment(bp: Blueprint, overlays: seq<Overlay>, lane: Lane, g: Segment): (r: Lane)
    requires ValidWindows(bp, overlays) && g.start <= g.end && Staffed(bp, lane.slots)
    ensures Staffed(bp, r.slots) && |r.slots| == |lane.slots|
  {
    var d := DeskFor(bp, overlays, g);
    var p := Advance(d, DaySpent(bp, lane.book, g.day), lane.slots);
    StepStaffed(bp, d, DaySpent(bp, lane.book, g.day), lane.slots);
    Lane(p.slots, Post(lane.book, g.day, p.spent), lane.causes + [p.causes])
  }

  lemma StepStaffed(bp: Blueprint, d: Desk, spent: seq<nat>, slots: seq<Slot>)
    requires ValidDesk(d) && |spent| == |d.seats| == |bp.members| && Staffed(bp, slots) && ValidSlots(d, slots)
    ensures Staffed(bp, Advance(d, spent, slots).slots)
  {
    var after := Advance(d, spent, slots).slots;
    forall i | 0 <= i < |slots| && !after[i].Idle? && after[i].visit.member.Some?
      ensures after[i].visit.member.value < |bp.members|
    {
      SegmentEffect(d, spent, slots, i);
      assert ValidSlot(d, after[i]);
    }
  }

  // ---------- Business clocks ----------

  /** Business time since the visit was entered. */
  ghost function Clock(c: Calendar, s: Slot, t: int): nat {
    if s.Idle? then 0 else Count(c, s.visit.entered, t)
  }

  ghost function Clocks(c: Calendar, slots: seq<Slot>, t: int): (r: seq<nat>)
    ensures |r| == |slots| && forall i :: 0 <= i < |r| ==> r[i] == Clock(c, slots[i], t)
  {
    seq(|slots|, i requires 0 <= i < |slots| => Clock(c, slots[i], t))
  }

  ghost predicate EnteredBy(slots: seq<Slot>, t: int) {
    forall i :: 0 <= i < |slots| && !slots[i].Idle? ==> slots[i].visit.entered <= t
  }

  lemma ProbeScannable(bp: Blueprint, overlays: seq<Overlay>, lane: Lane, g: Segment)
    requires ValidWindows(bp, overlays) && g.start <= g.end && Staffed(bp, lane.slots)
    ensures AllScannable(DeskFor(bp, overlays, g), lane.slots, StepSegment(bp, overlays, lane, g).slots)
  {
    AdvanceScannable(DeskFor(bp, overlays, g), DaySpent(bp, lane.book, g.day), lane.slots);
  }

  /** The completion boundary of one segment, if any. */
  ghost function SegmentBoundary(bp: Blueprint, overlays: seq<Overlay>, lane: Lane, g: Segment): (r: Option<nat>)
    requires ValidWindows(bp, overlays) && g.start <= g.end && Staffed(bp, lane.slots)
    ensures r.Some? ==> r.value <= g.end - g.start
  {
    ProbeScannable(bp, overlays, lane, g);
    var d, after, clocks := DeskFor(bp, overlays, g), StepSegment(bp, overlays, lane, g).slots, Clocks(bp.calendar, lane.slots, g.start);
    ScanIsLeast(d, lane.slots, after, clocks, |lane.slots|);
    Boundary(d, lane.slots, after, clocks)
  }

  function Cut(g: Segment, n: nat): Segment {
    g.(end := g.start + n)
  }

  /** One segment: the state it leads to and, when something completes in it, where it stops. */
  ghost function OneSegment(bp: Blueprint, overlays: seq<Overlay>, lane: Lane, g: Segment): (r: (Lane, Option<int>))
    requires ValidWindows(bp, overlays) && g.start <= g.end && Staffed(bp, lane.slots)
    ensures Staffed(bp, r.0.slots) && |r.0.slots| == |lane.slots|
    ensures r.1.Some? ==> g.start <= r.1.value <= g.end
  {
    var boundary := SegmentBoundary(bp, overlays, lane, g);
    if boundary.Some? then (StepSegment(bp, overlays, lane, Cut(g, boundary.value)), Some(g.start + boundary.value))
    else (StepSegment(bp, overlays, lane, g), None)
  }

  /** The loop over segments, stopping at the first completion. */
  ghost function Walk(bp: Blueprint, overlays: seq<Overlay>, lane: Lane, segs: seq<Segment>, e: int): (r: (Lane, int))
    requires ValidWindows(bp, overlays) && Staffed(bp, lane.slots)
    requires Forward(segs)
    ensures Staffed(bp, r.0.slots) && |r.0.slots| == |lane.slots|
    decreases |segs|
  {
    if segs == [] then (lane, e)
    else
      var one := OneSegment(bp, overlays, lane, segs[0]);
      if one.1.Some? then (one.0, one.1.value) else Walk(bp, overlays, one.0, segs[1..], e)
  }

  // ---------- Reading clocks ----------

  /** A business clock read after entry, or one asked to run backwards, which is an error. */
  datatype Reading<+T> = Read(value: T) | Backwards

  /** The scan asks for the clock of a visit whose work is done when the probe ends. */
  predicate Asked(before: Slot, after: Slot) {
    && !before.Idle? && !after.Idle? && after.visit.remaining == 0
    && (before.visit.remaining == 0 || after.visit.member.Some?)
  }

  /** Every clock the scan of a segment asks for was started by t. */
  predicate ScanReadable(before: seq<Slot>, after: seq<Slot>, t: int)
    requires |before| == |after|
  {
    forall i :: 0 <= i < |before| && Asked(before[i], after[i]) ==> before[i].visit.entered <= t
  }

  ghost predicate SegmentReadable(bp: Blueprint, overlays: seq<Overlay>, lane: Lane, g: Segment)
    requires ValidWindows(bp, overlays) && g.start <= g.end && Staffed(bp, lane.slots)
  {
    ScanReadable(lane.slots, StepSegment(bp, overlays, lane, g).slots, g.start)
  }

  /** The walk asks no clock to run backwards. */
  ghost predicate WalkReadable(bp: Blueprint, overlays: seq<Overlay>, lane: Lane, segs: seq<Segment>)
    requires ValidWindows(bp, overlays) && Staffed(bp, lane.slots) && Forward(segs)
    decreases |segs|
  {
    segs != [] ==>
      && SegmentReadable(bp, overlays, lane, segs[0])
      && var one := OneSegment(bp, overlays, lane, segs[0]);
         one.1.None? ==> WalkReadable(bp, overlays, one.0, segs[1..])
  }

  method ReadClock(c: Calendar, s: Slot, t: int) returns (clock: nat)
    requires Valid(c) && c.date(t) <= c.horizon && (!s.Idle? ==> s.visit.entered <= t)
    ensures clock == Clock(c, s, t)
  {
    if s.Idle? {
      return 0;
    }
    assert c.date(t - 1) <= c.date(t);
    var elapsed := Elapsed(c, s.visit.entered, t);
    return elapsed.value;
  }

  /** A clock that is not asked for does not matter. */
  lemma UnaskedClock(d: Desk, s: Slot, t: Slot, clock: nat, acc: Scan)
    requires |acc.used| == |d.seats| && Scannable(d, s, t) && !Asked(s, t)
    ensures ScanOne(d, s, t, 0, acc) == ScanOne(d, s, t, clock, acc)
  {
  }

  /** The boundary scan over the visits in rank order, reading a clock where the work is done. */
  method ScanVisits(c: Calendar, d: Desk, before: seq<Slot>, after: seq<Slot>, t: int) returns (r: Reading<Option<nat>>)
    requires Valid(c) && c.date(t) <= c.horizon && AllScannable(d, before, after)
    ensures r == if ScanReadable(before, after, t) then Read(Boundary(d, before, after, Clocks(c, before, t))) else Backwards
  {
    var acc := Scan(NoLoad(d), None);
    ghost var clocks := Clocks(c, before, t);
    for i := 0 to |before|
      invariant acc == ScanTo(d, before, after, clocks, i)
      invariant forall k :: 0 <= k < i && Asked(before[k], after[k]) ==> before[k].visit.entered <= t
    {
      var clock: nat := 0;
      if Asked(before[i], after[i]) {
        if before[i].visit.entered > t {
          return Backwards;
        }
        clock := ReadClock(c, before[i], t);
      } else {
        UnaskedClock(d, before[i], after[i], clocks[i], acc);
      }
      acc := ScanOne(d, before[i], after[i], clock, acc);
    }
    return Read(acc.first);
  }

  method CompletionBoundary(bp: Blueprint, overlays: seq<Overlay>, lane: Lane, g: Segment, probe: Lane) returns (r: Reading<Option<nat>>)
    requires Valid(bp.calendar) && ValidWindows(bp, overlays) && g.start <= g.end && Staffed(bp, lane.slots)
    requires probe == StepSegment(bp, overlays, lane, g) && bp.calendar.date(g.start) <= bp.calendar.horizon
    ensures r == if SegmentReadable(bp, overlays, lane, g) then Read(SegmentBoundary(bp, overlays, lane, g)) else Backwards
  {
    ProbeScannable(bp, overlays, lane, g);
    r := ScanVisits(bp.calendar, DeskFor(bp, overlays, g), lane.slots, probe.slots, g.start);
  }

  /** Allocate one segment and write the day's consumption back. */
  method RunSegment(bp: Blueprint, overlays: seq<Overlay>, lane: Lane, g: Segment) returns (r: Lane)
    requires ValidWindows(bp, overlays) && g.start <= g.end && Staffed(bp, lane.slots)
    ensures r == StepSegment(bp, overlays, lane, g)
  {
    var p := AdvanceSegment(DeskFor(bp, overlays, g), DaySpent(bp, lane.book, g.day), lane.slots);
    r := Lane(p.slots, Post(lane.book, g.day, p.spent), lane.causes + [p.causes]);
  }

  /** Probe one segment; if something completes inside it, run only that far from the state before. */
  method AdvanceOne(bp: Blueprint, overlays: seq<Overlay>, lane: Lane, g: Segment) returns (r: Reading<(Lane, Option<int>)>)
    requires Valid(bp.calendar) && ValidWindows(bp, overlays) && g.start <= g.end && Staffed(bp, lane.slots)
    requires bp.calendar.date(g.start) <= bp.calendar.horizon
    ensures r == if SegmentReadable(bp, overlays, lane, g) then Read(OneSegment(bp, overlays, lane, g)) else Backwards
  {
    var probe := RunSegment(bp, overlays, lane, g);
    var boundary := CompletionBoundary(bp, overlays, lane, g, probe);
    if boundary.Backwards? {
      return Backwards;
    }
    var stop := boundary.value;
    if stop.None? {
      return Read((probe, None));
    }
    OneShortened(bp, overlays, lane, g, stop.value);
    var next := RunSegment(bp, overlays, lane, Cut(g, stop.value));
    return Read((next, Some(g.start + stop.value)));
  }

  lemma OneShortened(bp: Blueprint, overlays: seq<Overlay>, lane: Lane, g: Segment, n: nat)
    requires ValidWindows(bp, overlays) && g.start <= g.end && Staffed(bp, lane.slots)
    requires SegmentBoundary(bp, overlays, lane, g) == Some(n)
    ensures OneSegment(bp, overlays, lane, g) == (StepSegment(bp, overlays, lane, Cut(g, n)), Some(g.start + n))
  {
  }

  /** The loop over segments: the walk, or an error if a clock is asked to run backwards. */
  method AdvanceVisits(bp: Blueprint, overlays: seq<Overlay>, start: Lane, segs: seq<Segment>, e: int) returns (r: Reading<(Lane, int)>)
    requires Valid(bp.calendar) && ValidWindows(bp, overlays) && Staffed(bp, start.slots) && Forward(segs)
    requires forall k :: 0 <= k < |segs| ==> bp.calendar.date(segs[k].start) <= bp.calendar.horizon
    ensures r == if WalkReadable(bp, overlays, start, segs) then Read(Walk(bp, overlays, start, segs, e)) else Backwards
  {
    var lane := start;
    for k := 0 to |segs|
      invariant Reached(bp, overlays, start, segs, e, k, lane)
    {
      var one := AdvanceOne(bp, overlays, lane, segs[k]);
      ReachedNext(bp, overlays, start, segs, e, k, lane);
      if one.Backwards? {
        return Backwards;
      }
      if one.value.1.Some? {
        return Read((one.value.0, one.value.1.value));
      }
      lane := one.value.0;
    }
    assert segs[|segs|..] == [];
    return Read((lane, e));
  }

  /** After k segments without a completion, the lane is where the walk goes on from. */
  ghost predicate Reached(bp: Blueprint, overlays: seq<Overlay>, start: Lane, segs: seq<Segment>, e: int, k: nat, lane: Lane)
    requires ValidWindows(bp, overlays) && Staffed(bp, start.slots) && Forward(segs) && k <= |segs|
  {
    && Staffed(bp, lane.slots)
    && Walk(bp, overlays, start, segs, e) == Walk(bp, overlays, lane, segs[k..], e)
    && (WalkReadable(bp, overlays, start, segs) <==> WalkReadable(bp, overlays, lane, segs[k..]))
  }

  lemma ReachedNext(bp: Blueprint, overlays: seq<Overlay>, start: Lane, segs: seq<Segment>, e: int, k: nat, lane: Lane)
    requires ValidWindows(bp, overlays) && Staffed(bp, start.slots) && Forward(segs) && k < |segs|
    requires Reached(bp, overlays, start, segs, e, k, lane)
    ensures segs[k].start <= segs[k].end
    ensures !SegmentReadable(bp, overlays, lane, segs[k]) ==> !WalkReadable(bp, overlays, start, segs)
    ensures SegmentReadable(bp, overlays, lane, segs[k]) ==>
              var one := OneSegment(bp, overlays, lane, segs[k]);
              if one.1.Some? then WalkReadable(bp, overlays, start, segs) && Walk(bp, overlays, start, segs, e) == (one.0, one.1.value)
              else Reached(bp, overlays, start, segs, e, k + 1, one.0)
  {
    assert segs[k..][0] == segs[k] && segs[k..][1..] == segs[k + 1..];
  }

  /** Clocks started before the walk can all be read. */
  lemma {:induction false} EnteredReadable(bp: Blueprint, overlays: seq<Overlay>, lane: Lane, segs: seq<Segment>, t: int)
    requires ValidWindows(bp, overlays) && Staffed(bp, lane.slots) && Forward(segs) && EnteredBy(lane.slots, t)
    requires NoneBefore(segs, t)
    ensures WalkReadable(bp, overlays, lane, segs)
    decreases |segs|
  {
    if segs != [] {
      EnteredSegment(bp, overlays, lane, segs[0], t);
      RestLater(segs, t);
      EnteredReadable(bp, overlays, OneSegment(bp, overlays, lane, segs[0]).0, segs[1..], t);
    }
  }

  ghost predicate NoneBefore(segs: seq<Segment>, t: int) {
    forall k :: 0 <= k < |segs| ==> t <= segs[k].start
  }

  lemma RestLater(segs: seq<Segment>, t: int)
    requires segs != [] && NoneBefore(segs, t)
    ensures NoneBefore(segs[1..], t)
  {
  }

  lemma EnteredSegment(bp: Blueprint, overlays: seq<Overlay>, lane: Lane, g: Segment, t: int)
    requires ValidWindows(bp, overlays) && Staffed(bp, lane.slots) && g.start <= g.end && EnteredBy(lane.slots, t) && t <= g.start
    ensures SegmentReadable(bp, overlays, lane, g) && EnteredBy(OneSegment(bp, overlays, lane, g).0.slots, t)
  {
    OneMoves(bp, overlays, lane, g);
    StillEntered(lane.slots, OneSegment(bp, overlays, lane, g).0.slots, t);
  }

  lemma StillEntered(a: seq<Slot>, b: seq<Slot>, t: int)
    requires EnteredBy(a, t) && AllMoved(a, b)
    ensures EnteredBy(b, t)
  {
    forall i | 0 <= i < |b| && !b[i].Idle? ensures b[i].visit.entered <= t {
      assert Moved(a[i], b[i]);
    }
  }

  lemma MovedOn(a: seq<Slot>, b: seq<Slot>, c: seq<Slot>)
    requires AllMoved(a, b) && AllMoved(b, c)
    ensures AllMoved(a, c)
  {
    forall i | 0 <= i < |a| ensures Moved(a[i], c[i]) {
      assert Moved(a[i], b[i]) && Moved(b[i], c[i]);
    }
  }

  // ---------- What a run of segments may change in a slot ----------

  /** Labor moves from remaining to elapsed and credited together; clocks only grow; the visit's
      identity, status, times, requirement and dwell never change; a held visit does not change. */
  ghost predicate Moved(a: Slot, b: Slot) {
    && (a.Idle? <==> b.Idle?) && (a.Held? ==> b == a) && (a.Busy? <==> b.Busy?)
    && (!a.Idle? ==>
          var v, w := a.visit, b.visit;
          && w == v.(member := w.member, elapsed := w.elapsed, remaining := w.remaining, queue := w.queue,
                     pause := w.pause, credited := w.credited)
          && w.credited >= v.credited && w.queue >= v.queue && w.pause >= v.pause
          && w.elapsed - v.elapsed == w.credited - v.credited == v.remaining - w.remaining)
  }

  ghost predicate AllMoved(a: seq<Slot>, b: seq<Slot>) {
    |a| == |b| && forall i :: 0 <= i < |a| ==> Moved(a[i], b[i])
  }

  lemma StepMoves(bp: Blueprint, overlays: seq<Overlay>, lane: Lane, g: Segment)
    requires ValidWindows(bp, overlays) && g.start <= g.end && Staffed(bp, lane.slots)
    ensures AllMoved(lane.slots, StepSegment(bp, overlays, lane, g).slots)
  {
    var d, spent := DeskFor(bp, overlays, g), DaySpent(bp, lane.book, g.day);
    forall i | 0 <= i < |lane.slots| ensures Moved(lane.slots[i], StepSegment(bp, overlays, lane, g).slots[i]) {
      SegmentEffect(d, spent, lane.slots, i);
    }
  }

  lemma OneMoves(bp: Blueprint, overlays: seq<Overlay>, lane: Lane, g: Segment)
    requires ValidWindows(bp, overlays) && g.start <= g.end && Staffed(bp, lane.slots)
    ensures AllMoved(lane.slots, OneSegment(bp, overlays, lane, g).0.slots)
  {
    StepMoves(bp, overlays, lane, g);
    var boundary := SegmentBoundary(bp, overlays, lane, g);
    if boundary.Some? {
      StepMoves(bp, overlays, lane, Cut(g, boundary.value));
    }
  }

  ghost predicate Forward(segs: seq<Segment>) {
    forall k :: 0 <= k < |segs| ==> segs[k].start <= segs[k].end
  }

  /** Whatever the segments and wherever they stop, slots only move. */
  lemma {:induction false} WalkMoves(bp: Blueprint, overlays: seq<Overlay>, lane: Lane, segs: seq<Segment>, e: int)
    requires ValidWindows(bp, overlays) && Staffed(bp, lane.slots) && Forward(segs)
    ensures AllMoved(lane.slots, Walk(bp, overlays, lane, segs, e).0.slots)
    decreases |segs|
  {
    if segs != [] {
      var one := OneSegment(bp, overlays, lane, segs[0]);
      OneMoves(bp, overlays, lane, segs[0]);
      if one.1.None? {
        WalkMoves(bp, overlays, one.0, segs[1..], e);
        MovedOn(lane.slots, one.0.slots, Walk(bp, overlays, lane, segs, e).0.slots);
      }
    }
  }
}
