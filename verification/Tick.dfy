/** One tick: the effective end, the iteration of risks and advance until the end is stable. */
module Tick {
  import opened BusinessCalendar
  import opened Allocation
  import opened Team
  import opened Segments
  import opened FirstCompletion
  import opened Routes
  import opened RunInvariant
  import opened Lifecycle
  import opened Workdays
  import opened Risks
  import opened RiskLaws

  // ---------- The effective end ----------

  /** A tick never runs past the open sprint's boundary. */
  function SprintBound(s: State, requested: int): int {
    var planned := FindSprint(s.sprints, (sprint: Sprint) => sprint.phase.Planned? && sprint.start > s.cursor, 0, Next(s, SprintOrdinal));
    if planned.Some? then Min(requested, s.sprints[planned.value].start)
    else
      var running := FindSprint(s.sprints, (sprint: Sprint) => sprint.phase.Running?, 0, Next(s, SprintOrdinal));
      if running.None? then requested else Min(requested, s.sprints[running.value].end)
  }

  predicate AnyActive(s: State) {
    exists i :: 0 <= i < |s.items| && s.items[i].life.Active?
  }

  /** Nor, while there is work to decide about, past the next workday start. */
  function EffectiveEnd(bp: Blueprint, s: State, requested: int): int {
    var e := Max(s.cursor, SprintBound(s, requested));
    if !WorkdayRules(bp) || !AnyActive(s) then e
    else
      var w := NextWorkday(bp.calendar, s.cursor, e);
      if w.Some? then w.value else e
  }

  /** The effective end, scanning the days ahead for the next workday start. */
  method FindEnd(bp: Blueprint, s: State, requested: int) returns (e: int)
    ensures e == EffectiveEnd(bp, s, requested)
  {
    e := Max(s.cursor, SprintBound(s, requested));
    if WorkdayRules(bp) && AnyActive(s) {
      var w := ScanStarts(bp.calendar, s.cursor + 1, e, bp.calendar.date(s.cursor), bp.calendar.date(e));
      if w.Some? {
        e := w.value;
      }
    }
  }

  lemma EffectiveEndBounds(bp: Blueprint, s: State, requested: int)
    requires Valid(bp.calendar) && s.cursor <= requested
    ensures var e := EffectiveEnd(bp, s, requested);
            s.cursor <= e <= requested && NotPast(bp, s, e) && e <= Max(s.cursor, SprintBound(s, requested))
  {
    var e := Max(s.cursor, SprintBound(s, requested));
    NextWorkdayLeast(bp.calendar, s.cursor, e);
    assert HasActive(s) <==> AnyActive(s);
  }

  // ---------- Slots ----------

  /** The slot of item i: its open visit, held when a rule made it wait. */
  function SlotAt(s: State, working: State, i: nat): Slot {
    var k := OpenKey(working, i);
    if k.None? then Idle
    else if Blocked(s, working, i) then Held(working.visits[(i, k.value)])
    else Busy(working.visits[(i, k.value)], None)
  }

  function SlotsOf(s: State, working: State): (r: seq<Slot>)
    ensures |r| == |working.items| && forall i :: 0 <= i < |r| ==> r[i] == SlotAt(s, working, i)
  {
    seq(|working.items|, i requires 0 <= i < |working.items| => SlotAt(s, working, i))
  }

  ghost predicate TickReady(bp: Blueprint, s: State) {
    Valid(bp.calendar) && ValidWindows(bp, s.overlays) && ItemsOk(bp, s)
  }

  /** An item's slot holds its last visit exactly when it is active. */
  lemma SlotIs(bp: Blueprint, s: State, working: State, i: nat)
    requires i < |working.items| && ItemHolds(bp, working, i)
    ensures var n := working.counters[VisitOrdinal(i)];
            if working.items[i].life.Active?
            then n > 0 && !SlotAt(s, working, i).Idle? && SlotAt(s, working, i).visit == working.visits[(i, n - 1)]
                 && (i, n - 1) in working.visits && OpenKey(working, i) == Some(n - 1)
                 && VisitOk(bp, working.items[i], i, n, n - 1, working.visits[(i, n - 1)])
            else SlotAt(s, working, i).Idle? && OpenKey(working, i).None?
  {
    var n := working.counters[VisitOrdinal(i)];
    forall k: nat | k < n ensures VisitOk(bp, working.items[i], i, n, k, working.visits[(i, k)]) {
    }
    var k := OpenKey(working, i);
    if k.Some? {
      assert VisitOk(bp, working.items[i], i, n, k.value, working.visits[(i, k.value)]);
    }
  }

  lemma SlotsReady(bp: Blueprint, s: State, working: State)
    requires ItemsOk(bp, working)
    ensures Staffed(bp, SlotsOf(s, working))
  {
    var slots := SlotsOf(s, working);
    forall i | 0 <= i < |slots| && !slots[i].Idle?
      ensures slots[i].visit.member.Some? ==> slots[i].visit.member.value < |bp.members|
    {
      assert ItemHolds(bp, working, i);
      SlotIs(bp, s, working, i);
    }
  }

  // ---------- One attempt, and the iteration ----------

  datatype Attempted = Attempted(risks: Evaluation, lane: Lane, end: int)

  lemma AttemptReady(bp: Blueprint, draws: Draws, s: State, e: int)
    requires TickReady(bp, s) && NotPast(bp, s, e) && s.cursor <= e
    ensures var working := Evaluate(bp, draws, s, e, |bp.rules|).working;
            && RiskStep(bp, s, working) && ValidWindows(bp, working.overlays) && Staffed(bp, SlotsOf(s, working))
            && Forward(SegmentsOf(bp, working.overlays, s.cursor, e))
            && Ordered(SegmentsOf(bp, working.overlays, s.cursor, e), s.cursor, e)
  {
    EvaluateKeeps(bp, draws, s, e, |bp.rules|);
    var working := Evaluate(bp, draws, s, e, |bp.rules|).working;
    SlotsReady(bp, s, working);
    SegmentsGood(bp, working.overlays, s.cursor, e);
  }

  /** Evaluate the risks due by e, then advance visits on what they left, up to e. */
  ghost function Attempt(bp: Blueprint, draws: Draws, s: State, e: int): (r: Attempted)
    requires TickReady(bp, s) && NotPast(bp, s, e) && s.cursor <= e
    ensures s.cursor <= r.end <= e
    ensures r.risks == Evaluate(bp, draws, s, e, |bp.rules|)
    ensures Staffed(bp, r.lane.slots) && |r.lane.slots| == |r.risks.working.items|
  {
    AttemptReady(bp, draws, s, e);
    var risks := Evaluate(bp, draws, s, e, |bp.rules|);
    var segs := SegmentsOf(bp, risks.working.overlays, s.cursor, e);
    var start := Lane(SlotsOf(s, risks.working), s.book, []);
    var run := Walk(bp, risks.working.overlays, start, segs, e);
    WalkEnds(bp, risks.working.overlays, start, segs, s.cursor, e);
    Attempted(risks, run.0, run.1)
  }

  /** A walk ends inside the stretch its segments lie in. */
  lemma {:induction false} WalkEnds(bp: Blueprint, overlays: seq<Overlay>, lane: Lane, segs: seq<Segment>, lo: int, e: int)
    requires ValidWindows(bp, overlays) && Staffed(bp, lane.slots) && Forward(segs)
    requires lo <= e && forall k :: 0 <= k < |segs| ==> lo <= segs[k].start && segs[k].end <= e
    ensures lo <= Walk(bp, overlays, lane, segs, e).1 <= e
    decreases |segs|
  {
    if segs != [] {
      var one := OneSegment(bp, overlays, lane, segs[0]);
      if one.1.None? {
        assert forall k :: 0 <= k < |segs[1..]| ==> segs[1..][k] == segs[k + 1];
        WalkEnds(bp, overlays, one.0, segs[1..], lo, e);
      }
    }
  }

  /** Repeating the attempt at its own end until the end no longer moves. */
  ghost function Stable(bp: Blueprint, draws: Draws, s: State, e: int): (r: Attempted)
    requires TickReady(bp, s) && NotPast(bp, s, e) && s.cursor <= e
    ensures s.cursor <= r.end <= e
    decreases e - s.cursor
  {
    var a := Attempt(bp, draws, s, e);
    if a.end < e then
      NotPastSooner(bp, s, e, a.end);
      Stable(bp, draws, s, a.end)
    else a
  }

  /** An attempt that ends where it was asked to. */
  ghost predicate Settled(bp: Blueprint, draws: Draws, s: State, r: Attempted)
    requires TickReady(bp, s)
  {
    s.cursor <= r.end && NotPast(bp, s, r.end) && r == Attempt(bp, draws, s, r.end)
  }

  /** The iteration ends with such an attempt. */
  lemma {:induction false} StableSettles(bp: Blueprint, draws: Draws, s: State, e: int)
    requires TickReady(bp, s) && NotPast(bp, s, e) && s.cursor <= e
    ensures Settled(bp, draws, s, Stable(bp, draws, s, e))
    decreases e - s.cursor
  {
    var a := Attempt(bp, draws, s, e);
    if a.end < e {
      NotPastSooner(bp, s, e, a.end);
      StableSettles(bp, draws, s, a.end);
      StableNext(bp, draws, s, e, a.end);
    } else {
      AlreadySettled(bp, draws, s, e, a);
    }
  }

  lemma StableNext(bp: Blueprint, draws: Draws, s: State, e: int, end: int)
    requires TickReady(bp, s) && NotPast(bp, s, e) && s.cursor <= end < e
    requires Attempt(bp, draws, s, e).end == end && NotPast(bp, s, end)
    ensures Stable(bp, draws, s, e) == Stable(bp, draws, s, end)
  {
  }

  lemma AlreadySettled(bp: Blueprint, draws: Draws, s: State, e: int, a: Attempted)
    requires TickReady(bp, s) && NotPast(bp, s, e) && s.cursor <= e
    requires a == Attempt(bp, draws, s, e) && a.end >= e
    ensures Stable(bp, draws, s, e) == a && Settled(bp, draws, s, a)
  {
    assert a.end == e;
  }

  lemma NotPastSooner(bp: Blueprint, s: State, e: int, sooner: int)
    requires NotPast(bp, s, e) && sooner <= e
    ensures NotPast(bp, s, sooner)
  {
  }

  // ---------- Clocks that cannot be read ----------

  /** Every visit the rules closed was entered by then; closing one before its entry is an error. */
  predicate ClosedInOrder(before: Visits, after: Visits) {
    forall key :: key in before && key in after && before[key].open && after[key].closed.Some? ==>
      before[key].entered <= after[key].closed.value
  }

  ghost predicate AttemptReadable(bp: Blueprint, draws: Draws, s: State, e: int)
    requires TickReady(bp, s) && NotPast(bp, s, e) && s.cursor <= e
  {
    AttemptReady(bp, draws, s, e);
    var working := Evaluate(bp, draws, s, e, |bp.rules|).working;
    && ClosedInOrder(s.visits, working.visits)
    && WalkReadable(bp, working.overlays, Lane(SlotsOf(s, working), s.book, []), SegmentsOf(bp, working.overlays, s.cursor, e))
  }

  /** No attempt of the iteration asks a clock to run backwards. */
  ghost predicate StableReadable(bp: Blueprint, draws: Draws, s: State, e: int)
    requires TickReady(bp, s) && NotPast(bp, s, e) && s.cursor <= e
    decreases e - s.cursor
  {
    && AttemptReadable(bp, draws, s, e)
    && var end := Attempt(bp, draws, s, e).end;
       end < e ==> NotPast(bp, s, end) && StableReadable(bp, draws, s, end)
  }

  /** One attempt, on the executable parts. */
  method AdvanceForRisks(bp: Blueprint, draws: Draws, s: State, e: int) returns (r: Reading<Attempted>)
    requires TickReady(bp, s) && NotPast(bp, s, e) && s.cursor <= e && bp.calendar.date(e) <= bp.calendar.horizon
    ensures r == if AttemptReadable(bp, draws, s, e) then Read(Attempt(bp, draws, s, e)) else Backwards
  {
    AttemptReady(bp, draws, s, e);
    var risks := EvaluateDueRisks(bp, draws, s, e);
    if !ClosedInOrder(s.visits, risks.working.visits) {
      return Backwards;
    }
    var segs := BusinessSegments(bp, risks.working.overlays, s.cursor, e);
    var start := Lane(SlotsOf(s, risks.working), s.book, []);
    assert forall k :: 0 <= k < |segs| ==> bp.calendar.date(segs[k].start) <= bp.calendar.date(e);
    var run := AdvanceVisits(bp, risks.working.overlays, start, segs, e);
    r := if run.Backwards? then Backwards else Read(Attempted(risks, run.value.0, run.value.1));
  }

  /** The loop: it terminates, never ends before the cursor or after the request, and the risks it
      returns were evaluated at exactly the end it returns. */
  method RiskAwareAdvance(bp: Blueprint, draws: Draws, s: State, e: int) returns (r: Reading<Attempted>)
    requires TickReady(bp, s) && NotPast(bp, s, e) && s.cursor <= e && bp.calendar.date(e) <= bp.calendar.horizon
    ensures r == if StableReadable(bp, draws, s, e) then Read(Stable(bp, draws, s, e)) else Backwards
    ensures r.Read? ==>
              && s.cursor <= r.value.end <= e && Settled(bp, draws, s, r.value)
              && r.value.risks == Evaluate(bp, draws, s, r.value.end, |bp.rules|)
  {
    var end := e;
    r := AdvanceForRisks(bp, draws, s, end);
    while r.Read? && r.value.end < end
      invariant s.cursor <= end <= e && NotPast(bp, s, end) && Stable(bp, draws, s, end) == Stable(bp, draws, s, e)
      invariant r == if AttemptReadable(bp, draws, s, end) then Read(Attempt(bp, draws, s, end)) else Backwards
      invariant StableReadable(bp, draws, s, end) <==> StableReadable(bp, draws, s, e)
      decreases end - s.cursor, r.Read?
    {
      NotPastSooner(bp, s, end, r.value.end);
      end := r.value.end;
      assert bp.calendar.date(end) <= bp.calendar.date(e);
      r := AdvanceForRisks(bp, draws, s, end);
    }
    StableSettles(bp, draws, s, e);
  }
}
