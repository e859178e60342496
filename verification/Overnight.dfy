/** A team with a night between two working days: what a wait over the night and a visit complete at night
    do to the ends of ticks. */
module Overnight {
  import opened BusinessCalendar
  import opened Days
  import opened Allocation
  import opened AllocationLaws
  import opened Team
  import opened Segments
  import opened Completion
  import opened FirstCompletion
  import opened CommittedEnd
  import opened Commands
  import opened Routes
  import opened Scope
  import opened RunInvariant
  import opened Lifecycle
  import opened LifecycleLaws
  import opened SprintRun
  import opened Bootstrap
  import opened Risks
  import opened RiskLaws
  import opened Tick
  import opened Finish
  import opened TickLaws
  import opened TickRun
  import opened Steps
  import opened Histories
  import opened Loops
  import opened Nights

  // ---------- The team ----------

  /** Days of a thousand microseconds, of which the second begins at 5: worked from 0 to 2 on the first and
      from 10 to 1000 on the second. */
  function TwoDays(): Calendar {
    EqualDays(1000, 995, d => if d == 0 then Some(Interval(0, 2)) else if d == 1 then Some(Interval(10, 1000)) else None, 2)
  }

  lemma TwoDaysValid()
    ensures Valid(TwoDays()) && ValidClock(TwoDays())
  {
    EqualDaysValid(1000, 995, TwoDays().work, 2);
  }

  function WaitRule(): Rule { Rule(ExternalDependency, StatusEntered, 5, 0) }

  /** One member, one working status, one point a sprint, two-day sprints, a dependency that takes five
      microseconds. */
  function NightTeam(): Blueprint {
    Blueprint(TwoDays(), [Member(100, 1, map[0 := 1.0], [])], map[0 := Status(true, false), 1 := Status(false, false)],
              map[0 := [Step(0, Some(0)), Step(1, None)]], [WaitRule()], 1, 1, 0, 2)
  }

  /** What the example needs to know of the team. */
  ghost predicate Nightly(bp: Blueprint) {
    && ValidBlueprint(bp) && ValidWindows(bp, []) && bp.calendar == TwoDays() && bp.rules == [WaitRule()]
    && |bp.members| == 1 && bp.members[0].windows == [] && 0 !in PausingStatuses(bp)
    && bp.minPoints == bp.maxPoints == 1 && bp.anchor == 0 && bp.cadenceDays == 2
  }

  lemma NightTeamRoutes()
    ensures ValidRoutes(NightTeam())
  {
    var bp := NightTeam();
    assert FirstCapable(bp, 0, 0) == Some(0);
    assert ValidRoute(bp, bp.routes[0]);
  }

  lemma NightTeamNightly()
    ensures Nightly(NightTeam())
  {
    TwoDaysValid();
    NightTeamRoutes();
  }

  /** No touch; this much dwell; every dependency outcome as given. */
  function NightDraws(dwell: nat, waits: bool): Draws {
    Draws((i, k, status) => 0, (i, k, status) => dwell, k => 0.0, (s, i) => false, (s, i) => waits, (s, i) => 0)
  }

  // ---------- One open visit ----------

  function OpenedAt(t: int, dwell: nat): Visit {
    Visit(0, 0, true, 0, 0, Some(0), t, None, 0, 0, 0, 0, 0, 0, dwell)
  }

  /** A board of one item, active in its first visit, in the sprint that ends at 2000. */
  ghost predicate Alone(s: State, v: Visit) {
    && |s.items| == 1 && s.items[0].life.Active? && s.visits == map[(0, 0) := v] && v.open
    && VisitOrdinal(0) in s.counters && s.counters[VisitOrdinal(0)] == 1 && s.overlays == []
    && OpenOrdinal(s) in s.sprints && NextBoundary(s) == 2000
  }

  ghost predicate Takes(bp: Blueprint, draws: Draws, t: int, v: Visit) {
    && 0 in bp.routes && |bp.routes[0]| > 0
    && Activate(bp, draws, 0, OneItem(0)[0], t) == Move(OneItem(0)[0].(life := Active, status := 0), Some(v))
  }

  lemma NightTakes(t: int, dwell: nat, waits: bool)
    ensures Takes(NightTeam(), NightDraws(dwell, waits), t, OpenedAt(t, dwell))
  {
    var bp := NightTeam();
    assert FirstCapable(bp, 0, 0) == Some(0);
    assert NextTimed(bp, bp.routes[0], 0) == Some(0);
  }

  ghost function NightStart(bp: Blueprint, draws: Draws, t: int): State
    requires KindsKnown(bp, OneItem(0))
  {
    InitialState(bp, draws, OneItem(0), t, 0)
  }

  lemma NightStarts(bp: Blueprint, draws: Draws, t: int, v: Visit)
    requires Nightly(bp) && Takes(bp, draws, t, v) && v.open && 0 <= t < 5 && draws.target(0) == 0.0
    ensures KindsKnown(bp, OneItem(0)) && Alone(NightStart(bp, draws, t), v) && NightStart(bp, draws, t).cursor == t
  {
    var s := NightStart(bp, draws, t);
    OneSelected(bp);
    OneOpened(bp, draws, t, v);
    FirstBoundary(bp);
    assert s.items == Activated(bp, draws, OneItem(0), [0], t);
    assert s.items == [OneItem(0)[0].(life := Active, status := 0)];
    FirstRunning(bp, draws, t);
    FirstCounters(bp, s, t);
  }

  lemma OneSelected(bp: Blueprint)
    requires bp.minPoints == bp.maxPoints == 1
    ensures SelectFrom(OneItem(0), bp.minPoints, Target(bp, 0.0), 0, 0) == [0]
  {
    TargetBounds(bp, 0.0);
  }

  lemma OneOpened(bp: Blueprint, draws: Draws, t: int, v: Visit)
    requires Takes(bp, draws, t, v) && KindsKnown(bp, OneItem(0))
    ensures Opened(bp, draws, OneItem(0), [0], t) == map[(0, 0) := v]
  {
  }

  lemma FirstCounters(bp: Blueprint, s: State, t: int)
    requires |s.items| == 1 && s.counters == InitialCounters(|bp.members|, 1, 0, s.visits)
    requires 0 in s.sprints && s.sprints[0].phase.Running? && s.sprints[0].end == 2000
    ensures VisitOrdinal(0) in s.counters && s.counters[VisitOrdinal(0)] == (if (0, 0) in s.visits then 1 else 0)
    ensures OpenOrdinal(s) in s.sprints && NextBoundary(s) == 2000
  {
    InitialKnown(bp, OneItem(0), t, 0, s);
  }

  lemma FirstBoundary(bp: Blueprint)
    requires bp.calendar == TwoDays() && bp.anchor == 0 && bp.cadenceDays == 2
    ensures CadenceBoundary(bp.calendar, bp.anchor, bp.cadenceDays, 0) == 0
    ensures CadenceBoundary(bp.calendar, bp.anchor, bp.cadenceDays, 1) == 2000
  {
  }

  lemma FirstRunning(bp: Blueprint, draws: Draws, t: int)
    requires KindsKnown(bp, OneItem(0)) && CadenceBoundary(bp.calendar, bp.anchor, bp.cadenceDays, 0) == 0 <= t
    ensures var s := NightStart(bp, draws, t);
            && |s.items| == 1 && s.counters == InitialCounters(|bp.members|, 1, 0, s.visits)
            && 0 in s.sprints && s.sprints[0].phase.Running?
            && s.sprints[0].end == CadenceBoundary(bp.calendar, bp.anchor, bp.cadenceDays, 1)
  {
  }

  lemma InFirstSprint(bp: Blueprint, t: int)
    requires Nightly(bp) && 0 <= t < 5
    ensures Contains(bp, 0, t)
  {
    FirstBoundary(bp);
  }

  lemma NightReachable(bp: Blueprint, draws: Draws, t: int)
    requires Nightly(bp) && ValidDraws(draws) && 0 <= t < 5 && 0 in bp.routes
    ensures KindsKnown(bp, OneItem(0)) && Reachable(bp, NightStart(bp, draws, t)) && Sound(bp, NightStart(bp, draws, t))
  {
    KindsFresh(bp, OneItem(0));
    InFirstSprint(bp, t);
    FirstReachable(bp, NightStart(bp, draws, t), draws, OneItem(0), 0);
  }

  // ---------- What a tick of this team does ----------

  lemma NoWorkdayRule(bp: Blueprint, s: State, e: int)
    requires bp.rules == [WaitRule()]
    ensures !WorkdayRules(bp) && NotPast(bp, s, e)
  {
  }

  lemma NotCut(bp: Blueprint, s: State, r: int)
    requires Nightly(bp) && s.cursor <= r && SprintBound(s, r) == r
    ensures EffectiveEnd(bp, s, r) == r && NotPast(bp, s, r)
  {
    NoWorkdayRule(bp, s, r);
  }

  /** No sprint boundary and no workday rule cuts these ticks short. */
  lemma AsAsked(bp: Blueprint, draws: Draws, s: State, v: Visit, r: int)
    requires Nightly(bp) && Sound(bp, s) && Alone(s, v) && s.cursor <= r <= 1000
    ensures StepReady(bp, s) && EffectiveEnd(bp, s, r) == r && NotPast(bp, s, r) && CrossBoundary(bp, draws, s, s.cursor).None?
  {
    SoundParts(bp, s);
    var first: nat :| Invariant(bp, s.cursor, s, first);
    BoundaryFar(bp, draws, s, first, r);
    NotCut(bp, s, r);
  }

  lemma BoundaryFar(bp: Blueprint, draws: Draws, s: State, first: nat, r: int)
    requires SprintsOk(bp, s.cursor, s, first) && KindsKnown(bp, s.items) && s.cursor <= r <= 1000 && NextBoundary(s) == 2000
    ensures SprintBound(s, r) == r && CrossBoundary(bp, draws, s, s.cursor).None?
  {
    SprintBoundIs(bp, s.cursor, s, first, r);
    CrossingDue(bp, draws, s.cursor, s, first, s.cursor);
  }

  ghost function Waited(bp: Blueprint, draws: Draws, s: State, v: Visit, e: int): Visit {
    PauseFor(v, WaitDelta(bp, draws, WaitRule(), s, e, v))
  }

  lemma RulesDo(bp: Blueprint, draws: Draws, s: State, v: Visit, e: int)
    requires Nightly(bp) && Alone(s, v)
    ensures Evaluate(bp, draws, s, e, |bp.rules|) == Evaluation(s.(visits := map[(0, 0) := Waited(bp, draws, s, v, e)]), [], [])
  {
    assert WaitVisits(bp, draws, WaitRule(), s, e) == map[(0, 0) := Waited(bp, draws, s, v, e)];
    assert Evaluate(bp, draws, s, e, 0) == Evaluation(s, [], []);
  }

  ghost function SlotFor(v: Visit, w: Visit): Slot {
    if w.pause > v.pause then Held(w) else Busy(w, None)
  }

  lemma AloneSlot(s: State, v: Visit, w: Visit)
    requires Alone(s, v) && w.open
    ensures SlotsOf(s, s.(visits := map[(0, 0) := w])) == [SlotFor(v, w)]
  {
    var working := s.(visits := map[(0, 0) := w]);
    assert FindOpen(working.visits, 0, 1) == Some(0);
    assert SlotAt(s, working, 0) == SlotFor(v, w);
  }

  /** The lane a tick of this team starts from. */
  lemma AloneLane(bp: Blueprint, draws: Draws, s: State, v: Visit, w: Visit, e: int)
    requires Nightly(bp) && TickReady(bp, s) && NotPast(bp, s, e) && s.cursor <= e && Alone(s, v) && w == Waited(bp, draws, s, v, e) && w.open
    ensures Staffed(bp, [SlotFor(v, w)]) && Forward(SegmentsOf(bp, [], s.cursor, e))
    ensures var a, run := Attempt(bp, draws, s, e), Walk(bp, [], Lane([SlotFor(v, w)], s.book, []), SegmentsOf(bp, [], s.cursor, e), e);
            a == Attempted(Evaluation(s.(visits := map[(0, 0) := w]), [], []), run.0, run.1)
  {
    AttemptReady(bp, draws, s, e);
    RulesDo(bp, draws, s, v, e);
    AloneSlot(s, v, w);
  }

  lemma NoWindows(bp: Blueprint)
    requires Nightly(bp)
    ensures TeamWindows(bp, [], |bp.members|) == []
  {
    assert MemberWindows(bp, [], 0) == [];
    assert TeamWindows(bp, [], 1) == TeamWindows(bp, [], 0) + [];
  }

  lemma FirstDay(bp: Blueprint, e: int)
    requires Nightly(bp) && 2 <= e <= 10
    ensures SegmentsOf(bp, [], 0, e) == [Segment(0, 0, 2)]
  {
    NoWindows(bp);
    FirstHours(bp.calendar, e);
    if e > 5 {
      NoSecondDay(bp.calendar, e);
    }
  }

  lemma FirstHours(c: Calendar, e: int)
    requires c == TwoDays() && 2 <= e <= 10
    ensures SegmentsUpTo(c, [], 0, e, 0, 1) == [Segment(0, 0, 2)]
  {
    assert Boundaries([], 0, 2) == [0, 2];
    assert Pieces(0, [0, 2]) == [Segment(0, 0, 2)];
    assert SegmentsUpTo(c, [], 0, e, 0, 1) == [] + DaySegments(c, [], 0, e, 0);
  }

  lemma NoSecondDay(c: Calendar, e: int)
    requires c == TwoDays() && 5 < e <= 10
    ensures SegmentsUpTo(c, [], 0, e, 0, 2) == SegmentsUpTo(c, [], 0, e, 0, 1)
  {
    assert DaySegments(c, [], 0, e, 1) == [];
  }

  lemma SecondDay(bp: Blueprint, e: int)
    requires Nightly(bp) && 10 < e <= 1000
    ensures SegmentsOf(bp, [], 10, e) == [Segment(1, 10, e)]
  {
    NoWindows(bp);
    SecondHours(bp.calendar, e);
  }

  lemma SecondHours(c: Calendar, e: int)
    requires c == TwoDays() && 10 < e <= 1000
    ensures SegmentsUpTo(c, [], 10, e, 1, 2) == [Segment(1, 10, e)]
  {
    assert Boundaries([], 10, e) == [10, e];
    assert Pieces(1, [10, e]) == [Segment(1, 10, e)];
    assert SegmentsUpTo(c, [], 10, e, 1, 2) == [] + DaySegments(c, [], 10, e, 1);
  }

  // ---------- The wait goes on over the night ----------

  /** Entered at instant 0, with five microseconds of dwell to serve, and made to wait for five. */
  function TiredVisit(): Visit { OpenedAt(0, 5).(member := None, queue := 5, pause := 5) }

  lemma TiredWaits(bp: Blueprint, draws: Draws, s: State)
    requires Nightly(bp) && s.cursor == 0 && draws.depends(s, 0)
    ensures Waited(bp, draws, s, OpenedAt(0, 5), 10) == TiredVisit()
  {
  }

  /** In the two microseconds of the first day the dwell cannot be served. */
  lemma NothingOnFirstDay(bp: Blueprint, book: Book)
    requires Nightly(bp) && Staffed(bp, [Held(TiredVisit())])
    ensures SegmentBoundary(bp, [], Lane([Held(TiredVisit())], book, []), Segment(0, 0, 2)) == None
    ensures StepSegment(bp, [], Lane([Held(TiredVisit())], book, []), Segment(0, 0, 2)).slots == [Held(TiredVisit())]
  {
    var lane, g := Lane([Held(TiredVisit())], book, []), Segment(0, 0, 2);
    ProbeScannable(bp, [], lane, g);
    StepMoves(bp, [], lane, g);
    var d, after, clocks := DeskFor(bp, [], g), StepSegment(bp, [], lane, g).slots, Clocks(bp.calendar, lane.slots, 0);
    assert Moved(lane.slots[0], after[0]);
    assert after == [Held(TiredVisit())];
    LateOffset(d, clocks[0], ScanTo(d, lane.slots, after, clocks, 0).used);
    ScanIsLeast(d, lane.slots, after, clocks, 1);
    assert OffsetAt(d, lane.slots, after, clocks, 0) == None;
  }

  lemma LateOffset(d: Desk, clock: nat, used: seq<nat>)
    requires |used| == |d.seats| && d.len == 2 && Scannable(d, Held(TiredVisit()), Held(TiredVisit())) && clock <= 5
    ensures Offset(d, Held(TiredVisit()), Held(TiredVisit()), clock, used) == None
  {
  }

  lemma WalkPasses(bp: Blueprint, lane: Lane, segs: seq<Segment>, g: Segment, e: int)
    requires ValidWindows(bp, []) && Staffed(bp, lane.slots) && segs == [g] && g.start <= g.end && SegmentBoundary(bp, [], lane, g).None?
    ensures Forward(segs) && Walk(bp, [], lane, segs, e) == (StepSegment(bp, [], lane, g), e)
  {
    assert segs[1..] == [];
  }

  lemma FirstAttempt(bp: Blueprint, draws: Draws, s: State)
    requires Nightly(bp) && TickReady(bp, s) && NotPast(bp, s, 10) && s.cursor == 0 && Alone(s, OpenedAt(0, 5)) && draws.depends(s, 0)
    ensures var a := Attempt(bp, draws, s, 10);
            a.end == 10 && a.lane.slots == [Held(TiredVisit())] && a.risks == Evaluation(s.(visits := map[(0, 0) := TiredVisit()]), [], [])
  {
    var lane := Lane([Held(TiredVisit())], s.book, []);
    TiredWaits(bp, draws, s);
    AloneLane(bp, draws, s, OpenedAt(0, 5), TiredVisit(), 10);
    FirstDay(bp, 10);
    NothingOnFirstDay(bp, s.book);
    WalkPasses(bp, lane, SegmentsOf(bp, [], 0, 10), Segment(0, 0, 2), 10);
  }

  lemma WorkingHours(u: int)
    ensures Working(TwoDays(), u) <==> 0 <= u < 2 || 10 <= u < 1000
  {
  }

  /** Business time since instant 0. */
  lemma NightClock(t: nat)
    requires t <= 1000
    ensures Count(TwoDays(), 0, t) == if t <= 2 then t else if t <= 10 then 2 else t - 8
  {
    var c := TwoDays();
    forall u ensures Working(c, u) <==> 0 <= u < 2 || 10 <= u < 1000 {
      WorkingHours(u);
    }
    HoursCounted(c, t);
  }

  lemma HoursCounted(c: Calendar, t: nat)
    requires t <= 1000 && forall u :: Working(c, u) <==> 0 <= u < 2 || 10 <= u < 1000
    ensures Count(c, 0, t) == if t <= 2 then t else if t <= 10 then 2 else t - 8
  {
    if t <= 2 {
      CountBusy(c, 0, t);
    } else {
      CountBusy(c, 0, 2);
      CountIdle(c, 2, if t <= 10 then t else 10);
      CountAdds(c, 0, 2, if t <= 10 then t else 10);
      if t > 10 {
        CountBusy(c, 10, t);
        CountAdds(c, 0, 10, t);
      }
    }
  }

  /** A tick that closes nothing leaves the board with its one visit. */
  lemma FinishAlone(bp: Blueprint, draws: Draws, s: State, v: Visit, w: Visit, a: Attempted)
    requires Ticks(bp, draws, s, a) && Placed(bp, a.risks.working.items, a.lane.slots) && Alone(s, v)
    requires a.risks == Evaluation(s.(visits := map[(0, 0) := w]), [], []) && w.open && w.item == 0 && w.ordinal == 0
    requires a.lane.slots == [Held(w)] && !CompleteAt(Held(w), Clock(bp.calendar, Held(w), a.end))
    ensures Alone(Committed(s, FinishTick(bp, draws, a)), w)
  {
    SprintsStay(bp, draws, s, a);
    NothingCloses(bp, draws, a, w);
    TickParts(bp, draws, s, a);
    CountersKnown(bp, s);
    TickCounters(bp, draws, s, a, NextClaims(bp, draws, a.risks.working, a.lane.slots, a.end, |a.lane.slots|));
  }

  lemma NothingCloses(bp: Blueprint, draws: Draws, a: Attempted, w: Visit)
    requires Placed(bp, a.risks.working.items, a.lane.slots) && a.risks.working.visits == map[(0, 0) := w] && w.item == 0 && w.ordinal == 0
    requires a.lane.slots == [Held(w)] && !CompleteAt(Held(w), Clock(bp.calendar, Held(w), a.end))
    ensures FinishItems(bp, draws, a.risks.working, a.lane.slots, a.end) == a.risks.working.items
    ensures VisitsAfter(bp, draws, a) == map[(0, 0) := w] && NextRise(bp, draws, a, 0) == 0
  {
    StaysOpen(bp, draws, a, w);
    forall i: nat, k: nat
      ensures (i, k) in VisitsAfter(bp, draws, a) <==> i == 0 && k == 0
      ensures (i, k) in VisitsAfter(bp, draws, a) ==> VisitsAfter(bp, draws, a)[(i, k)] == w
    {
      FinishKeys(bp, draws, a.risks.working, a.lane.slots, a.end, i, k);
      NextKeys(bp, draws, a.risks.working, a.lane.slots, a.end, i, k);
    }
    OnlyVisit(VisitsAfter(bp, draws, a), w);
  }

  lemma StaysOpen(bp: Blueprint, draws: Draws, a: Attempted, w: Visit)
    requires Placed(bp, a.risks.working.items, a.lane.slots)
    requires a.lane.slots == [Held(w)] && !CompleteAt(Held(w), Clock(bp.calendar, Held(w), a.end))
    ensures ClosingAt(bp, draws, a.risks.working, a.lane.slots, a.end, 0) == Closing(a.risks.working.items[0], w, None)
    ensures FinishItems(bp, draws, a.risks.working, a.lane.slots, a.end) == a.risks.working.items
  {
  }

  lemma OnlyVisit(visits: Visits, w: Visit)
    requires forall i: nat, k: nat :: (i, k) in visits <==> i == 0 && k == 0
    requires forall i: nat, k: nat :: (i, k) in visits ==> visits[(i, k)] == w
    ensures visits == map[(0, 0) := w]
  {
    assert (0, 0) in visits;
    forall key | key in visits ensures key == (0, 0) {
      assert (key.0, key.1) in visits;
    }
  }

  lemma FirstAdvance(bp: Blueprint, draws: Draws, s: State)
    requires Nightly(bp) && Sound(bp, s) && s.cursor == 0 && Alone(s, OpenedAt(0, 5)) && draws.depends(s, 0)
    ensures StepReady(bp, s)
    ensures var t := Committed(s, StepFrom(bp, draws, s, 10)); Alone(t, TiredVisit()) && t.cursor == 10
  {
    AsAsked(bp, draws, s, OpenedAt(0, 5), 10);
    FirstAttempt(bp, draws, s);
    SettledAt(bp, draws, s, 10, 10);
    NightClock(10);
    FinishAlone(bp, draws, s, OpenedAt(0, 5), TiredVisit(), AdvanceFrom(bp, draws, s, 10));
    StepAdvances(bp, draws, s, 10);
  }

  /** What is committed when nothing cuts the tick and the first attempt ends where it was asked to. */
  lemma SettledAt(bp: Blueprint, draws: Draws, s: State, r: int, e: int)
    requires StepReady(bp, s) && s.cursor <= r && EffectiveEnd(bp, s, r) == e && s.cursor <= e && NotPast(bp, s, e)
    requires Attempt(bp, draws, s, e).end == e
    ensures AdvanceFrom(bp, draws, s, r) == Attempt(bp, draws, s, e)
  {
    AlreadySettled(bp, draws, s, e, Attempt(bp, draws, s, e));
  }

  // ---------- The boundary comes too early ----------

  /** The lane of the second day: the wait is over, and its pause is longer than the business time it has
      spanned. */
  ghost function TiredLane(book: Book): Lane { Lane([Busy(TiredVisit(), None)], book, []) }

  lemma WaitOver(bp: Blueprint, draws: Draws, s: State, e: int)
    requires Nightly(bp)
    ensures Waited(bp, draws, s, TiredVisit(), e) == TiredVisit()
  {
  }

  /** The probe predicts completion five microseconds in, as if the pause had been covered. */
  lemma TiredOffset(d: Desk, t: Slot, clock: nat, used: seq<nat>)
    requires |used| == |d.seats| && d.len >= 5 && Scannable(d, Busy(TiredVisit(), None), t) && t.visit.remaining == 0 && clock <= 5
    ensures Offset(d, Busy(TiredVisit(), None), t, clock, used) == Some(5)
  {
  }

  lemma SingleScan(d: Desk, before: seq<Slot>, after: seq<Slot>, clocks: seq<nat>, n: nat)
    requires AllScannable(d, before, after) && |clocks| == |before| == 1
    requires OffsetAt(d, before, after, clocks, 0) == Some(n)
    ensures Boundary(d, before, after, clocks) == Some(n)
  {
    ScanIsLeast(d, before, after, clocks, 1);
  }

  lemma TiredScan(d: Desk, before: seq<Slot>, after: seq<Slot>, clocks: seq<nat>)
    requires AllScannable(d, before, after) && before == [Busy(TiredVisit(), None)] && |clocks| == 1 && clocks[0] == 2
    requires d.len >= 5 && Moved(before[0], after[0])
    ensures Boundary(d, before, after, clocks) == Some(5)
  {
    TiredOffset(d, after[0], clocks[0], ScanTo(d, before, after, clocks, 0).used);
    SingleScan(d, before, after, clocks, 5);
  }

  lemma TiredBoundary(bp: Blueprint, book: Book, e: int)
    requires Nightly(bp) && 15 <= e <= 1000
    ensures Staffed(bp, TiredLane(book).slots) && SegmentBoundary(bp, [], TiredLane(book), Segment(1, 10, e)) == Some(5)
  {
    TiredClock(bp.calendar);
    BoundaryFive(bp, TiredLane(book), Segment(1, 10, e));
  }

  lemma BoundaryFive(bp: Blueprint, lane: Lane, g: Segment)
    requires ValidWindows(bp, []) && lane.slots == [Busy(TiredVisit(), None)] && g.start == 10 && 15 <= g.end
    requires Clock(bp.calendar, Busy(TiredVisit(), None), 10) == 2
    ensures Staffed(bp, lane.slots) && SegmentBoundary(bp, [], lane, g) == Some(5)
  {
    ProbeScannable(bp, [], lane, g);
    StepMoves(bp, [], lane, g);
    TiredScan(DeskFor(bp, [], g), lane.slots, StepSegment(bp, [], lane, g).slots, Clocks(bp.calendar, lane.slots, g.start));
  }

  lemma TiredClock(c: Calendar)
    requires c == TwoDays()
    ensures Clock(c, Busy(TiredVisit(), None), 10) == 2
  {
    NightClock(10);
  }

  lemma WalkStops(bp: Blueprint, lane: Lane, segs: seq<Segment>, g: Segment, e: int, n: nat)
    requires ValidWindows(bp, []) && Staffed(bp, lane.slots) && segs == [g] && g.start <= g.end && SegmentBoundary(bp, [], lane, g) == Some(n)
    ensures Forward(segs) && Walk(bp, [], lane, segs, e) == (StepSegment(bp, [], lane, Cut(g, n)), g.start + n)
  {
  }

  lemma SecondAttempt(bp: Blueprint, draws: Draws, s: State, e: int)
    requires Nightly(bp) && TickReady(bp, s) && NotPast(bp, s, e) && s.cursor == 10 && Alone(s, TiredVisit()) && 15 <= e <= 1000
    ensures Staffed(bp, TiredLane(s.book).slots)
    ensures var a := Attempt(bp, draws, s, e);
            a.end == 15 && a.lane == StepSegment(bp, [], TiredLane(s.book), Segment(1, 10, 15))
  {
    WaitOver(bp, draws, s, e);
    AloneLane(bp, draws, s, TiredVisit(), TiredVisit(), e);
    SecondDay(bp, e);
    TiredBoundary(bp, s.book, e);
    WalkStops(bp, TiredLane(s.book), SegmentsOf(bp, [], 10, e), Segment(1, 10, e), e, 5);
  }

  lemma SecondAdvance(bp: Blueprint, draws: Draws, s: State)
    requires Nightly(bp) && Sound(bp, s) && s.cursor == 10 && Alone(s, TiredVisit())
    ensures StepReady(bp, s) && Staffed(bp, TiredLane(s.book).slots)
    ensures var a := AdvanceFrom(bp, draws, s, 30);
            a.end == 15 && a.lane == StepSegment(bp, [], TiredLane(s.book), Segment(1, 10, 15))
  {
    AsAsked(bp, draws, s, TiredVisit(), 30);
    SecondAttempt(bp, draws, s, 30);
    NotPastSooner(bp, s, 30, 15);
    SecondAttempt(bp, draws, s, 15);
    StableNext(bp, draws, s, 30, 15);
    AlreadySettled(bp, draws, s, 15, Attempt(bp, draws, s, 15));
  }

  lemma TiredPause(bp: Blueprint, book: Book, t: nat)
    requires Nightly(bp) && 10 <= t && Staffed(bp, TiredLane(book).slots)
    ensures var after := StepSegment(bp, [], TiredLane(book), Segment(1, 10, t)).slots;
            |after| == 1 && after[0].Busy? && after[0].visit.pause == 5 && after[0].visit.remaining == 0
            && after[0].visit.entered == 0 && after[0].visit.dwell == 5
  {
    SegmentEffect(DeskFor(bp, [], Segment(1, 10, t)), DaySpent(bp, book, 1), TiredLane(book).slots, 0);
  }

  /** On the second day the visit is complete exactly from instant 18 on. */
  lemma TiredStep(bp: Blueprint, book: Book, t: nat)
    requires Nightly(bp) && 10 <= t <= 1000 && Staffed(bp, TiredLane(book).slots)
    ensures CompleteNow(bp.calendar, StepSegment(bp, [], TiredLane(book), Segment(1, 10, t)).slots, t) <==> t >= 18
  {
    var after := StepSegment(bp, [], TiredLane(book), Segment(1, 10, t)).slots;
    TiredPause(bp, book, t);
    NightClock(t);
    assert CompleteAt(after[0], Clock(bp.calendar, after[0], t)) <==> t >= 18;
  }

  lemma AtInside(bp: Blueprint, lane: Lane, segs: seq<Segment>, g: Segment, t: int)
    requires ValidWindows(bp, []) && Staffed(bp, lane.slots) && segs == [g] && g.start < t < g.end
    ensures Forward(segs) && At(bp, [], lane, segs, t) == StepSegment(bp, [], lane, Segment(g.day, g.start, t))
    ensures At(bp, [], lane, segs, g.start) == lane
  {
  }

  lemma TiredAtStart(bp: Blueprint, book: Book, at: Lane)
    requires Nightly(bp) && at == TiredLane(book)
    ensures !CompleteNow(bp.calendar, at.slots, 10)
  {
    TiredClock(bp.calendar);
  }

  lemma TiredAtLater(bp: Blueprint, book: Book, at: Lane, t: nat)
    requires Nightly(bp) && 10 < t <= 18 && Staffed(bp, TiredLane(book).slots)
    requires at == StepSegment(bp, [], TiredLane(book), Segment(1, 10, t))
    ensures CompleteNow(bp.calendar, at.slots, t) <==> t == 18
  {
    TiredStep(bp, book, t);
  }

  lemma TiredAt(bp: Blueprint, book: Book, segs: seq<Segment>, t: nat)
    requires Nightly(bp) && 10 <= t <= 18 && Staffed(bp, TiredLane(book).slots) && segs == [Segment(1, 10, 30)]
    ensures Forward(segs) && (CompleteNow(bp.calendar, At(bp, [], TiredLane(book), segs, t).slots, t) <==> t == 18)
  {
    if t == 10 {
      AtInside(bp, TiredLane(book), segs, segs[0], 11);
      TiredAtStart(bp, book, At(bp, [], TiredLane(book), segs, t));
    } else {
      AtInside(bp, TiredLane(book), segs, segs[0], t);
      TiredAtLater(bp, book, At(bp, [], TiredLane(book), segs, t), t);
    }
  }

  /** In the reference run from the second morning the first completion comes at 18. */
  lemma FirstAtEighteen(bp: Blueprint, book: Book, segs: seq<Segment>)
    requires Nightly(bp) && Staffed(bp, TiredLane(book).slots) && segs == [Segment(1, 10, 30)]
    ensures Forward(segs) && IsFirst(bp, [], TiredLane(book), segs, 10, 30, 18)
  {
    forall t | 10 <= t <= 18
      ensures Forward(segs) && (CompleteNow(bp.calendar, At(bp, [], TiredLane(book), segs, t).slots, t) <==> t == 18)
    {
      TiredAt(bp, book, segs, t);
    }
  }

  /** A run of this team: it starts at instant 0, and is asked to tick to 10. */
  lemma TiredRun(bp: Blueprint, draws: Draws) returns (s: State)
    requires Nightly(bp) && ValidDraws(draws) && Takes(bp, draws, 0, OpenedAt(0, 5)) && draws.target(0) == 0.0
    requires forall t: State :: draws.depends(t, 0)
    ensures Reachable(bp, s) && Sound(bp, s) && s.cursor == 10 && Alone(s, TiredVisit())
  {
    NightStarts(bp, draws, 0, OpenedAt(0, 5));
    NightReachable(bp, draws, 0);
    var start := NightStart(bp, draws, 0);
    FirstAdvance(bp, draws, start);
    SoundReadable(bp, draws, start, 10);
    TickStepSound(bp, draws, start, 10);
    s := Committed(start, StepFrom(bp, draws, start, 10));
    NextReachable(bp, start, Ticked(draws, 10), s);
  }

  /** From s, at 10, a tick asked to go to 30 ends at 15, where nothing is complete, although from the same
      slots, over the one segment of the same stretch, the first completion comes at 18. */
  ghost predicate StopsTooEarly(bp: Blueprint, draws: Draws, s: State) {
    && StepReady(bp, s) && s.cursor == 10 && ValidWindows(bp, []) && Staffed(bp, TiredLane(s.book).slots)
    && SlotsOf(s, s) == TiredLane(s.book).slots && SegmentsOf(bp, [], 10, 30) == [Segment(1, 10, 30)]
    && AdvanceFrom(bp, draws, s, 30).end == 15 && !CompleteNow(bp.calendar, AdvanceFrom(bp, draws, s, 30).lane.slots, 15)
    && IsFirst(bp, [], TiredLane(s.book), [Segment(1, 10, 30)], 10, 30, 18)
  }

  /** A team can get into such a state. */
  lemma EndsTooEarly() returns (s: State)
    ensures var bp, draws := NightTeam(), NightDraws(5, true);
            Nightly(bp) && ValidDraws(draws) && Reachable(bp, s) && Sound(bp, s) && StopsTooEarly(bp, draws, s)
  {
    var bp, draws := NightTeam(), NightDraws(5, true);
    NightTeamNightly();
    NightTakes(0, 5, true);
    s := TiredRun(bp, draws);
    TiredStops(bp, draws, s);
  }

  lemma TiredStops(bp: Blueprint, draws: Draws, s: State)
    requires Nightly(bp) && Sound(bp, s) && s.cursor == 10 && Alone(s, TiredVisit())
    ensures StopsTooEarly(bp, draws, s)
  {
    SecondAdvance(bp, draws, s);
    TiredStep(bp, s.book, 15);
    FirstAtEighteen(bp, s.book, [Segment(1, 10, 30)]);
    AloneSlot(s, TiredVisit(), TiredVisit());
    assert s.(visits := map[(0, 0) := TiredVisit()]) == s;
    SecondDay(bp, 30);
  }

  // ---------- Complete at night ----------

  /** Opened at instant 3, with nothing to do: complete at once, while the team is closed. */
  lemma NightComplete(bp: Blueprint, draws: Draws, s: State, e: int)
    requires Nightly(bp) && s.cursor == 3 && Alone(s, OpenedAt(3, 0)) && !draws.depends(s, 0)
    ensures CompleteFor(bp, draws, s, e, 0) && !Working(bp.calendar, 3)
  {
    RulesDo(bp, draws, s, OpenedAt(3, 0), e);
    AloneSlot(s, OpenedAt(3, 0), OpenedAt(3, 0));
    WorkingHours(3);
  }

  lemma NightEnds(bp: Blueprint, draws: Draws, s: State, r: int)
    requires Nightly(bp) && Sound(bp, s) && s.cursor == 3 && Alone(s, OpenedAt(3, 0)) && !draws.depends(s, 0) && 3 <= r <= 1000
    ensures StepReady(bp, s) && AdvanceFrom(bp, draws, s, r).end == if r <= 10 then r else 10
    ensures CompleteNow(bp.calendar, AdvanceFrom(bp, draws, s, r).lane.slots, AdvanceFrom(bp, draws, s, r).end)
  {
    AsAsked(bp, draws, s, OpenedAt(3, 0), r);
    NightComplete(bp, draws, s, r);
    CompleteWaits(bp, draws, s, r, 0);
    var a := AdvanceFrom(bp, draws, s, r);
    FirstOpening(r, a.end);
    NightComplete(bp, draws, s, a.end);
    CompleteCloses(bp, draws, s, a, 0);
  }

  lemma FirstOpening(r: int, x: int)
    requires 3 <= r && OpensAt(TwoDays(), 3, r, x)
    ensures x == if r <= 10 then r else 10
  {
    forall u ensures Working(TwoDays(), u) <==> 0 <= u < 2 || 10 <= u < 1000 {
      WorkingHours(u);
    }
    assert x > 10 ==> Working(TwoDays(), 10);
  }

  /** A team can start in a state with a visit complete at the cursor while the team is closed; the visit is
      then closed wherever the tick was asked to end, up to the next morning. */
  lemma ClosesWhenAsked() returns (s: State)
    ensures var bp, draws := NightTeam(), NightDraws(0, false);
            && Nightly(bp) && ValidDraws(draws) && Reachable(bp, s) && Sound(bp, s) && s.cursor == 3 && StepReady(bp, s)
            && CompleteNow(bp.calendar, SlotsOf(s, s), 3)
            && forall r :: 3 <= r <= 1000 ==>
                 var a := AdvanceFrom(bp, draws, s, r);
                 a.end == (if r <= 10 then r else 10) && CompleteNow(bp.calendar, a.lane.slots, a.end)
  {
    var bp, draws := NightTeam(), NightDraws(0, false);
    NightTeamNightly();
    NightTakes(3, 0, false);
    NightStarts(bp, draws, 3, OpenedAt(3, 0));
    NightReachable(bp, draws, 3);
    s := NightStart(bp, draws, 3);
    NightClosings(bp, draws, s);
  }

  lemma NightClosings(bp: Blueprint, draws: Draws, s: State)
    requires Nightly(bp) && Sound(bp, s) && s.cursor == 3 && Alone(s, OpenedAt(3, 0)) && !draws.depends(s, 0)
    ensures StepReady(bp, s) && CompleteNow(bp.calendar, SlotsOf(s, s), 3)
    ensures forall r :: 3 <= r <= 1000 ==>
              var a := AdvanceFrom(bp, draws, s, r);
              a.end == (if r <= 10 then r else 10) && CompleteNow(bp.calendar, a.lane.slots, a.end)
  {
    SoundParts(bp, s);
    AloneSlot(s, OpenedAt(3, 0), OpenedAt(3, 0));
    assert s.(visits := map[(0, 0) := OpenedAt(3, 0)]) == s;
    assert CompleteAt(SlotsOf(s, s)[0], Clock(bp.calendar, SlotsOf(s, s)[0], 3));
    forall r | 3 <= r <= 1000
      ensures var a := AdvanceFrom(bp, draws, s, r);
              a.end == (if r <= 10 then r else 10) && CompleteNow(bp.calendar, a.lane.slots, a.end)
    {
      NightEnds(bp, draws, s, r);
    }
  }
}
