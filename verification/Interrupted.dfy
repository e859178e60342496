/** What polling does to a team whose restart was broken off: visits opened by the restart are entered
    after the cursor, and a tick works on them all the same, until it has to read one of their clocks. */
module Interrupted {
  import opened BusinessCalendar
  import opened Days
  import opened Allocation
  import opened Team
  import opened Segments
  import opened Completion
  import opened FirstCompletion
  import opened Commands
  import opened Routes
  import opened Scope
  import opened RunInvariant
  import opened Lifecycle
  import opened SprintRun
  import opened Bootstrap
  import opened Risks
  import opened RiskLaws
  import opened Tick
  import opened Finish
  import opened TickLaws
  import opened TickRun
  import opened Steps
  import opened Restart
  import opened Histories
  import opened Loops

  // ---------- The team ----------

  /** One long day. */
  function LongDay(): Calendar {
    EqualDays(20_000, 0, d => if d == 0 then Some(Interval(0, 10_000)) else None, 10_000)
  }

  lemma LongDayValid()
    ensures Valid(LongDay()) && ValidClock(LongDay())
  {
    EqualDaysValid(20_000, 0, LongDay().work, 10_000);
  }

  /** One member, one working status, no rules, one point a sprint, sprints from instant 500. */
  function LateTeam(): Blueprint {
    Blueprint(LongDay(), [Member(5000, 1, map[0 := 1.0], [])], map[0 := Status(true, false), 1 := Status(false, false)],
              map[0 := [Step(0, Some(0)), Step(1, None)]], [], 1, 1, 500, 1)
  }

  ghost predicate Late(bp: Blueprint) {
    && ValidBlueprint(bp) && ValidWindows(bp, []) && bp.calendar == LongDay() && bp.rules == []
    && |bp.members| == 1 && bp.members[0] == Member(5000, 1, map[0 := 1.0], []) && 0 !in PausingStatuses(bp)
    && bp.minPoints == bp.maxPoints == 1 && bp.anchor == 500 && bp.cadenceDays == 1
  }

  lemma LateTeamRoutes()
    ensures ValidRoutes(LateTeam())
  {
    var bp := LateTeam();
    assert FirstCapable(bp, 0, 0) == Some(0);
    assert ValidRoute(bp, bp.routes[0]);
  }

  lemma LateTeamLate()
    ensures Late(LateTeam())
  {
    LongDayValid();
    LateTeamRoutes();
  }

  /** This much touch, no dwell, nothing goes wrong. */
  function TouchDraws(touch: nat): Draws {
    Draws((i, k, status) => touch, (i, k, status) => 0, k => 0.0, (s, i) => false, (s, i) => false, (s, i) => 0)
  }

  function EarlyVisit(touch: nat): Visit {
    Visit(0, 0, true, 0, 0, Some(0), 500, None, touch, 0, touch, 0, 0, 0, 0)
  }

  ghost predicate Activates(bp: Blueprint, draws: Draws, touch: nat) {
    && 0 in bp.routes && |bp.routes[0]| > 0
    && Activate(bp, draws, 0, OneItem(0)[0], 500) == Move(OneItem(0)[0].(life := Active, status := 0), Some(EarlyVisit(touch)))
  }

  lemma LateActivates(touch: nat)
    ensures Activates(LateTeam(), TouchDraws(touch), touch)
  {
    var bp := LateTeam();
    assert FirstCapable(bp, 0, 0) == Some(0);
    assert NextTimed(bp, bp.routes[0], 0) == Some(0);
  }

  // ---------- A restart broken off after one crossing ----------

  ghost function LateStart(bp: Blueprint, draws: Draws): State
    requires KindsKnown(bp, OneItem(0))
  {
    InitialState(bp, draws, OneItem(0), 0, 0)
  }

  /** Waiting at instant 0 for the first sprint, which starts at 500. */
  ghost predicate Planned(s: State) {
    && s.cursor == 0 && s.items == OneItem(0) && s.visits == map[] && s.book == map[] && s.overlays == []
    && OpenOrdinal(s) in s.sprints && s.sprints[OpenOrdinal(s)].phase.Planned? && NextBoundary(s) == 500
    && s.sprints[OpenOrdinal(s)].end >= 10_000
  }

  lemma LateStarts(bp: Blueprint, draws: Draws)
    requires Late(bp) && 0 in bp.routes && ValidDraws(draws)
    ensures KindsKnown(bp, OneItem(0)) && Planned(LateStart(bp, draws)) && Reachable(bp, LateStart(bp, draws)) && Sound(bp, LateStart(bp, draws))
  {
    KindsFresh(bp, OneItem(0));
    InitialKnown(bp, OneItem(0), 0, 0, LateStart(bp, draws));
    assert Contains(bp, 0, 0);
    FirstReachable(bp, LateStart(bp, draws), draws, OneItem(0), 0);
  }

  /** The board the broken-off restart leaves: one visit, entered at 500, with the cursor still at 0. */
  ghost predicate Early(s: State, v: Visit) {
    && s.cursor == 0 && |s.items| == 1 && s.items[0].life.Active? && s.visits == map[(0, 0) := v] && v.open
    && s.book == map[] && s.overlays == [] && VisitOrdinal(0) in s.counters && s.counters[VisitOrdinal(0)] == 1
    && OpenOrdinal(s) in s.sprints && NextBoundary(s) >= 10_000
  }

  lemma NotedPlanned(s: State)
    requires Planned(s)
    ensures Planned(Noted(s))
  {
  }

  lemma CrossingActivates(bp: Blueprint, draws: Draws, now: int, s: State, first: nat)
    requires SprintsOk(bp, now, s, first) && KindsKnown(bp, s.items) && Planned(s)
    ensures CrossNext(bp, draws, s) == Committed(s, ActivateSprint(bp, draws, s, OpenOrdinal(s), 500))
  {
    CrossingDue(bp, draws, now, s, first, 500);
  }

  lemma ActivationOpens(bp: Blueprint, draws: Draws, s: State, k: nat, touch: nat)
    requires bp.minPoints == bp.maxPoints == 1 && KindsKnown(bp, s.items) && Planned(s) && k in s.sprints
    requires Activates(bp, draws, touch) && draws.target(k) == 0.0
    ensures var after := Committed(s, ActivateSprint(bp, draws, s, k, 500));
            && after.cursor == 0 && after.items == [OneItem(0)[0].(life := Active, status := 0)]
            && after.visits == map[(0, 0) := EarlyVisit(touch)] && after.book == map[] && after.overlays == []
  {
    TargetBounds(bp, 0.0);
    assert SelectFrom(OneItem(0), 1, 1, 0, 0) == [0];
    OpensOne(bp, draws, touch);
  }

  lemma CrossingOpens(bp: Blueprint, draws: Draws, now: int, s: State, first: nat, touch: nat)
    requires Late(bp) && Invariant(bp, now, s, first) && KindsKnown(bp, s.items) && Planned(s)
    requires Activates(bp, draws, touch) && draws.target(OpenOrdinal(s)) == 0.0
    ensures Early(CrossNext(bp, draws, s), EarlyVisit(touch))
  {
    CrossingActivates(bp, draws, now, s, first);
    ActivationOpens(bp, draws, s, OpenOrdinal(s), touch);
    CrossingEnds(bp, draws, now, s, first);
    OneCounted(bp, CrossNext(bp, draws, s), EarlyVisit(touch));
  }

  lemma CrossingEnds(bp: Blueprint, draws: Draws, now: int, s: State, first: nat)
    requires Late(bp) && Invariant(bp, now, s, first) && KindsKnown(bp, s.items) && Planned(s)
    ensures var after := CrossNext(bp, draws, s);
            ItemsOk(bp, after) && OpenOrdinal(after) in after.sprints && NextBoundary(after) >= 10_000
  {
    CrossingActivates(bp, draws, now, s, first);
    CrossingSound(bp, draws, now, s, first);
    ActivatedSprint(bp, draws, s, OpenOrdinal(s), 500);
    ActivationCounter(bp, draws, now, s, first, 500);
  }

  lemma CrossingSound(bp: Blueprint, draws: Draws, now: int, s: State, first: nat)
    requires Late(bp) && Invariant(bp, now, s, first) && KindsKnown(bp, s.items) && Planned(s)
    ensures ItemsOk(bp, CrossNext(bp, draws, s))
  {
    CrossingKeeps(bp, draws, now, s, first, 500);
  }

  lemma OneCounted(bp: Blueprint, s: State, v: Visit)
    requires ItemsOk(bp, s) && |s.items| == 1 && s.visits == map[(0, 0) := v]
    ensures VisitOrdinal(0) in s.counters && s.counters[VisitOrdinal(0)] == 1
  {
    assert ItemHolds(bp, s, 0);
    var n := s.counters[VisitOrdinal(0)];
    assert (0, 0) in s.visits && (0, 1) !in s.visits;
    assert n > 0 ==> (0, n - 1) in s.visits;
  }

  lemma OpensOne(bp: Blueprint, draws: Draws, touch: nat)
    requires Activates(bp, draws, touch) && KindsKnown(bp, OneItem(0))
    ensures Opened(bp, draws, OneItem(0), [0], 500) == map[(0, 0) := EarlyVisit(touch)]
    ensures Activated(bp, draws, OneItem(0), [0], 500) == [OneItem(0)[0].(life := Active, status := 0)]
  {
  }

  /** A restart at 600, broken off after its one crossing. */
  lemma BreaksOff(bp: Blueprint, draws: Draws, s: State, touch: nat)
    requires Late(bp) && Sound(bp, s) && Planned(s) && Activates(bp, draws, touch) && forall k :: draws.target(k) == 0.0
    ensures AllDue(bp, draws, s, 600, 1) && Early(LeftAfter(bp, draws, s, 1), EarlyVisit(touch))
  {
    SoundParts(bp, s);
    NotedPlanned(s);
    var first: nat :| Invariant(bp, s.cursor, s, first);
    NotedResumes(bp, s, s.cursor, first);
    NoneLeft(bp, draws, s);
    CrossingOpens(bp, draws, s.cursor, Noted(s), first, touch);
    assert CrossTimes(bp, draws, Noted(s), 1) == CrossNext(bp, draws, CrossTimes(bp, draws, Noted(s), 0));
  }

  /** A team can get into such a state. */
  lemma EarlyReachable(bp: Blueprint, draws: Draws, touch: nat) returns (s: State)
    requires Late(bp) && 0 in bp.routes && ValidDraws(draws) && Activates(bp, draws, touch) && forall k :: draws.target(k) == 0.0
    ensures Reachable(bp, s) && Early(s, EarlyVisit(touch)) && Standing(bp, s, 500)
  {
    LateStarts(bp, draws);
    var start := LateStart(bp, draws);
    BreaksOff(bp, draws, start, touch);
    s := LeftAfter(bp, draws, start, 1);
    NextReachable(bp, start, Event.Interrupted(draws, 600, 1), s);
    EarlyStands(bp, draws, start);
  }

  lemma EarlyStands(bp: Blueprint, draws: Draws, s: State)
    requires Late(bp) && Sound(bp, s) && Planned(s) && AllDue(bp, draws, s, 600, 1)
    ensures Standing(bp, LeftAfter(bp, draws, s, 1), 500)
  {
    var first: nat :| Invariant(bp, s.cursor, s, first);
    NotedPlanned(s);
    NotedResumes(bp, s, s.cursor, first);
    NoneLeft(bp, draws, s);
    PartStep(bp, draws, s, s.cursor, first, 0, Noted(s));
  }

  // ---------- A tick from there ----------

  lemma NotCut(bp: Blueprint, s: State, r: int)
    requires Late(bp) && s.cursor <= r && SprintBound(s, r) == r
    ensures EffectiveEnd(bp, s, r) == r && NotPast(bp, s, r)
  {
  }

  lemma BoundaryFar(bp: Blueprint, draws: Draws, s: State, now: int, first: nat, r: int)
    requires SprintsOk(bp, now, s, first) && KindsKnown(bp, s.items) && s.cursor <= now
    requires s.cursor <= r <= 10_000 && s.cursor < NextBoundary(s) && NextBoundary(s) >= 10_000
    ensures SprintBound(s, r) == r && CrossBoundary(bp, draws, s, s.cursor).None?
  {
    SprintBoundIs(bp, now, s, first, r);
    CrossingDue(bp, draws, now, s, first, s.cursor);
  }

  lemma EarlyTicks(bp: Blueprint, draws: Draws, s: State, v: Visit, r: int)
    requires Late(bp) && Standing(bp, s, 500) && Early(s, v) && 0 <= r <= 10_000
    ensures StepReady(bp, s) && EffectiveEnd(bp, s, r) == r && NotPast(bp, s, r) && CrossBoundary(bp, draws, s, s.cursor).None?
  {
    StandingParts(bp, s, 500);
    var first: nat :| Invariant(bp, 500, s, first) && s.cursor <= 500 <= NextBoundary(s);
    BoundaryFar(bp, draws, s, 500, first, r);
    NotCut(bp, s, r);
  }

  lemma OneStretch(c: Calendar, r: int)
    requires c == LongDay() && 0 < r <= 10_000
    ensures SegmentsUpTo(c, [], 0, r, 0, 1) == [Segment(0, 0, r)]
  {
    assert Boundaries([], 0, r) == [0, r];
    assert Pieces(0, [0, r]) == [Segment(0, 0, r)];
    assert SegmentsUpTo(c, [], 0, r, 0, 1) == [] + DaySegments(c, [], 0, r, 0);
  }

  lemma NoWindows(bp: Blueprint)
    requires |bp.members| == 1 && bp.members[0].windows == []
    ensures TeamWindows(bp, [], 1) == []
  {
    assert MemberWindows(bp, [], 0) == [];
    assert TeamWindows(bp, [], 1) == TeamWindows(bp, [], 0) + [];
  }

  lemma EarlySegments(bp: Blueprint, r: int)
    requires Late(bp) && 0 < r <= 10_000
    ensures SegmentsOf(bp, [], 0, r) == [Segment(0, 0, r)]
  {
    NoWindows(bp);
    OneStretch(bp.calendar, r);
  }

  ghost function EarlyLane(v: Visit): Lane { Lane([Busy(v, None)], map[], []) }

  lemma EarlySlot(s: State, v: Visit)
    requires Early(s, v)
    ensures SlotsOf(s, s) == [Busy(v, None)]
  {
    assert FindOpen(s.visits, 0, 1) == Some(0);
    assert SlotAt(s, s, 0) == Busy(v, None);
  }

  lemma EarlyAttempt(bp: Blueprint, draws: Draws, s: State, v: Visit, r: int)
    requires Late(bp) && TickReady(bp, s) && NotPast(bp, s, r) && Early(s, v) && 0 < r <= 10_000
    ensures Staffed(bp, EarlyLane(v).slots) && Forward([Segment(0, 0, r)])
    ensures var run := Walk(bp, [], EarlyLane(v), [Segment(0, 0, r)], r);
            Attempt(bp, draws, s, r) == Attempted(Evaluation(s, [], []), run.0, run.1)
    ensures AttemptReadable(bp, draws, s, r) <==>
              ClosedInOrder(s.visits, s.visits) && WalkReadable(bp, [], EarlyLane(v), [Segment(0, 0, r)])
  {
    AttemptReady(bp, draws, s, r);
    EarlySlot(s, v);
    EarlySegments(bp, r);
    assert Evaluate(bp, draws, s, r, |bp.rules|) == Evaluation(s, [], []);
  }

  // ---------- What the member works ----------

  /** A full-time member with room takes a segment's labor from the one visit they own. */
  lemma OneWorks(d: Desk, spent: seq<nat>, v: Visit)
    requires ValidDesk(d) && |d.seats| == |spent| == 1 && ValidSlots(d, [Busy(v, None)]) && spent[0] == 0
    requires d.seats[0].available == d.len > 0 && d.seats[0].wip > 0 && v.activity in d.seats[0].skill
    requires v.member == Some(0) && v.status !in d.pausing && v.remaining > 0
    ensures var w, n := Advance(d, spent, [Busy(v, None)]).slots[0], Min(Min(d.len, d.seats[0].ceiling), v.remaining);
            w.Busy? && w.visit.credited == v.credited + n && w.visit.remaining == v.remaining - n && w.visit.member == Some(0)
  {
    OneRetained(d, v);
    OneFilled(d, spent, v);
    AssignExplains(d, spent, [Busy(v, None)]);
    OneCredited(d, spent, v);
  }

  lemma OneRetained(d: Desk, v: Visit)
    requires ValidDesk(d) && |d.seats| == 1 && ValidSlots(d, [Busy(v, None)])
    requires d.seats[0].available > 0 && d.seats[0].wip > 0 && v.activity in d.seats[0].skill && v.member == Some(0)
    ensures Retain(d, [Busy(v, None)]).0 == [Busy(v, None)]
  {
    assert [Busy(v, None)][..0] == [];
    assert Retain(d, []) == ([], NoLoad(d));
  }

  lemma OneFilled(d: Desk, spent: seq<nat>, v: Visit)
    requires ValidDesk(d) && |d.seats| == |spent| == 1 && ValidSlots(d, [Busy(v, None)]) && v.member == Some(0)
    requires Retain(d, [Busy(v, None)]).0 == [Busy(v, None)]
    ensures Assign(d, spent, [Busy(v, None)]) == [Busy(v, None)]
  {
    assert [Busy(v, None)][..0] == [];
  }

  lemma OneCredited(d: Desk, spent: seq<nat>, v: Visit)
    requires ValidDesk(d) && |d.seats| == |spent| == 1 && ValidSlots(d, [Busy(v, None)]) && spent[0] == 0
    requires d.seats[0].available == d.len && v.member == Some(0) && v.status !in d.pausing && v.remaining > 0
    requires AllExplained([Busy(v, None)])
    ensures var w, n := Work(d, spent, [Busy(v, None)]).slots[0], Min(Min(d.len, d.seats[0].ceiling), v.remaining);
            w.Busy? && w.visit.credited == v.credited + n && w.visit.remaining == v.remaining - n && w.visit.member == Some(0)
  {
    assert [Busy(v, None)][..0] == [];
    assert Work(d, spent, []) == Progress([], spent, []);
  }

  lemma EarlyWork(bp: Blueprint, touch: nat, r: nat)
    requires Late(bp) && 0 < r && touch > 0 && Staffed(bp, EarlyLane(EarlyVisit(touch)).slots)
    ensures var w, n := StepSegment(bp, [], EarlyLane(EarlyVisit(touch)), Segment(0, 0, r)).slots[0], Min(Min(r, 5000), touch);
            w.Busy? && w.visit.credited == n && w.visit.remaining == touch - n && w.visit.member == Some(0)
  {
    var d := DeskFor(bp, [], Segment(0, 0, r));
    FullTime(bp, Segment(0, 0, r));
    OneWorks(d, DaySpent(bp, map[], 0), EarlyVisit(touch));
  }

  lemma FullTime(bp: Blueprint, g: Segment)
    requires Late(bp) && g.start <= g.end
    ensures SeatFor(bp, [], g, 0) == Seat(1.0, g.end - g.start, 5000, 1, map[0 := 1.0])
  {
    assert MemberWindows(bp, [], 0) == [];
  }

  // ---------- It works before entry ----------

  lemma NothingAsked(bp: Blueprint, lane: Lane, segs: seq<Segment>, g: Segment, e: int)
    requires ValidWindows(bp, []) && Staffed(bp, lane.slots) && segs == [g] && g.start <= g.end && |lane.slots| == 1
    requires StepSegment(bp, [], lane, g).slots[0].Busy? && StepSegment(bp, [], lane, g).slots[0].visit.remaining > 0
    ensures Forward(segs) && WalkReadable(bp, [], lane, segs) && Walk(bp, [], lane, segs, e) == (StepSegment(bp, [], lane, g), e)
  {
    NoneFound(bp, lane, g);
    assert segs[1..] == [];
  }

  lemma NoneFound(bp: Blueprint, lane: Lane, g: Segment)
    requires ValidWindows(bp, []) && Staffed(bp, lane.slots) && g.start <= g.end && |lane.slots| == 1
    requires StepSegment(bp, [], lane, g).slots[0].Busy? && StepSegment(bp, [], lane, g).slots[0].visit.remaining > 0
    ensures SegmentReadable(bp, [], lane, g) && SegmentBoundary(bp, [], lane, g).None?
  {
    ProbeScannable(bp, [], lane, g);
    var d, after, clocks := DeskFor(bp, [], g), StepSegment(bp, [], lane, g).slots, Clocks(bp.calendar, lane.slots, g.start);
    ScanIsLeast(d, lane.slots, after, clocks, 1);
    assert OffsetAt(d, lane.slots, after, clocks, 0) == None;
  }

  lemma EarlyRun(bp: Blueprint, lane: Lane)
    requires Late(bp) && lane == EarlyLane(EarlyVisit(5000)) && Staffed(bp, lane.slots)
    ensures Forward([Segment(0, 0, 600)]) && WalkReadable(bp, [], lane, [Segment(0, 0, 600)])
    ensures var run := Walk(bp, [], lane, [Segment(0, 0, 600)], 600);
            run.1 == 600 && run.0.slots[0].Busy? && run.0.slots[0].visit.credited == 600 && run.0.slots[0].visit.remaining == 4400
  {
    EarlyWork(bp, 5000, 600);
    NothingAsked(bp, lane, [Segment(0, 0, 600)], Segment(0, 0, 600), 600);
  }

  lemma OpenInOrder(s: State, v: Visit)
    requires Early(s, v) && v.closed.None?
    ensures ClosedInOrder(s.visits, s.visits)
  {
  }

  ghost predicate Worked600(a: Attempted, s: State) {
    && a.end == 600 && a.risks == Evaluation(s, [], []) && |a.lane.slots| == 1 && a.lane.slots[0].Busy?
    && a.lane.slots[0].visit.credited == 600 && a.lane.slots[0].visit.remaining == 4400
  }

  lemma EarlyFirst(bp: Blueprint, draws: Draws, s: State)
    requires Late(bp) && TickReady(bp, s) && NotPast(bp, s, 600) && Early(s, EarlyVisit(5000))
    ensures AttemptReadable(bp, draws, s, 600) && Worked600(Attempt(bp, draws, s, 600), s)
    ensures Attempt(bp, draws, s, 600).end == 600 && FinishReadable(Attempt(bp, draws, s, 600).lane.slots, 600)
  {
    EarlyAttempt(bp, draws, s, EarlyVisit(5000), 600);
    OpenInOrder(s, EarlyVisit(5000));
    EarlyRun(bp, EarlyLane(EarlyVisit(5000)));
    WorkedReadable(Attempt(bp, draws, s, 600), s);
  }

  lemma WorkedReadable(a: Attempted, s: State)
    requires Worked600(a, s)
    ensures FinishReadable(a.lane.slots, 600)
  {
  }

  lemma EarlyAdvance(bp: Blueprint, draws: Draws, s: State)
    requires Late(bp) && Standing(bp, s, 500) && Early(s, EarlyVisit(5000))
    ensures StepReady(bp, s) && StepReadable(bp, draws, s, 600)
    ensures CrossBoundary(bp, draws, s, s.cursor).None? && Worked600(AdvanceFrom(bp, draws, s, 600), s)
  {
    EarlyTicks(bp, draws, s, EarlyVisit(5000), 600);
    EarlyFirst(bp, draws, s);
    SettlesReadable(bp, draws, s, 600);
  }

  /** A tick whose first attempt goes through and ends where it was asked to. */
  lemma SettlesReadable(bp: Blueprint, draws: Draws, s: State, r: int)
    requires StepReady(bp, s) && s.cursor <= r && EffectiveEnd(bp, s, r) == r && NotPast(bp, s, r)
    requires AttemptReadable(bp, draws, s, r) && Attempt(bp, draws, s, r).end == r
    requires FinishReadable(Attempt(bp, draws, s, r).lane.slots, r)
    ensures AdvanceFrom(bp, draws, s, r) == Attempt(bp, draws, s, r) && StepReadable(bp, draws, s, r)
  {
    AlreadySettled(bp, draws, s, r, Attempt(bp, draws, s, r));
  }

  /** A visit with work left is written back as the tick's labor left it. */
  lemma StillWorking(bp: Blueprint, draws: Draws, s: State, a: Attempted)
    requires Ticks(bp, draws, s, a) && Placed(bp, a.risks.working.items, a.lane.slots) && |a.lane.slots| == 1
    requires a.lane.slots[0].Busy? && a.lane.slots[0].visit.remaining > 0 && a.lane.slots[0].visit.ordinal == 0
    ensures (0, 0) in VisitsAfter(bp, draws, a) && VisitsAfter(bp, draws, a)[(0, 0)] == a.lane.slots[0].visit
  {
    FinishKeys(bp, draws, a.risks.working, a.lane.slots, a.end, 0, 0);
    NextKeys(bp, draws, a.risks.working, a.lane.slots, a.end, 0, 0);
  }

  lemma EarlyMoves(bp: Blueprint, draws: Draws, s: State, a: Attempted)
    requires Ticks(bp, draws, s, a) && a.risks == Evaluation(s, [], []) && Early(s, EarlyVisit(5000)) && |a.lane.slots| == 1
    ensures !a.lane.slots[0].Idle? ==> a.lane.slots[0].visit.entered == 500 && a.lane.slots[0].visit.ordinal == 0
  {
    AttemptMoves(bp, draws, s, a.end);
    EarlySlot(s, EarlyVisit(5000));
    assert Moved(SlotsOf(s, s)[0], a.lane.slots[0]);
  }

  lemma EarlyTick(bp: Blueprint, draws: Draws, s: State)
    requires Late(bp) && Standing(bp, s, 500) && Early(s, EarlyVisit(5000))
    ensures StepReady(bp, s) && StepReadable(bp, draws, s, 600)
    ensures var t := Committed(s, StepFrom(bp, draws, s, 600));
            t.cursor == 600 && (0, 0) in t.visits && t.visits[(0, 0)].entered == 500 && t.visits[(0, 0)].credited == 600
  {
    EarlyAdvance(bp, draws, s);
    var a := AdvanceFrom(bp, draws, s, 600);
    EarlyMoves(bp, draws, s, a);
    StillWorking(bp, draws, s, a);
    StepAdvances(bp, draws, s, 600);
  }

  lemma GetsAhead(bp: Blueprint, draws: Draws) returns (s: State, t: State)
    requires Late(bp) && 0 in bp.routes && ValidDraws(draws) && Activates(bp, draws, 5000) && forall k :: draws.target(k) == 0.0
    ensures Reachable(bp, s) && Happens(bp, s, Ticked(draws, 600), t) && Reachable(bp, t) && IsAhead(bp, t)
  {
    s := EarlyReachable(bp, draws, 5000);
    EarlyTick(bp, draws, s);
    t := Committed(s, StepFrom(bp, draws, s, 600));
    NextReachable(bp, s, Ticked(draws, 600), t);
    HundredWorked(bp);
  }

  lemma HundredWorked(bp: Blueprint)
    requires Late(bp)
    ensures Count(bp.calendar, 500, 600) == 100
  {
    CountBusy(bp.calendar, 500, 600);
  }

  /** 600 microseconds of labor credited, in 100 microseconds of business time since entry. */
  ghost predicate IsAhead(bp: Blueprint, t: State) {
    && (0, 0) in t.visits && t.visits[(0, 0)].credited == 600 && t.cursor == 600
    && Count(bp.calendar, t.visits[(0, 0)].entered, t.cursor) == 100
  }

  /** After a restart broken off at its one crossing, at 500, polling at 600 credits the visit it opened
      with more labor than business time has passed since its entry. */
  lemma WorksBeforeEntry() returns (s: State, t: State)
    ensures var bp, draws := LateTeam(), TouchDraws(5000);
            && Late(bp) && ValidDraws(draws) && Reachable(bp, s) && Happens(bp, s, Ticked(draws, 600), t) && Reachable(bp, t)
            && IsAhead(bp, t)
  {
    LateTeamLate();
    LateActivates(5000);
    s, t := GetsAhead(LateTeam(), TouchDraws(5000));
  }

  // ---------- It fails ----------

  /** When the work is done the scan asks for the visit's clock, which starts later. */
  lemma AsksTooEarly(bp: Blueprint, r: nat)
    requires Late(bp) && 100 <= r && Staffed(bp, EarlyLane(EarlyVisit(100)).slots)
    ensures !SegmentReadable(bp, [], EarlyLane(EarlyVisit(100)), Segment(0, 0, r))
  {
    EarlyWork(bp, 100, r);
    assert Asked(EarlyLane(EarlyVisit(100)).slots[0], StepSegment(bp, [], EarlyLane(EarlyVisit(100)), Segment(0, 0, r)).slots[0]);
  }

  lemma EarlyFails(bp: Blueprint, draws: Draws, s: State, r: int)
    requires Late(bp) && Standing(bp, s, 500) && Early(s, EarlyVisit(100)) && 100 <= r <= 10_000
    ensures StepReady(bp, s) && !StepReadable(bp, draws, s, r)
  {
    EarlyTicks(bp, draws, s, EarlyVisit(100), r);
    EarlyAttempt(bp, draws, s, EarlyVisit(100), r);
    AsksTooEarly(bp, r);
  }

  lemma GetsStuck(bp: Blueprint, draws: Draws) returns (s: State)
    requires Late(bp) && 0 in bp.routes && ValidDraws(draws) && Activates(bp, draws, 100) && forall k :: draws.target(k) == 0.0
    ensures Reachable(bp, s) && StepReady(bp, s) && s.cursor == 0
    ensures forall r :: 100 <= r <= 10_000 ==> !StepReadable(bp, draws, s, r)
  {
    s := EarlyReachable(bp, draws, 100);
    StandingParts(bp, s, 500);
    forall r | 100 <= r <= 10_000 ensures !StepReadable(bp, draws, s, r) {
      EarlyFails(bp, draws, s, r);
    }
  }

  /** With 100 microseconds of touch instead, every tick past instant 100 fails, until a restart completes. */
  lemma FailsUntilResumed() returns (s: State)
    ensures var bp, draws := LateTeam(), TouchDraws(100);
            && Late(bp) && ValidDraws(draws) && Reachable(bp, s) && StepReady(bp, s) && s.cursor == 0
            && forall r :: 100 <= r <= 10_000 ==> !StepReadable(bp, draws, s, r)
  {
    LateTeamLate();
    LateActivates(100);
    s := GetsStuck(LateTeam(), TouchDraws(100));
  }
}
