/** When catching up never ends: a route whose timed steps repeat a status, and no time spent in them. */
module Loops {
  import opened BusinessCalendar
  import opened Allocation
  import opened Team
  import opened Segments
  import opened Completion
  import opened FirstCompletion
  import opened CommittedEnd
  import opened Commands
  import opened Routes
  import opened RunInvariant
  import opened Lifecycle
  import opened Workdays
  import opened Risks
  import opened RiskLaws
  import opened Tick
  import opened Finish
  import opened TickLaws
  import opened TickRun
  import opened Steps
  import opened Progress
  import opened Scheduler
  import opened Bootstrap
  import opened Scope
  import opened Histories
  import opened Idle
  import opened Closed

  // ---------- Draws under which nothing takes time and nothing goes wrong ----------

  ghost predicate Still(draws: Draws) {
    && (forall i, k, status :: draws.touch(i, k, status) == 0 && draws.dwell(i, k, status) == 0)
    && (forall s: State, i :: !draws.cancels(s, i) && !draws.depends(s, i) && draws.absence(s, i) == 0)
  }

  /** The unit that draws the greatest target. */
  function TopUnit(n: int): real
    requires n > 0
  {
    (n - 1) as real / n as real
  }

  lemma TopDrawn(n: int)
    requires n > 0
    ensures 0.0 <= TopUnit(n) < 1.0 && Drawn(TopUnit(n), n) == n - 1
  {
    var u := TopUnit(n);
    assert u * n as real == (n - 1) as real;
    assert u < 1.0 by { QuotientBelowOne((n - 1) as real, n as real); }
  }

  lemma QuotientBelowOne(a: real, b: real)
    requires 0.0 <= a < b
    ensures 0.0 <= a / b < 1.0
  {
  }

  function StillDraws(bp: Blueprint): Draws
    requires bp.minPoints <= bp.maxPoints
  {
    var unit := TopUnit(bp.maxPoints - bp.minPoints + 1);
    Draws((i, k, status) => 0, (i, k, status) => 0, k => unit, (s, i) => false, (s, i) => false, (s, i) => 0)
  }

  lemma StillDrawsValid(bp: Blueprint, k: nat)
    requires bp.minPoints <= bp.maxPoints
    ensures ValidDraws(StillDraws(bp)) && Still(StillDraws(bp)) && Target(bp, StillDraws(bp).target(k)) == bp.maxPoints
  {
    TopDrawn(bp.maxPoints - bp.minPoints + 1);
  }

  lemma {:induction false} NoAbsence(draws: Draws, s: State, w: int, n: nat)
    requires Still(draws)
    ensures Absences(draws, s, w, n) == []
  {
    if n > 0 {
      NoAbsence(draws, s, w, n - 1);
    }
  }

  lemma StillHandle(bp: Blueprint, draws: Draws, rule: Rule, s: State, asOf: int)
    requires Still(draws) && NoPause(s)
    ensures Handle(bp, draws, rule, s, asOf).working == s
  {
    match rule.kind {
      case Cancellation =>
        var w := WorkdayBoundary(bp.calendar, s.cursor, asOf);
        if w.Some? {
          assert CancelItems(draws, rule, s) == s.items;
          assert CancelVisits(draws, s, w.value) == s.visits;
        }
      case ExternalDependency =>
        assert WaitVisits(bp, draws, rule, s, asOf) == s.visits;
      case MemberUnavailable =>
        var w := WorkdayBoundary(bp.calendar, s.cursor, asOf);
        if w.Some? {
          NoAbsence(draws, s, w.value, |bp.members|);
        }
    }
  }

  ghost predicate NoPause(s: State) {
    forall key :: key in s.visits && s.visits[key].open ==> s.visits[key].pause == 0
  }

  lemma {:induction false} StillRules(bp: Blueprint, draws: Draws, s: State, asOf: int, n: nat)
    requires Still(draws) && NoPause(s) && n <= |bp.rules|
    ensures Evaluate(bp, draws, s, asOf, n).working == s
  {
    if n > 0 {
      StillRules(bp, draws, s, asOf, n - 1);
      StillHandle(bp, draws, bp.rules[n - 1], s, asOf);
    }
  }

  // ---------- A visit complete at a working instant stops the tick there ----------

  lemma FirstSegmentHere(c: Calendar, segs: seq<Segment>, t: int, e: int)
    requires Chained(c, segs, t, e) && Working(c, t) && t < e
    ensures segs != [] && segs[0].start == t
  {
    assert Count(c, t, t + 1) == 1 + Count(c, t, t);
    if segs == [] {
      CountAdds(c, t, t + 1, e);
    } else if segs[0].start > t {
      CountAdds(c, t, t + 1, segs[0].start);
    }
  }

  lemma CompleteStops(bp: Blueprint, overlays: seq<Overlay>, lane: Lane, g: Segment, i: nat)
    requires ValidWindows(bp, overlays) && g.start <= g.end && Staffed(bp, lane.slots) && i < |lane.slots|
    requires CompleteAt(lane.slots[i], Clock(bp.calendar, lane.slots[i], g.start))
    ensures SegmentBoundary(bp, overlays, lane, g) == Some(0)
  {
    ProbeScannable(bp, overlays, lane, g);
    StepMoves(bp, overlays, lane, g);
    ScanStops(DeskFor(bp, overlays, g), lane.slots, StepSegment(bp, overlays, lane, g).slots,
              Clocks(bp.calendar, lane.slots, g.start), i);
  }

  /** A visit complete before a segment is the first thing its scan finds. */
  lemma ScanStops(d: Desk, before: seq<Slot>, after: seq<Slot>, clocks: seq<nat>, i: nat)
    requires AllScannable(d, before, after) && |clocks| == |before| && i < |before| && AllMoved(before, after)
    requires CompleteAt(before[i], clocks[i])
    ensures Boundary(d, before, after, clocks) == Some(0)
  {
    assert Moved(before[i], after[i]);
    ScanIsLeast(d, before, after, clocks, |before|);
    CompleteOffset(d, before[i], after[i], clocks[i], ScanTo(d, before, after, clocks, i).used);
    assert OffsetAt(d, before, after, clocks, i) == Some(0);
  }

  lemma CompleteOffset(d: Desk, s: Slot, t: Slot, clock: nat, used: seq<nat>)
    requires |used| == |d.seats| && Scannable(d, s, t) && CompleteAt(s, clock) && t.visit.remaining <= s.visit.remaining
    ensures Offset(d, s, t, clock, used) == Some(0)
  {
  }

  lemma WalkHere(bp: Blueprint, overlays: seq<Overlay>, lane: Lane, segs: seq<Segment>, t: int, e: int, i: nat)
    requires ValidWindows(bp, overlays) && Staffed(bp, lane.slots) && Forward(segs) && i < |lane.slots|
    requires Chained(bp.calendar, segs, t, e) && Working(bp.calendar, t) && t < e
    requires CompleteAt(lane.slots[i], Clock(bp.calendar, lane.slots[i], t))
    ensures Walk(bp, overlays, lane, segs, e).1 == t
  {
    FirstSegmentHere(bp.calendar, segs, t, e);
    CompleteStops(bp, overlays, lane, segs[0], i);
  }

  /** A tick asked to go on from a working instant, with a visit complete there and rules that do
      nothing, goes nowhere. */
  lemma AttemptStays(bp: Blueprint, draws: Draws, s: State, e: int, i: nat)
    requires TickReady(bp, s) && NotPast(bp, s, e) && s.cursor < e && Still(draws) && NoPause(s)
    requires Working(bp.calendar, s.cursor) && i < |s.items|
    requires CompleteAt(SlotAt(s, s, i), Clock(bp.calendar, SlotAt(s, s, i), s.cursor))
    ensures Attempt(bp, draws, s, e).end == s.cursor
  {
    AttemptReady(bp, draws, s, e);
    StillRules(bp, draws, s, e, |bp.rules|);
    SegmentsChained(bp, s.overlays, s.cursor, e);
    WalkHere(bp, s.overlays, Lane(SlotsOf(s, s), s.book, []), SegmentsOf(bp, s.overlays, s.cursor, e), s.cursor, e, i);
  }

  lemma StableStays(bp: Blueprint, draws: Draws, s: State, e: int, i: nat)
    requires TickReady(bp, s) && NotPast(bp, s, e) && s.cursor < e && Still(draws) && NoPause(s)
    requires Working(bp.calendar, s.cursor) && i < |s.items|
    requires CompleteAt(SlotAt(s, s, i), Clock(bp.calendar, SlotAt(s, s, i), s.cursor))
    ensures var a := Stable(bp, draws, s, e);
            a.risks == Evaluation(s, [], []) && a.lane == Lane(SlotsOf(s, s), s.book, []) && a.end == s.cursor
  {
    AttemptStays(bp, draws, s, e, i);
    NotPastSooner(bp, s, e, s.cursor);
    AttemptHere(bp, draws, s);
    StableNext(bp, draws, s, e, s.cursor);
    AlreadySettled(bp, draws, s, s.cursor, Attempt(bp, draws, s, s.cursor));
  }

  // ---------- The loop ----------

  /** The item is before a timed step that repeats the status of an earlier one. */
  ghost predicate Repeats(bp: Blueprint, item: Item, q: nat) {
    && item.kind in bp.routes && q < |bp.routes[item.kind]| && Timed(bp, bp.routes[item.kind][q])
    && Position(bp.routes[item.kind], bp.routes[item.kind][q].status, 0) != Some(q)
    && Position(bp.routes[item.kind], item.status, 0).Some? && Position(bp.routes[item.kind], item.status, 0).value < q
  }

  /** The item's open visits need no time. */
  ghost predicate Timeless(s: State, i: nat) {
    forall k: nat :: (i, k) in s.visits && s.visits[(i, k)].open ==> s.visits[(i, k)].remaining == 0 && s.visits[(i, k)].dwell == 0
  }

  /** A state from which ticks go nowhere: at a working instant short of the sprint boundary, an active
      item before a repeated status needs no time where it is. */
  ghost predicate Looping(bp: Blueprint, s: State, t: int, i: nat, q: nat) {
    && ValidBlueprint(bp) && Sound(bp, s) && s.cursor == t && Working(bp.calendar, t) && NoPause(s)
    && !AtBoundary(s)
    && i < |s.items| && s.items[i].life.Active? && Repeats(bp, s.items[i], q) && Timeless(s, i)
  }

  lemma LoopingComplete(bp: Blueprint, s: State, t: int, i: nat, q: nat)
    requires Looping(bp, s, t, i, q)
    ensures TickReady(bp, s) && CompleteAt(SlotAt(s, s, i), Clock(bp.calendar, SlotAt(s, s, i), s.cursor))
  {
    SoundParts(bp, s);
    assert ItemHolds(bp, s, i);
    SlotIs(bp, s, s, i);
  }

  /** What such a tick commits: the state itself, with the complete visits closed where they are. */
  lemma LoopingAdvance(bp: Blueprint, draws: Draws, s: State, t: int, i: nat, q: nat, asOf: int)
    requires Looping(bp, s, t, i, q) && Still(draws) && t < asOf
    ensures var a := AdvanceTo(bp, draws, s, asOf);
            && a.risks == Evaluation(s, [], []) && a.lane == Lane(SlotsOf(s, s), s.book, []) && a.end == t
            && TickStep(bp, draws, s, asOf) == FinishTick(bp, draws, a)
  {
    LoopingComplete(bp, s, t, i, q);
    SoundParts(bp, s);
    SoundStands(bp, s);
    EffectiveEndBounds(bp, s, asOf);
    NotStuckAtEnd(bp, s, t, asOf);
    StableStays(bp, draws, s, EffectiveEnd(bp, s, asOf), i);
    NoCrossing(bp, draws, s, t);
  }

  /** Leaving a step short of a repeated status leads to another such step. */
  lemma LeaveRepeats(bp: Blueprint, draws: Draws, i: nat, ordinal: nat, item: Item, q: nat, t: int)
    requires item.life.Active? && Repeats(bp, item, q)
    ensures var move := Leave(bp, draws, i, ordinal, item, item.status, t);
            && move.item.life.Active? && Repeats(bp, move.item, q) && move.visit.Some?
            && move.visit.value.required == draws.touch(i, ordinal, move.item.status)
            && move.visit.value.remaining == move.visit.value.required
            && move.visit.value.dwell == draws.dwell(i, ordinal, move.item.status)
  {
    var steps := bp.routes[item.kind];
    var next := NextTimed(bp, steps, Position(steps, item.status, 0).value + 1);
    assert next.Some? && next.value <= q;
    PositionFound(steps, 0, next.value);
  }

  /** After a closing tick the item stands where its route says: in the status after one completion, or
      done. */
  lemma ClosedItemFollowsRoute(bp: Blueprint, draws: Draws, s: State, a: Attempted, i: nat)
    requires Advancing(bp, s, a) && Placed(bp, a.risks.working.items, a.lane.slots) && i < |a.lane.slots| && i < |a.risks.working.items|
    requires CompleteAt(a.lane.slots[i], Clock(bp.calendar, a.lane.slots[i], a.end))
    ensures a.risks.working.items[i].kind in bp.routes
    ensures var before, after := a.risks.working.items[i], FinishItems(bp, draws, a.risks.working, a.lane.slots, a.end)[i];
            var status := StatusAfter(bp, bp.routes[before.kind], before.status, 1);
            && after.kind == before.kind
            && (status.Some? ==> after.life.Active? && after.status == status.value)
            && (status.None? ==> after.life.Done?)
  {
    CarryingAt(bp, s, a, i);
    PlacedItem(bp, a.risks.working.visits, a.risks.working.items[i], i,
               a.risks.working.counters[VisitOrdinal(i)], a.lane.slots[i]);
    FinishEndsAs(bp, draws, a, i);
  }

  lemma LoopedItem(bp: Blueprint, draws: Draws, s: State, a: Attempted, t: int, i: nat, q: nat)
    requires Looping(bp, s, t, i, q) && Still(draws) && Ticks(bp, draws, s, a) && Placed(bp, a.risks.working.items, a.lane.slots)
    requires a.risks == Evaluation(s, [], []) && a.lane == Lane(SlotsOf(s, s), s.book, []) && a.end == t
    ensures |FinishTick(bp, draws, a).after.items| == |s.items|
    ensures FinishTick(bp, draws, a).after.items[i].life.Active? && Repeats(bp, FinishTick(bp, draws, a).after.items[i], q)
    ensures Timeless(FinishTick(bp, draws, a).after, i)
  {
    LoopingComplete(bp, s, t, i, q);
    TickParts(bp, draws, s, a);
    CarryingAt(bp, s, a, i);
    var n := Next(s, VisitOrdinal(i));
    PlacedItem(bp, s.visits, s.items[i], i, n, a.lane.slots[i]);
    FinishEndsAs(bp, draws, a, i);
    LeaveRepeats(bp, draws, i, n, s.items[i], q, t);
    forall k: nat | (i, k) in VisitsAfter(bp, draws, a) && VisitsAfter(bp, draws, a)[(i, k)].open
      ensures VisitsAfter(bp, draws, a)[(i, k)].remaining == 0 && VisitsAfter(bp, draws, a)[(i, k)].dwell == 0
    {
      LoopedVisit(bp, draws, s, a, t, i, q, k);
    }
  }

  lemma LoopedVisit(bp: Blueprint, draws: Draws, s: State, a: Attempted, t: int, i: nat, q: nat, k: nat)
    requires Looping(bp, s, t, i, q) && Still(draws) && Advancing(bp, s, a) && Placed(bp, a.risks.working.items, a.lane.slots)
    requires |a.lane.slots| == |s.items|
    requires a.risks == Evaluation(s, [], []) && a.lane == Lane(SlotsOf(s, s), s.book, []) && a.end == t
    requires (i, k) in VisitsAfter(bp, draws, a) && VisitsAfter(bp, draws, a)[(i, k)].open
    ensures VisitsAfter(bp, draws, a)[(i, k)].remaining == 0 && VisitsAfter(bp, draws, a)[(i, k)].dwell == 0
  {
    LoopingComplete(bp, s, t, i, q);
    CarryingAt(bp, s, a, i);
    var n := Next(s, VisitOrdinal(i));
    PlacedItem(bp, s.visits, s.items[i], i, n, a.lane.slots[i]);
    LeaveRepeats(bp, draws, i, n, s.items[i], q, t);
    FinishKeys(bp, draws, s, a.lane.slots, t, i, k);
    NextKeys(bp, draws, s, a.lane.slots, t, i, k);
    if (i, k) in s.visits {
      LastIsOpen(bp, s, s, i, k);
    }
  }

  ghost predicate PauseFree(visits: Visits, i: nat, k: nat) {
    (i, k) in visits && visits[(i, k)].open ==> visits[(i, k)].pause == 0
  }

  lemma PauseFreeAll(s: State)
    requires forall i: nat, k: nat :: PauseFree(s.visits, i, k)
    ensures NoPause(s)
  {
    forall key | key in s.visits && s.visits[key].open ensures s.visits[key].pause == 0 {
      assert PauseFree(s.visits, key.0, key.1);
    }
  }

  /** No tick from such a state pauses anything. */
  lemma LoopedPauses(bp: Blueprint, draws: Draws, s: State, a: Attempted, after: State)
    requires Advancing(bp, s, a) && Placed(bp, a.risks.working.items, a.lane.slots) && NoPause(s) && |a.lane.slots| == |s.items|
    requires a.risks == Evaluation(s, [], []) && a.lane == Lane(SlotsOf(s, s), s.book, [])
    requires after.visits == VisitsAfter(bp, draws, a)
    ensures NoPause(after)
  {
    forall i: nat, k: nat ensures PauseFree(after.visits, i, k) {
      LoopedPause(bp, draws, s, a, i, k);
    }
    PauseFreeAll(after);
  }

  lemma LoopedPause(bp: Blueprint, draws: Draws, s: State, a: Attempted, i: nat, k: nat)
    requires Advancing(bp, s, a) && Placed(bp, a.risks.working.items, a.lane.slots) && NoPause(s) && |a.lane.slots| == |s.items|
    requires a.risks == Evaluation(s, [], []) && a.lane == Lane(SlotsOf(s, s), s.book, [])
    ensures PauseFree(VisitsAfter(bp, draws, a), i, k)
  {
    FinishKeys(bp, draws, s, a.lane.slots, a.end, i, k);
    NextKeys(bp, draws, s, a.lane.slots, a.end, i, k);
    if i < |s.items| && !a.lane.slots[i].Idle? {
      SlotPauseFree(bp, s, i);
      ClosingPauseFree(bp, draws, a, i);
    }
  }

  lemma SlotPauseFree(bp: Blueprint, s: State, i: nat)
    requires ItemsOk(bp, s) && NoPause(s) && i < |s.items| && !SlotAt(s, s, i).Idle?
    ensures SlotAt(s, s, i).visit.pause == 0
  {
    assert ItemHolds(bp, s, i);
    SlotIs(bp, s, s, i);
  }

  lemma ClosingPauseFree(bp: Blueprint, draws: Draws, a: Attempted, i: nat)
    requires Placed(bp, a.risks.working.items, a.lane.slots) && i < |a.lane.slots| && !a.lane.slots[i].Idle?
    requires a.lane.slots[i].visit.pause == 0
    ensures var c := ClosingAt(bp, draws, a.risks.working, a.lane.slots, a.end, i);
            c.visit.pause == 0 && (c.next.Some? ==> c.next.value.pause == 0)
  {
  }

  /** The state after one committed tick. */
  ghost function OneTick(bp: Blueprint, draws: Draws, s: State, asOf: int): (r: State)
    requires ValidBlueprint(bp) && Sound(bp, s) && s.cursor <= asOf
    ensures Sound(bp, r) && r.cursor <= asOf
  {
    TickStepSound(bp, draws, s, asOf);
    Committed(s, TickStep(bp, draws, s, asOf))
  }

  /** One more tick, and the team is in such a state again, at the same instant. */
  lemma LoopAgain(bp: Blueprint, draws: Draws, s: State, t: int, i: nat, q: nat, asOf: int)
    requires Looping(bp, s, t, i, q) && Still(draws) && t < asOf
    ensures Looping(bp, OneTick(bp, draws, s, asOf), t, i, q)
  {
    LoopingAdvance(bp, draws, s, t, i, q, asOf);
    TickStepSound(bp, draws, s, asOf);
    SoundParts(bp, s);
    SoundStands(bp, s);
    SameBoundary(bp, draws, s, t, asOf);
    var a := AdvanceTo(bp, draws, s, asOf);
    LoopedItem(bp, draws, s, a, t, i, q);
    TickParts(bp, draws, s, a);
    LoopedPauses(bp, draws, s, a, OneTick(bp, draws, s, asOf));
  }

  // ---------- The loop that never ends ----------

  lemma {:induction false} RepeatKeeps(next: State -> State, keep: State -> bool, s: State, n: nat)
    requires keep(s) && forall x :: keep(x) ==> keep(next(x))
    ensures keep(Repeat(next, s, n))
    decreases n
  {
    if n > 0 {
      RepeatKeeps(next, keep, s, n - 1);
    }
  }

  lemma SoundTick(bp: Blueprint, draws: Draws, s: State, asOf: int)
    requires ValidBlueprint(bp) && Sound(bp, s) && s.cursor <= asOf
    ensures CanTick(bp, draws, s, asOf) && TickTo(bp, draws, asOf)(s) == OneTick(bp, draws, s, asOf)
  {
    SoundReadable(bp, draws, s, asOf);
  }

  /** After n ticks the team has caught up. */
  ghost predicate CaughtUpAfter(bp: Blueprint, draws: Draws, s: State, asOf: int, n: nat) {
    n > 0 && CaughtUp(Repeat(TickTo(bp, draws, asOf), s, n), asOf)
  }

  /** The catch-up loop ends with the team caught up. */
  ghost predicate CatchesUp(bp: Blueprint, draws: Draws, s: State, asOf: int) {
    exists n: nat :: CaughtUpAfter(bp, draws, s, asOf, n)
  }

  /** The tick after n of them fails. */
  ghost predicate FailsAfter(bp: Blueprint, draws: Draws, s: State, asOf: int, n: nat) {
    !CanTick(bp, draws, Repeat(TickTo(bp, draws, asOf), s, n), asOf)
  }

  /** The catch-up loop ends, caught up or with a tick that fails. */
  ghost predicate LoopEnds(bp: Blueprint, draws: Draws, s: State, asOf: int) {
    exists n: nat :: CaughtUpAfter(bp, draws, s, asOf, n) || FailsAfter(bp, draws, s, asOf, n)
  }

  /** From such a state the catch-up loop never ends: every tick is committed, none moves the cursor. */
  lemma NeverCatchesUp(bp: Blueprint, draws: Draws, s: State, t: int, i: nat, q: nat, asOf: int)
    requires Looping(bp, s, t, i, q) && Still(draws) && t < asOf
    ensures forall n: nat :: Repeat(TickTo(bp, draws, asOf), s, n).cursor == t
    ensures !LoopEnds(bp, draws, s, asOf)
  {
    var next := TickTo(bp, draws, asOf);
    var keep := (x: State) => Looping(bp, x, t, i, q);
    forall x | keep(x) ensures keep(next(x)) {
      SoundTick(bp, draws, x, asOf);
      LoopAgain(bp, draws, x, t, i, q, asOf);
    }
    forall n: nat
      ensures Repeat(next, s, n).cursor == t && !CaughtUpAfter(bp, draws, s, asOf, n) && !FailsAfter(bp, draws, s, asOf, n)
    {
      RepeatKeeps(next, keep, s, n);
      SoundTick(bp, draws, Repeat(next, s, n), asOf);
    }
  }

  // ---------- When catching up ends ----------

  lemma RepeatShift(next: State -> State, s: State, n: nat)
    ensures Repeat(next, s, n + 1) == Repeat(next, next(s), n)
    decreases n
  {
    if n > 0 {
      RepeatShift(next, s, n - 1);
    }
  }

  /** Routes come to an end, or the team never works, or nothing is ever started. */
  ghost predicate Ending(bp: Blueprint, draws: Draws, s: State) {
    RoutesDistinct(bp) || NeverWorks(bp) || (bp.maxPoints == 0 && ValidDraws(draws) && AllBacklog(s.items))
  }

  lemma TicksNearer(bp: Blueprint, draws: Draws, s: State, now: int, asOf: int)
    requires Ending(bp, draws, s) && Standing(bp, s, now) && CanTick(bp, draws, s, asOf)
    ensures var t := TickTo(bp, draws, asOf)(s);
            && Standing(bp, t, Max(now, t.cursor)) && s.cursor <= t.cursor <= asOf && Ending(bp, draws, t)
            && Progresses(bp, s, t, asOf)
  {
    StepStands(bp, draws, s, now, asOf);
    if RoutesDistinct(bp) {
      TickProgresses(bp, draws, s, now, asOf);
    } else if NeverWorks(bp) {
      ClosedProgresses(bp, draws, s, now, asOf);
    } else {
      IdleProgresses(bp, draws, s, now, asOf);
      StepIdle(bp, draws, s, asOf);
    }
  }

  lemma {:induction false} EventuallyEnds(bp: Blueprint, draws: Draws, s: State, now: int, asOf: int) returns (n: nat)
    requires ValidBlueprint(bp) && Ending(bp, draws, s) && Standing(bp, s, now) && s.cursor <= asOf
    ensures CaughtUpAfter(bp, draws, s, asOf, n) || FailsAfter(bp, draws, s, asOf, n)
    decreases asOf - s.cursor, DueHere(s), Unfinished(bp, s.items)
  {
    if !CanTick(bp, draws, s, asOf) {
      n := 0;
      FailsAtOnce(bp, draws, s, asOf);
    } else {
      TicksNearer(bp, draws, s, now, asOf);
      var t := TickTo(bp, draws, asOf)(s);
      var m := 0;
      if !CaughtUp(t, asOf) {
        m := EventuallyEnds(bp, draws, t, Max(now, t.cursor), asOf);
      }
      n := m + 1;
      OneTickMore(bp, draws, s, t, asOf, m);
    }
  }

  lemma FailsAtOnce(bp: Blueprint, draws: Draws, s: State, asOf: int)
    requires !CanTick(bp, draws, s, asOf)
    ensures FailsAfter(bp, draws, s, asOf, 0)
  {
    assert Repeat(TickTo(bp, draws, asOf), s, 0) == s;
  }

  /** How the loop goes on after its first tick. */
  lemma OneTickMore(bp: Blueprint, draws: Draws, s: State, t: State, asOf: int, m: nat)
    requires t == TickTo(bp, draws, asOf)(s)
    ensures CaughtUp(t, asOf) ==> CaughtUpAfter(bp, draws, s, asOf, 1)
    ensures CaughtUpAfter(bp, draws, t, asOf, m) ==> CaughtUpAfter(bp, draws, s, asOf, m + 1)
    ensures FailsAfter(bp, draws, t, asOf, m) ==> FailsAfter(bp, draws, s, asOf, m + 1)
  {
    var next := TickTo(bp, draws, asOf);
    RepeatShift(next, s, m);
    RepeatShift(next, s, 0);
    assert Repeat(next, t, 0) == t;
  }

  /** From a sound state the loop never ends with a failing tick. */
  lemma SoundCatchesUp(bp: Blueprint, draws: Draws, s: State, asOf: int)
    requires ValidBlueprint(bp) && Sound(bp, s) && s.cursor <= asOf && LoopEnds(bp, draws, s, asOf)
    ensures CatchesUp(bp, draws, s, asOf)
  {
    var next := TickTo(bp, draws, asOf);
    var keep := (x: State) => Sound(bp, x) && x.cursor <= asOf;
    forall x | keep(x) ensures keep(next(x)) {
      SoundTick(bp, draws, x, asOf);
    }
    forall n: nat ensures !FailsAfter(bp, draws, s, asOf, n) {
      RepeatKeeps(next, keep, s, n);
      SoundTick(bp, draws, Repeat(next, s, n), asOf);
    }
  }

  // ---------- A run starts in such a state ----------

  /** A board with one item of this kind, worth one point. */
  function OneItem(kind: Key): seq<Item> { [Item(kind, 1, Backlog, 0)] }

  /** A route of this kind has a timed step, at q, that repeats an earlier status, and the team can take an
      item on at the working instant t of sprint k. */
  ghost predicate MayLoop(bp: Blueprint, kind: Key, q: nat, t: int, k: nat) {
    && ValidBlueprint(bp) && ValidWindows(bp, []) && Working(bp.calendar, t) && t >= bp.anchor && Contains(bp, k, t)
    && bp.maxPoints >= 1
    && kind in bp.routes && q < |bp.routes[kind]| && Timed(bp, bp.routes[kind][q])
    && Position(bp.routes[kind], bp.routes[kind][q].status, 0) != Some(q)
  }

  /** The state a run starts in when its one item follows such a route and no draw costs time. */
  ghost function LoopStart(bp: Blueprint, kind: Key, t: int, k: nat): State
    requires bp.minPoints <= bp.maxPoints && KindsKnown(bp, OneItem(kind))
  {
    InitialState(bp, StillDraws(bp), OneItem(kind), t, k)
  }

  lemma StartsLooping(bp: Blueprint, kind: Key, q: nat, t: int, k: nat)
    requires MayLoop(bp, kind, q, t, k)
    ensures KindsKnown(bp, OneItem(kind)) && Looping(bp, LoopStart(bp, kind, t, k), t, 0, q)
  {
    var draws, items := StillDraws(bp), OneItem(kind);
    InitialInvariant(bp, draws, items, t, k);
    StillDrawsValid(bp, k);
    var s := LoopStart(bp, kind, t, k);
    StartTimeless(bp, draws, items, t, k, s);
    StartItem(bp, kind, q, t, k);
    StartsShort(bp, s, t, k);
  }

  lemma StartsShort(bp: Blueprint, s: State, t: int, k: nat)
    requires ValidBlueprint(bp) && Invariant(bp, t, s, k) && s.cursor == t && OpenOrdinal(s) == k && Contains(bp, k, t) && t >= bp.anchor
    requires k in s.sprints && s.sprints[k].phase.Running?
    ensures Sound(bp, s) && !AtBoundary(s)
  {
    SoundParts(bp, s);
  }

  lemma StartItem(bp: Blueprint, kind: Key, q: nat, t: int, k: nat)
    requires MayLoop(bp, kind, q, t, k) && KindsKnown(bp, OneItem(kind))
    ensures var s := LoopStart(bp, kind, t, k);
            && s.cursor == t && k in s.sprints && s.sprints[k].phase.Running?
            && |s.items| == 1 && s.items[0].life.Active? && Repeats(bp, s.items[0], q)
  {
    StillDrawsValid(bp, k);
    StartSelects(bp, StillDraws(bp), OneItem(kind), t, k);
    StartsBefore(bp, StillDraws(bp), kind, q, t);
  }

  lemma StartsReachable(bp: Blueprint, kind: Key, q: nat, t: int, k: nat)
    requires MayLoop(bp, kind, q, t, k)
    ensures KindsKnown(bp, OneItem(kind)) && Reachable(bp, LoopStart(bp, kind, t, k))
  {
    var draws, items := StillDraws(bp), OneItem(kind);
    KindsFresh(bp, items);
    StillDrawsValid(bp, k);
    var s := LoopStart(bp, kind, t, k);
    assert BeginsWith(bp, s, draws, items, k);
    FirstReachable(bp, s, draws, items, k);
  }

  lemma StartTimeless(bp: Blueprint, draws: Draws, items: seq<Item>, t: int, k: nat, s: State)
    requires KindsKnown(bp, items) && Still(draws) && Contains(bp, k, t) && t >= bp.anchor && s == InitialState(bp, draws, items, t, k)
    ensures NoPause(s) && OpenOrdinal(s) == k
    ensures forall key :: key in s.visits ==> s.visits[key].remaining == 0 && s.visits[key].dwell == 0
  {
    var ids := SelectFrom(items, bp.minPoints, Target(bp, draws.target(k)), 0, 0);
    forall key | key in s.visits ensures s.visits[key].pause == 0 && s.visits[key].remaining == 0 && s.visits[key].dwell == 0 {
      PlannedVisits(bp, draws, BareBoard(bp, draws, items, t, k), ids, t, key.0, key.1);
    }
  }

  /** The board before anything is selected. */
  ghost function BareBoard(bp: Blueprint, draws: Draws, items: seq<Item>, t: int, k: nat): State {
    State(t, 0, items, map[], map[], map[], map[], [], map[])
  }

  lemma StartSelects(bp: Blueprint, draws: Draws, items: seq<Item>, t: int, k: nat)
    requires 1 <= bp.maxPoints && |items| == 1 && items[0].points == 1 && Target(bp, draws.target(k)) == bp.maxPoints
    ensures SelectFrom(items, bp.minPoints, Target(bp, draws.target(k)), 0, 0) == [0]
  {
  }

  lemma StartsBefore(bp: Blueprint, draws: Draws, kind: Key, q: nat, t: int)
    requires kind in bp.routes && q < |bp.routes[kind]| && Timed(bp, bp.routes[kind][q])
    requires Position(bp.routes[kind], bp.routes[kind][q].status, 0) != Some(q)
    ensures var move := Activate(bp, draws, 0, OneItem(kind)[0], t);
            move.visit.Some? && move.item.life.Active? && Repeats(bp, move.item, q)
  {
    var steps := bp.routes[kind];
    var f := NextTimed(bp, steps, 0);
    assert f.Some? && f.value <= q;
    PositionFound(steps, 0, f.value);
    PositionFound(steps, 0, q);
  }

  // ---------- The exact condition ----------

  /** Whatever the draws, the loop ends from every reachable state. */
  ghost predicate AlwaysEnds(bp: Blueprint) {
    forall draws, s: State, asOf ::
      ValidDraws(draws) && Reachable(bp, s) && s.cursor <= asOf ==> LoopEnds(bp, draws, s, asOf)
  }

  /** Whatever the draws, the team catches up from every reachable sound state. */
  ghost predicate AlwaysCatchesUp(bp: Blueprint) {
    forall draws, s: State, asOf ::
      ValidDraws(draws) && Reachable(bp, s) && Sound(bp, s) && s.cursor <= asOf ==> CatchesUp(bp, draws, s, asOf)
  }

  lemma RepeatingRouteLoops(bp: Blueprint, kind: Key, q: nat, t: int, k: nat)
    requires MayLoop(bp, kind, q, t, k)
    ensures !AlwaysEnds(bp) && !AlwaysCatchesUp(bp)
  {
    StartsLooping(bp, kind, q, t, k);
    StartsReachable(bp, kind, q, t, k);
    StillDrawsValid(bp, k);
    var s := LoopStart(bp, kind, t, k);
    NeverCatchesUp(bp, StillDraws(bp), s, t, 0, q, t + 1);
    assert Sound(bp, s) && s.cursor <= t + 1 && !LoopEnds(bp, StillDraws(bp), s, t + 1);
    assert !CatchesUp(bp, StillDraws(bp), s, t + 1);
  }

  /** No timed step of a route repeats an earlier status, or nothing is ever started, or the team never
      works once its first sprint could have begun. */
  ghost predicate NeverLoops(bp: Blueprint) {
    RoutesDistinct(bp) || bp.maxPoints == 0 || NeverWorks(bp)
  }

  lemma EndsFrom(bp: Blueprint, draws: Draws, s: State, asOf: int)
    requires NeverLoops(bp) && ValidDraws(draws) && Reachable(bp, s) && s.cursor <= asOf
    ensures LoopEnds(bp, draws, s, asOf)
  {
    var states, events :| IsHistory(bp, states, events) && states[|states| - 1] == s;
    HistoryStands(bp, states, events, |states| - 1);
    if bp.maxPoints == 0 {
      NothingStarts(bp, states, events, |states| - 1);
    }
    var now :| Standing(bp, s, now);
    var n := EventuallyEnds(bp, draws, s, now, asOf);
  }

  lemma AllEnd(bp: Blueprint)
    requires ValidBlueprint(bp) && NeverLoops(bp)
    ensures AlwaysEnds(bp) && AlwaysCatchesUp(bp)
  {
    forall draws, s: State, asOf | ValidDraws(draws) && Reachable(bp, s) && s.cursor <= asOf
      ensures LoopEnds(bp, draws, s, asOf) && (Sound(bp, s) ==> CatchesUp(bp, draws, s, asOf))
    {
      EndsFrom(bp, draws, s, asOf);
      if Sound(bp, s) {
        SoundCatchesUp(bp, draws, s, asOf);
      }
    }
  }

  /** The catch-up loop ends, for all draws and from every state a run can be in, exactly when no timed step
      of a route repeats an earlier status, or the maximum capacity is zero, or the team never works after
      its first sprint boundary; and from sound states it then ends with the team caught up. */
  lemma CatchUpEndsIff(bp: Blueprint)
    requires ValidBlueprint(bp) && ValidWindows(bp, [])
    ensures AlwaysEnds(bp) <==> RoutesDistinct(bp) || bp.maxPoints == 0 || NeverWorks(bp)
    ensures AlwaysCatchesUp(bp) <==> AlwaysEnds(bp)
  {
    if NeverLoops(bp) {
      AllEnd(bp);
    } else {
      var kind :| kind in bp.routes && !DistinctStatuses(bp, bp.routes[kind]);
      var q :| 0 <= q < |bp.routes[kind]| && Timed(bp, bp.routes[kind][q])
               && Position(bp.routes[kind], bp.routes[kind][q].status, 0) != Some(q);
      var t :| t >= bp.anchor && Working(bp.calendar, t);
      var k := SprintOf(bp, t);
      RepeatingRouteLoops(bp, kind, q, t, k);
    }
  }
}
