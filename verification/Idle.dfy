/** A team whose capacity is zero: nothing is ever started. */
module Idle {
  import opened Allocation
  import opened AllocationLaws
  import opened Team
  import opened Completion
  import opened FirstCompletion
  import opened Commands
  import opened Routes
  import opened Scope
  import opened RunInvariant
  import opened Lifecycle
  import opened SprintRun
  import opened Tick
  import opened Finish
  import opened TickRun
  import opened Steps
  import opened Progress
  import opened Scheduler
  import opened Restart
  import opened Histories

  ghost predicate AllBacklog(items: seq<Item>) {
    forall i :: 0 <= i < |items| ==> items[i].life.Backlog? && Estimate(items[i].points)
  }

  lemma ZeroTarget(bp: Blueprint, unit: real)
    requires bp.minPoints <= bp.maxPoints == 0 && 0.0 <= unit < 1.0
    ensures bp.minPoints == 0 && Target(bp, unit) == 0
  {
    TargetBounds(bp, unit);
  }

  /** With nothing to aim for, no estimate fits. */
  lemma NothingSelected(items: seq<Item>, used: nat)
    requires AllBacklog(items)
    ensures SelectFrom(items, 0, 0, 0, 0) == [] && BacklogFrom(items, 0, 0, 0, used) == []
  {
  }

  lemma NoneActivated(bp: Blueprint, draws: Draws, items: seq<Item>, t: int)
    requires KindsKnown(bp, items)
    ensures Activated(bp, draws, items, [], t) == items
  {
  }

  /** A crossing starts nothing. */
  lemma CrossingIdle(bp: Blueprint, draws: Draws, s: State, t: int)
    requires bp.minPoints <= bp.maxPoints == 0 && ValidDraws(draws) && AllBacklog(s.items) && KindsKnown(bp, s.items)
    ensures var o := CrossBoundary(bp, draws, s, t); o.Some? ==> o.value.after.items == s.items
  {
    var planned := FindSprint(s.sprints, (sprint: Sprint) => sprint.phase.Planned? && sprint.start == t, 0, Next(s, SprintOrdinal));
    var running := FindSprint(s.sprints, (sprint: Sprint) => sprint.phase.Running? && sprint.end == t, 0, Next(s, SprintOrdinal));
    NoneActivated(bp, draws, s.items, t);
    if planned.Some? {
      ZeroTarget(bp, draws.target(planned.value));
      NothingSelected(s.items, 0);
    } else if running.Some? {
      ZeroTarget(bp, draws.target(Next(s, SprintOrdinal)));
      NothingSelected(s.items, Sum(PointsAt(s.items, Carryover(s, running.value, 0))));
    }
  }

  lemma AdvanceIdle(bp: Blueprint, draws: Draws, s: State, a: Attempted)
    requires Ticks(bp, draws, s, a) && Placed(bp, a.risks.working.items, a.lane.slots) && AllBacklog(s.items)
    ensures FinishTick(bp, draws, a).after.items == s.items
  {
    TickParts(bp, draws, s, a);
    forall i: nat | i < |s.items| ensures FinishItems(bp, draws, a.risks.working, a.lane.slots, a.end)[i] == s.items[i] {
      InactiveStays(bp, draws, s, a, i);
    }
  }

  lemma StepIdle(bp: Blueprint, draws: Draws, s: State, requested: int)
    requires StepReady(bp, s) && s.cursor <= requested && bp.maxPoints == 0 && ValidDraws(draws) && AllBacklog(s.items)
    ensures Committed(s, StepFrom(bp, draws, s, requested)).items == s.items
  {
    CrossingIdle(bp, draws, s, s.cursor);
    if CrossBoundary(bp, draws, s, s.cursor).None? {
      AdvanceIdle(bp, draws, s, AdvanceFrom(bp, draws, s, requested));
    }
  }

  lemma {:induction false} CrossTimesIdle(bp: Blueprint, draws: Draws, s: State, n: nat)
    requires bp.minPoints <= bp.maxPoints == 0 && ValidDraws(draws) && AllBacklog(s.items)
    ensures CrossTimes(bp, draws, s, n).items == s.items
    decreases n
  {
    if n > 0 {
      CrossTimesIdle(bp, draws, s, n - 1);
      var r := CrossTimes(bp, draws, s, n - 1);
      if KindsKnown(bp, r.items) && OpenOrdinal(r) in r.sprints {
        CrossingIdle(bp, draws, r, NextBoundary(r));
      }
    }
  }

  lemma HappensIdle(bp: Blueprint, s: State, event: Event, t: State)
    requires bp.minPoints <= bp.maxPoints == 0 && Happens(bp, s, event, t) && AllBacklog(s.items)
    ensures t.items == s.items
  {
    match event {
      case Ticked(draws, requested) => StepIdle(bp, draws, s, requested);
      case Restarted(draws, asOf, crossed) => CrossTimesIdle(bp, draws, Noted(s), crossed);
      case Interrupted(draws, asOf, crossed) => CrossTimesIdle(bp, draws, Noted(s), crossed);
    }
  }

  lemma BeginsIdle(bp: Blueprint, s: State)
    requires bp.minPoints <= bp.maxPoints == 0 && Histories.Begins(bp, s)
    ensures AllBacklog(s.items)
  {
    var draws, backlog, k: nat :| BeginsWith(bp, s, draws, backlog, k);
    ZeroTarget(bp, draws.target(k));
    NothingSelected(backlog, 0);
    NoneActivated(bp, draws, backlog, s.cursor);
  }

  /** With a maximum capacity of zero points, no item ever leaves the backlog. */
  lemma NothingStarts(bp: Blueprint, states: seq<State>, events: seq<Event>, k: nat)
    requires IsHistory(bp, states, events) && bp.maxPoints == 0 && k < |states|
    ensures AllBacklog(states[k].items)
  {
    BeginsIdle(bp, states[0]);
    forall j | 0 < j < |states| && AllBacklog(states[j - 1].items) ensures AllBacklog(states[j].items) {
      EventAt(bp, states, events, j);
      HappensIdle(bp, states[j - 1], events[j - 1], states[j]);
    }
    KeptAlong((s: State) => AllBacklog(s.items), states, k);
  }

  // ---------- Such a team always catches up ----------

  /** Without open visits nothing is complete, so no tick stays where it starts. */
  lemma IdleMoves(bp: Blueprint, draws: Draws, s: State, now: int, asOf: int)
    requires StepReady(bp, s) && Standing(bp, s, now) && s.cursor < asOf && AllBacklog(s.items) && !AtBoundary(s)
    ensures AdvanceFrom(bp, draws, s, asOf).end > s.cursor
  {
    NotStuckAtEnd(bp, s, now, asOf);
    if AdvanceFrom(bp, draws, s, asOf).end == s.cursor {
      StuckAttempt(bp, draws, s, asOf);
      var i :| 0 <= i < |SlotsOf(s, s)| && CompleteAt(SlotsOf(s, s)[i], Clock(bp.calendar, SlotsOf(s, s)[i], s.cursor));
      assert ItemHolds(bp, s, i);
      SlotIs(bp, s, s, i);
    }
  }

  /** A tick short of a boundary that moves the cursor whenever it is asked to. */
  lemma MovesOn(bp: Blueprint, draws: Draws, s: State, now: int, asOf: int)
    requires StepReady(bp, s) && Standing(bp, s, now) && s.cursor <= asOf && StepReadable(bp, draws, s, asOf)
    requires s.cursor < asOf && !AtBoundary(s) ==> AdvanceFrom(bp, draws, s, asOf).end > s.cursor
    ensures Progresses(bp, s, Committed(s, StepFrom(bp, draws, s, asOf)), asOf)
  {
    var after := Committed(s, StepFrom(bp, draws, s, asOf));
    StepStands(bp, draws, s, now, asOf);
    if AtBoundary(s) {
      BoundaryCrossed(bp, draws, s, now, asOf);
    } else {
      NoCrossing(bp, draws, s, now);
      StepAdvances(bp, draws, s, asOf);
      SameBoundary(bp, draws, s, now, asOf);
      if s.cursor == asOf {
        EndReached(bp, after, Max(now, after.cursor), asOf);
      }
    }
  }

  lemma IdleProgresses(bp: Blueprint, draws: Draws, s: State, now: int, asOf: int)
    requires StepReady(bp, s) && Standing(bp, s, now) && s.cursor <= asOf && StepReadable(bp, draws, s, asOf) && AllBacklog(s.items)
    ensures Progresses(bp, s, Committed(s, StepFrom(bp, draws, s, asOf)), asOf)
  {
    if s.cursor < asOf && !AtBoundary(s) {
      IdleMoves(bp, draws, s, now, asOf);
    }
    MovesOn(bp, draws, s, now, asOf);
  }
}
