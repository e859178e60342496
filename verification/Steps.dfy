/** The tick service as one function of a state and a requested end, and what every step keeps. */
module Steps {
  import opened Allocation
  import opened BusinessCalendar
  import opened Workdays
  import opened Team
  import opened Commands
  import opened Routes
  import opened RunInvariant
  import opened Lifecycle
  import opened LifecycleLaws
  import opened SprintRun
  import opened Segments
  import opened FirstCompletion
  import opened Risks
  import opened Waits
  import opened RiskLaws
  import opened Tick
  import opened Finish
  import opened TickLaws
  import opened TickRun

  /** A state a run may be in at its own cursor. */
  ghost predicate Sound(bp: Blueprint, s: State) {
    exists first: nat :: Invariant(bp, s.cursor, s, first)
  }

  /** A state a run may be in while a restart is under way: in order up to `now`, short of the next
      boundary, with the cursor still behind. */
  ghost predicate Standing(bp: Blueprint, s: State, now: int) {
    exists first: nat :: Invariant(bp, now, s, first) && s.cursor <= now <= NextBoundary(s)
  }

  lemma SoundStands(bp: Blueprint, s: State)
    requires Sound(bp, s)
    ensures Standing(bp, s, s.cursor)
  {
    var first: nat :| Invariant(bp, s.cursor, s, first);
    assert s.cursor <= NextBoundary(s);
  }

  /** What a tick needs of the state it starts from. */
  ghost predicate StepReady(bp: Blueprint, s: State) {
    && ValidBlueprint(bp) && TickReady(bp, s) && OccurrencesKnown(bp, s) && SprintOrdinal in s.counters
    && KindsKnown(bp, s.items)
  }

  lemma StandingParts(bp: Blueprint, s: State, now: int)
    requires ValidBlueprint(bp) && Standing(bp, s, now)
    ensures StepReady(bp, s) && OpenOrdinal(s) in s.sprints && s.cursor <= now <= NextBoundary(s)
  {
    var first: nat :| Invariant(bp, now, s, first) && s.cursor <= now <= NextBoundary(s);
    KindsFromInvariant(bp, s);
  }

  lemma SoundParts(bp: Blueprint, s: State)
    requires ValidBlueprint(bp) && Sound(bp, s)
    ensures StepReady(bp, s) && OpenOrdinal(s) in s.sprints && s.cursor <= NextBoundary(s)
  {
    SoundStands(bp, s);
    StandingParts(bp, s, s.cursor);
  }

  /** Short of its boundary, the bound a sprint puts on a tick is that boundary. */
  lemma SprintBoundIs(bp: Blueprint, now: int, s: State, first: nat, requested: int)
    requires SprintsOk(bp, now, s, first) && s.cursor <= now && s.cursor != NextBoundary(s)
    ensures SprintBound(s, requested) == Min(requested, NextBoundary(s))
  {
    var planned := FindSprint(s.sprints, (sprint: Sprint) => sprint.phase.Planned? && sprint.start > s.cursor, 0, Next(s, SprintOrdinal));
    var running := FindSprint(s.sprints, (sprint: Sprint) => sprint.phase.Running?, 0, Next(s, SprintOrdinal));
    assert planned.Some? ==> planned.value == OpenOrdinal(s);
    assert running.Some? ==> running.value == OpenOrdinal(s);
    assert OpenOrdinal(s) < Next(s, SprintOrdinal);
  }

  /** e is `bound`, or the first workday start before it that lies after the cursor while some rule waits for
      workday starts and some item is active. */
  ghost predicate EndsAt(bp: Blueprint, s: State, bound: int, e: int) {
    var watched := (exists r :: 0 <= r < |bp.rules| && bp.rules[r].trigger == WorkdayStarted)
                   && (exists i :: 0 <= i < |s.items| && s.items[i].life == Active);
    && s.cursor <= e <= bound
    && (watched ==> forall w :: IsStart(bp.calendar, w) && s.cursor < w ==> e <= w)
    && (e < bound ==> watched && s.cursor < e && IsStart(bp.calendar, e))
  }

  /** A tick is cut at the boundary of the sprint that is not completed and at the next workday start the
      rules wait for, and nowhere else. */
  lemma EffectiveEndExact(bp: Blueprint, now: int, s: State, first: nat, requested: int, k: nat)
    requires Valid(bp.calendar) && SprintsOk(bp, now, s, first) && s.cursor <= now && s.cursor < NextBoundary(s)
    requires s.cursor <= requested && k in s.sprints && s.sprints[k].phase != Completed
    ensures var boundary := if s.sprints[k].phase == Planned then s.sprints[k].start else s.sprints[k].end;
            EndsAt(bp, s, if requested <= boundary then requested else boundary, EffectiveEnd(bp, s, requested))
  {
    assert k == OpenOrdinal(s);
    SprintBoundIs(bp, now, s, first, requested);
    NextWorkdayLeast(bp.calendar, s.cursor, SprintBound(s, requested));
  }

  // ---------- One tick ----------

  /** The attempt a tick commits when no boundary is due. */
  ghost function AdvanceFrom(bp: Blueprint, draws: Draws, s: State, requested: int): (a: Attempted)
    requires StepReady(bp, s) && s.cursor <= requested
    ensures Ticks(bp, draws, s, a) && Placed(bp, a.risks.working.items, a.lane.slots)
    ensures a.end <= requested
  {
    EffectiveEndBounds(bp, s, requested);
    var a := Stable(bp, draws, s, EffectiveEnd(bp, s, requested));
    StableSettles(bp, draws, s, EffectiveEnd(bp, s, requested));
    TickParts(bp, draws, s, a);
    a
  }

  /** One tick: cross a boundary due at the cursor, without moving; otherwise advance. */
  ghost function StepFrom(bp: Blueprint, draws: Draws, s: State, requested: int): Outcome
    requires StepReady(bp, s) && s.cursor <= requested
  {
    var crossing := CrossBoundary(bp, draws, s, s.cursor);
    if crossing.Some? then crossing.value
    else FinishTick(bp, draws, AdvanceFrom(bp, draws, s, requested))
  }

  lemma StepAdvances(bp: Blueprint, draws: Draws, s: State, requested: int)
    requires StepReady(bp, s) && s.cursor <= requested && CrossBoundary(bp, draws, s, s.cursor).None?
    ensures var a, o := AdvanceFrom(bp, draws, s, requested), StepFrom(bp, draws, s, requested);
            o == FinishTick(bp, draws, a) && Committed(s, o).cursor == a.end
  {
  }

  /** The tick asks no clock to run backwards and closes no visit before its entry; otherwise it fails. */
  ghost predicate StepReadable(bp: Blueprint, draws: Draws, s: State, requested: int)
    requires StepReady(bp, s) && s.cursor <= requested
  {
    EffectiveEndBounds(bp, s, requested);
    CrossBoundary(bp, draws, s, s.cursor).None? ==>
      && StableReadable(bp, draws, s, EffectiveEnd(bp, s, requested))
      && var a := AdvanceFrom(bp, draws, s, requested); FinishReadable(a.lane.slots, a.end)
  }

  ghost function AdvanceTo(bp: Blueprint, draws: Draws, s: State, requested: int): (a: Attempted)
    requires ValidBlueprint(bp) && Sound(bp, s) && s.cursor <= requested
    ensures Ticks(bp, draws, s, a) && Placed(bp, a.risks.working.items, a.lane.slots)
    ensures a.end <= requested
  {
    SoundParts(bp, s);
    AdvanceFrom(bp, draws, s, requested)
  }

  ghost function TickStep(bp: Blueprint, draws: Draws, s: State, requested: int): Outcome
    requires ValidBlueprint(bp) && Sound(bp, s) && s.cursor <= requested
  {
    SoundParts(bp, s);
    StepFrom(bp, draws, s, requested)
  }

  // ---------- What a tick keeps ----------

  /** The attempt a readable iteration settles on closes visits in order. */
  lemma {:induction false} StableCloses(bp: Blueprint, draws: Draws, s: State, e: int)
    requires TickReady(bp, s) && NotPast(bp, s, e) && s.cursor <= e && StableReadable(bp, draws, s, e)
    ensures ClosedInOrder(s.visits, Stable(bp, draws, s, e).risks.working.visits)
    decreases e - s.cursor
  {
    var a := Attempt(bp, draws, s, e);
    if a.end < e {
      StableCloses(bp, draws, s, a.end);
    }
  }

  /** Every tick from a standing state that does not fail is accepted and leads to a standing state; the
      cursor never moves back, nor past the request, nor past the open sprint's boundary. */
  lemma StepStands(bp: Blueprint, draws: Draws, s: State, now: int, requested: int)
    requires ValidBlueprint(bp) && Standing(bp, s, now) && s.cursor <= requested
    requires StepReady(bp, s) && StepReadable(bp, draws, s, requested)
    ensures var o := StepFrom(bp, draws, s, requested);
            && Accepted(s, o) && Commit(s, CommandFor(s, o)) == Ok(Committed(s, o))
            && Standing(bp, Committed(s, o), Max(now, Committed(s, o).cursor))
            && s.cursor <= Committed(s, o).cursor <= requested
            && OpenOrdinal(s) in s.sprints && Committed(s, o).cursor <= NextBoundary(s)
  {
    var first: nat :| Invariant(bp, now, s, first) && s.cursor <= now <= NextBoundary(s);
    if s.cursor == NextBoundary(s) {
      CrossingStands(bp, draws, s, now, first, requested);
    } else {
      AdvanceStands(bp, draws, s, now, first, requested);
    }
    CommitReaches(s, StepFrom(bp, draws, s, requested));
  }

  /** What a tick that does not fail leads to. */
  ghost predicate StepsTo(bp: Blueprint, s: State, now: int, requested: int, o: Outcome)
    requires OpenOrdinal(s) in s.sprints
  {
    && Accepted(s, o) && Standing(bp, Committed(s, o), Max(now, Committed(s, o).cursor))
    && s.cursor <= Committed(s, o).cursor <= requested && Committed(s, o).cursor <= NextBoundary(s)
  }

  lemma CrossingStands(bp: Blueprint, draws: Draws, s: State, now: int, first: nat, requested: int)
    requires StepReady(bp, s) && Invariant(bp, now, s, first) && now == s.cursor == NextBoundary(s) <= requested
    ensures StepsTo(bp, s, now, requested, StepFrom(bp, draws, s, requested))
  {
    CrossingDue(bp, draws, now, s, first, now);
    CrossingKeeps(bp, draws, now, s, first, now);
    CrossingTouchesNothing(bp, draws, now, s, first, now);
    var after := Committed(s, StepFrom(bp, draws, s, requested));
    assert Invariant(bp, now, after, first);
    SoundStands(bp, after);
  }

  lemma AdvanceStands(bp: Blueprint, draws: Draws, s: State, now: int, first: nat, requested: int)
    requires StepReady(bp, s) && Invariant(bp, now, s, first) && s.cursor <= now <= NextBoundary(s)
    requires s.cursor <= requested && s.cursor != NextBoundary(s) && StepReadable(bp, draws, s, requested)
    ensures StepsTo(bp, s, now, requested, StepFrom(bp, draws, s, requested))
  {
    CrossingDue(bp, draws, now, s, first, s.cursor);
    StepAdvances(bp, draws, s, requested);
    SprintBoundIs(bp, now, s, first, requested);
    EffectiveEndBounds(bp, s, requested);
    StableCloses(bp, draws, s, EffectiveEnd(bp, s, requested));
    AttemptStands(bp, draws, s, now, first, AdvanceFrom(bp, draws, s, requested));
  }

  lemma AttemptStands(bp: Blueprint, draws: Draws, s: State, now: int, first: nat, a: Attempted)
    requires Ticks(bp, draws, s, a) && Placed(bp, a.risks.working.items, a.lane.slots) && ClosesInOrder(s, a)
    requires Invariant(bp, now, s, first) && s.cursor <= now <= NextBoundary(s) && a.end <= NextBoundary(s)
    ensures var o := FinishTick(bp, draws, a); Accepted(s, o) && Standing(bp, Committed(s, o), Max(now, a.end))
  {
    var later := Max(now, a.end);
    TickAccepted(bp, draws, s, a);
    TickKeeps(bp, draws, now, later, s, first, a);
    SprintsStay(bp, draws, s, a);
    assert Invariant(bp, later, Committed(s, FinishTick(bp, draws, a)), first);
  }

  /** An advance leaves the open sprint alone. */
  lemma SprintsStay(bp: Blueprint, draws: Draws, s: State, a: Attempted)
    requires Ticks(bp, draws, s, a) && Placed(bp, a.risks.working.items, a.lane.slots)
    ensures var after := Committed(s, FinishTick(bp, draws, a));
            after.sprints == s.sprints && OpenOrdinal(after) == OpenOrdinal(s)
  {
    TickParts(bp, draws, s, a);
    CountersKnown(bp, s);
    TickCounters(bp, draws, s, a, NextClaims(bp, draws, a.risks.working, a.lane.slots, a.end, |a.lane.slots|));
  }

  // ---------- From sound states no tick fails ----------

  /** No open visit was entered after the cursor. */
  ghost predicate NoneEarly(s: State) {
    forall key :: key in s.visits && s.visits[key].open ==> s.visits[key].entered <= s.cursor
  }

  lemma SlotsEntered(bp: Blueprint, s: State, working: State)
    requires ItemsOk(bp, working) && NoneEarly(working) && working.cursor == s.cursor
    ensures EnteredBy(SlotsOf(s, working), s.cursor)
  {
    var slots := SlotsOf(s, working);
    forall i | 0 <= i < |slots| && !slots[i].Idle? ensures slots[i].visit.entered <= s.cursor {
      assert ItemHolds(bp, working, i);
      SlotIs(bp, s, working, i);
    }
  }

  lemma OpenNotClosed(bp: Blueprint, s: State, key: (nat, nat))
    requires ItemsOk(bp, s) && key in s.visits && s.visits[key].open
    ensures s.visits[key].closed.None?
  {
    assert (key.0, key.1) in s.visits;
    assert ItemHolds(bp, s, key.0);
    assert VisitOk(bp, s.items[key.0], key.0, s.counters[VisitOrdinal(key.0)], key.1, s.visits[(key.0, key.1)]);
  }

  lemma RulesEntered(bp: Blueprint, draws: Draws, s: State, e: int)
    requires TickReady(bp, s) && NoneEarly(s)
    ensures var working := Evaluate(bp, draws, s, e, |bp.rules|).working;
            ClosedInOrder(s.visits, working.visits) && NoneEarly(working) && working.cursor == s.cursor
  {
    EvaluateVisits(bp, draws, s, e, |bp.rules|);
    RulesCursor(bp, draws, s, e, |bp.rules|);
    var working := Evaluate(bp, draws, s, e, |bp.rules|).working;
    forall key | key in s.visits && s.visits[key].open
      ensures working.visits[key].entered == s.visits[key].entered <= s.cursor
      ensures working.visits[key].closed.Some? ==> s.visits[key].entered <= working.visits[key].closed.value
    {
      EvaluateCloses(bp, draws, s, e, |bp.rules|, key);
      OpenNotClosed(bp, s, key);
    }
    forall key | key in working.visits && working.visits[key].open ensures s.visits[key].open {
      assert VisitStep(s.visits[key], working.visits[key]);
    }
  }

  /** Where no open visit was entered after the cursor, no clock runs backwards. */
  lemma AttemptNotEarly(bp: Blueprint, draws: Draws, s: State, e: int)
    requires TickReady(bp, s) && NotPast(bp, s, e) && s.cursor <= e && NoneEarly(s)
    ensures AttemptReadable(bp, draws, s, e) && EnteredBy(Attempt(bp, draws, s, e).lane.slots, s.cursor)
  {
    AttemptReady(bp, draws, s, e);
    AttemptMoves(bp, draws, s, e);
    RulesEntered(bp, draws, s, e);
    var working := Evaluate(bp, draws, s, e, |bp.rules|).working;
    SlotsEntered(bp, s, working);
    EnteredReadable(bp, working.overlays, Lane(SlotsOf(s, working), s.book, []), SegmentsOf(bp, working.overlays, s.cursor, e), s.cursor);
    StillEntered(SlotsOf(s, working), Attempt(bp, draws, s, e).lane.slots, s.cursor);
  }

  lemma {:induction false} StableNotEarly(bp: Blueprint, draws: Draws, s: State, e: int)
    requires TickReady(bp, s) && NotPast(bp, s, e) && s.cursor <= e && NoneEarly(s)
    ensures StableReadable(bp, draws, s, e) && EnteredBy(Stable(bp, draws, s, e).lane.slots, s.cursor)
    decreases e - s.cursor
  {
    AttemptNotEarly(bp, draws, s, e);
    var a := Attempt(bp, draws, s, e);
    if a.end < e {
      NotPastSooner(bp, s, e, a.end);
      StableNotEarly(bp, draws, s, a.end);
      StableNext(bp, draws, s, e, a.end);
    }
  }

  /** A tick fails only if some open visit was entered after the cursor. */
  lemma NotEarlyReadable(bp: Blueprint, draws: Draws, s: State, requested: int)
    requires StepReady(bp, s) && s.cursor <= requested && NoneEarly(s)
    ensures StepReadable(bp, draws, s, requested)
  {
    EffectiveEndBounds(bp, s, requested);
    StableNotEarly(bp, draws, s, EffectiveEnd(bp, s, requested));
  }

  /** No tick from a sound state fails. */
  lemma SoundReadable(bp: Blueprint, draws: Draws, s: State, requested: int)
    requires ValidBlueprint(bp) && Sound(bp, s) && s.cursor <= requested
    ensures StepReady(bp, s) && NoneEarly(s) && StepReadable(bp, draws, s, requested)
  {
    SoundParts(bp, s);
    SoundNotEarly(bp, s);
    NotEarlyReadable(bp, draws, s, requested);
  }

  lemma SoundNotEarly(bp: Blueprint, s: State)
    requires Sound(bp, s)
    ensures NoneEarly(s)
  {
    var first: nat :| Invariant(bp, s.cursor, s, first);
    forall key | key in s.visits && s.visits[key].open ensures s.visits[key].entered <= s.cursor {
      assert InTime(bp.anchor, s.cursor, s.visits[key]);
    }
  }

  /** Every tick from a sound state is accepted and leads to a sound state; the cursor never moves
      back, nor past the request, nor past the open sprint's boundary. */
  lemma TickStepSound(bp: Blueprint, draws: Draws, s: State, requested: int)
    requires ValidBlueprint(bp) && Sound(bp, s) && s.cursor <= requested
    ensures var o := TickStep(bp, draws, s, requested);
            && Accepted(s, o) && Commit(s, CommandFor(s, o)) == Ok(Committed(s, o)) && Sound(bp, Committed(s, o))
            && s.cursor <= Committed(s, o).cursor <= requested
            && OpenOrdinal(s) in s.sprints && Committed(s, o).cursor <= NextBoundary(s)
  {
    SoundStands(bp, s);
    SoundReadable(bp, draws, s, requested);
    StepStands(bp, draws, s, s.cursor, requested);
    StandsSound(bp, Committed(s, TickStep(bp, draws, s, requested)));
  }

  lemma StandsSound(bp: Blueprint, s: State)
    requires Standing(bp, s, s.cursor)
    ensures Sound(bp, s)
  {
    var first: nat :| Invariant(bp, s.cursor, s, first) && s.cursor <= s.cursor <= NextBoundary(s);
  }
}
