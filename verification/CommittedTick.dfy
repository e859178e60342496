/** First-completion exactness of the tick that is committed, after risks and iteration. */
module CommittedTick {
  import opened BusinessCalendar
  import opened Allocation
  import opened Team
  import opened Segments
  import opened Completion
  import opened FirstCompletion
  import opened CommittedEnd
  import opened Cutting
  import opened Routes
  import opened RunInvariant
  import opened Workdays
  import opened Risks
  import opened RiskLaws
  import opened Waits
  import opened Tick
  import opened Finish
  import opened TickLaws
  import opened TickRun
  import opened Progress
  import opened Steps

  // ---------- Rules do not depend on how far the tick goes ----------

  /** A dependency rule that sees state t leaves this visit alone: its status pauses anyway, its wait is
      over, or none has begun and none begins here, because it was entered earlier or its draw says so. */
  ghost predicate LeftAlone(bp: Blueprint, draws: Draws, rule: Rule, t: State, v: Visit) {
    || !v.open || v.status in PausingStatuses(bp) || rule.wait <= v.pause
    || (v.pause == 0 && (v.entered != t.cursor || !draws.depends(t, v.item)))
  }

  /** No rule makes any visit wait in a tick up to e. */
  ghost predicate NoWaits(bp: Blueprint, draws: Draws, s: State, e: int) {
    forall r, key :: 0 <= r < |bp.rules| && IsDependency(bp.rules[r]) && key in s.visits ==>
      LeftAlone(bp, draws, bp.rules[r], Seen(bp, draws, s, e, r), s.visits[key])
  }

  /** The rules so far have left every visit that is still open exactly as it was. */
  ghost predicate StillSame(s: State, t: State) {
    && t.cursor == s.cursor && t.visits.Keys == s.visits.Keys
    && forall key :: key in s.visits && t.visits[key].open ==> t.visits[key] == s.visits[key]
  }

  lemma DependIdle(bp: Blueprint, draws: Draws, s: State, e: int, r: nat, asOf: int)
    requires NoWaits(bp, draws, s, e) && r < |bp.rules| && IsDependency(bp.rules[r]) && StillSame(s, Seen(bp, draws, s, e, r))
    ensures Handle(bp, draws, bp.rules[r], Seen(bp, draws, s, e, r), asOf) == Evaluation(Seen(bp, draws, s, e, r), [], [])
  {
    var rule, t := bp.rules[r], Seen(bp, draws, s, e, r);
    forall key | key in t.visits ensures WaitDelta(bp, draws, rule, t, asOf, t.visits[key]) == 0 {
      assert LeftAlone(bp, draws, rule, t, s.visits[key]);
    }
    assert WaitVisits(bp, draws, rule, t, asOf) == t.visits;
  }

  lemma HandleStill(bp: Blueprint, draws: Draws, s: State, e: int, r: nat)
    requires NoWaits(bp, draws, s, e) && r < |bp.rules| && StillSame(s, Seen(bp, draws, s, e, r))
    ensures StillSame(s, Handle(bp, draws, bp.rules[r], Seen(bp, draws, s, e, r), e).working)
  {
    var rule, t := bp.rules[r], Seen(bp, draws, s, e, r);
    if IsDependency(rule) {
      DependIdle(bp, draws, s, e, r, e);
    } else {
      HandleVisits(bp, draws, rule, t, e);
      forall key | key in s.visits && Handle(bp, draws, rule, t, e).working.visits[key].open
        ensures Handle(bp, draws, rule, t, e).working.visits[key] == s.visits[key]
      {
        OtherRuleWaits(bp, draws, rule, t, e, key);
        StillOpenBefore(bp, draws, rule, t, e, key);
      }
    }
  }

  lemma {:induction false} EvaluateStill(bp: Blueprint, draws: Draws, s: State, e: int, n: nat)
    requires NoWaits(bp, draws, s, e) && n <= |bp.rules|
    ensures StillSame(s, Evaluate(bp, draws, s, e, n).working)
  {
    if n > 0 {
      EvaluateStill(bp, draws, s, e, n - 1);
      HandleStill(bp, draws, s, e, n - 1);
    }
  }

  lemma SameWorkday(bp: Blueprint, s: State, e1: int, e2: int)
    requires Valid(bp.calendar) && s.cursor < e1 && s.cursor < e2 && WorkdayRules(bp) && HasActive(s)
    requires NotPast(bp, s, e1) && NotPast(bp, s, e2)
    ensures WorkdayBoundary(bp.calendar, s.cursor, e1) == WorkdayBoundary(bp.calendar, s.cursor, e2)
  {
    WorkdayBoundaryLeast(bp.calendar, s.cursor, e1);
    WorkdayBoundaryLeast(bp.calendar, s.cursor, e2);
  }

  lemma {:induction false} NoClaimsIdle(bp: Blueprint, s: State, w: int, n: nat, m: nat)
    requires n <= |s.items| && !HasActive(s) && forall j :: 0 <= j < m ==> !OwnsOpen(s, j)
    ensures CancelClaims(s, w, n) == ([], []) && AbsenceClaims(s, w, m) == ([], [])
    decreases n + m
  {
    if n > 0 {
      NoClaimsIdle(bp, s, w, n - 1, m);
    }
    if m > 0 {
      NoClaimsIdle(bp, s, w, n, m - 1);
    }
  }

  lemma {:induction false} NoAbsencesIdle(draws: Draws, s: State, w: int, m: nat)
    requires forall j :: 0 <= j < m ==> !OwnsOpen(s, j)
    ensures Absences(draws, s, w, m) == []
  {
    if m > 0 {
      NoAbsencesIdle(draws, s, w, m - 1);
    }
  }

  /** Without active work nobody owns an open visit. */
  lemma NobodyOwns(bp: Blueprint, s: State, j: nat)
    requires ItemsOk(bp, s) && !HasActive(s)
    ensures !OwnsOpen(s, j)
  {
    forall i: nat, k: nat | (i, k) in s.visits ensures !s.visits[(i, k)].open {
      assert ItemHolds(bp, s, i);
      assert VisitOk(bp, s.items[i], i, s.counters[VisitOrdinal(i)], k, s.visits[(i, k)]);
      assert !s.items[i].life.Active?;
    }
    forall key | key in s.visits ensures !s.visits[key].open {
      assert !s.visits[(key.0, key.1)].open;
    }
    NoneOpenNoneOwned(s, j);
  }

  lemma NoneOpenNoneOwned(s: State, j: nat)
    requires forall key :: key in s.visits ==> !s.visits[key].open
    ensures !OwnsOpen(s, j)
  {
  }

  /** Without active work the workday rules do nothing. */
  lemma IdleHandle(bp: Blueprint, draws: Draws, rule: Rule, s: State, asOf: int)
    requires ItemsOk(bp, s) && !HasActive(s) && !IsDependency(rule)
    ensures Handle(bp, draws, rule, s, asOf) == Evaluation(s, [], [])
  {
    var w := WorkdayBoundary(bp.calendar, s.cursor, asOf);
    if w.Some? {
      forall j: nat | j < |bp.members| ensures !OwnsOpen(s, j) {
        NobodyOwns(bp, s, j);
      }
      NoClaimsIdle(bp, s, w.value, |s.items|, |bp.members|);
      NoAbsencesIdle(draws, s, w.value, |bp.members|);
      CancelsNone(draws, rule, s, w.value);
      assert s.overlays + [] == s.overlays;
    }
  }

  lemma SameHandle(bp: Blueprint, draws: Draws, s: State, e: int, m: int, r: nat)
    requires Valid(bp.calendar) && r < |bp.rules| && ItemsOk(bp, Seen(bp, draws, s, e, r)) && NoWaits(bp, draws, s, e)
    requires StillSame(s, Seen(bp, draws, s, e, r)) && RiskStep(bp, s, Seen(bp, draws, s, e, r))
    requires s.cursor < e && s.cursor < m && NotPast(bp, s, e) && NotPast(bp, s, m)
    ensures Handle(bp, draws, bp.rules[r], Seen(bp, draws, s, e, r), e) == Handle(bp, draws, bp.rules[r], Seen(bp, draws, s, e, r), m)
  {
    var rule, t := bp.rules[r], Seen(bp, draws, s, e, r);
    if IsDependency(rule) {
      DependIdle(bp, draws, s, e, r, e);
      DependIdle(bp, draws, s, e, r, m);
    } else if HasActive(s) {
      if rule.trigger.WorkdayStarted? {
        assert WorkdayRules(bp);
        SameWorkday(bp, s, e, m);
      }
    } else {
      NoneActive(bp, s, t);
      IdleHandle(bp, draws, rule, t, e);
      IdleHandle(bp, draws, rule, t, m);
    }
  }

  lemma NoneActive(bp: Blueprint, s: State, t: State)
    requires RiskStep(bp, s, t) && !HasActive(s)
    ensures !HasActive(t)
  {
    forall i | 0 <= i < |t.items| ensures !t.items[i].life.Active? {
      assert !s.items[i].life.Active?;
    }
  }

  /** When no visit waits, every tick past the cursor sees the same rules applied, however far it goes. */
  lemma {:induction false} EvaluateSame(bp: Blueprint, draws: Draws, s: State, e: int, m: int, n: nat)
    requires TickReady(bp, s) && NoWaits(bp, draws, s, e) && n <= |bp.rules|
    requires s.cursor < e && s.cursor < m && NotPast(bp, s, e) && NotPast(bp, s, m)
    ensures Evaluate(bp, draws, s, e, n) == Evaluate(bp, draws, s, m, n)
  {
    if n > 0 {
      EvaluateSame(bp, draws, s, e, m, n - 1);
      EvaluateKeeps(bp, draws, s, e, n - 1);
      EvaluateStill(bp, draws, s, e, n - 1);
      SameHandle(bp, draws, s, e, m, n - 1);
    }
  }

  lemma NoWaitsSooner(bp: Blueprint, draws: Draws, s: State, e: int, m: int)
    requires TickReady(bp, s) && NoWaits(bp, draws, s, e)
    requires s.cursor < e && s.cursor < m && NotPast(bp, s, e) && NotPast(bp, s, m)
    ensures NoWaits(bp, draws, s, m)
  {
    forall r: nat | r < |bp.rules| ensures Seen(bp, draws, s, m, r) == Seen(bp, draws, s, e, r) {
      EvaluateSame(bp, draws, s, e, m, r);
    }
  }

  // ---------- The committed end ----------

  /** The lane a tick starts from, once the rules due by e have been applied. */
  ghost function StartLane(bp: Blueprint, draws: Draws, s: State, e: int): Lane {
    Lane(SlotsOf(s, Evaluate(bp, draws, s, e, |bp.rules|).working), s.book, [])
  }

  ghost function TickOverlays(bp: Blueprint, draws: Draws, s: State, e: int): seq<Overlay> {
    Evaluate(bp, draws, s, e, |bp.rules|).working.overlays
  }

  /** Members are present or absent, no visit is made to wait in this tick, every open visit has a
      covered pause and works, and none is complete yet. */
  ghost predicate Predictable(bp: Blueprint, draws: Draws, s: State, e: int) {
    && TickReady(bp, s) && NotPast(bp, s, e) && s.cursor < e && NoWaits(bp, draws, s, e)
    && Ready(bp, TickOverlays(bp, draws, s, e), StartLane(bp, draws, s, e), s.cursor)
    && !CompleteNow(bp.calendar, StartLane(bp, draws, s, e).slots, s.cursor)
  }

  /** end is the first instant in [cursor, e] at which some visit is complete in the reference run of
      the tick, or e if there is none, and lane is the reference state there. */
  ghost predicate FirstEnd(bp: Blueprint, draws: Draws, s: State, e: int, lane: Lane, end: int)
    requires Predictable(bp, draws, s, e)
  {
    AttemptReady(bp, draws, s, e);
    var overlays, start := TickOverlays(bp, draws, s, e), StartLane(bp, draws, s, e);
    var segs := SegmentsOf(bp, overlays, s.cursor, e);
    IsFirst(bp, overlays, start, segs, s.cursor, e, end) && lane == At(bp, overlays, start, segs, end)
  }

  lemma AttemptIsFirst(bp: Blueprint, draws: Draws, s: State, e: int)
    requires Predictable(bp, draws, s, e)
    ensures var a := Attempt(bp, draws, s, e); FirstEnd(bp, draws, s, e, a.lane, a.end)
  {
    AttemptReady(bp, draws, s, e);
    SegmentsChained(bp, TickOverlays(bp, draws, s, e), s.cursor, e);
    FirstCompletionExact(bp, TickOverlays(bp, draws, s, e), StartLane(bp, draws, s, e),
                         SegmentsOf(bp, TickOverlays(bp, draws, s, e), s.cursor, e), s.cursor, e);
  }

  /** A shorter tick from the same state meets the same conditions and starts the same way. */
  lemma ShorterPredictable(bp: Blueprint, draws: Draws, s: State, e: int, m: int)
    requires Predictable(bp, draws, s, e) && s.cursor < m <= e
    ensures Predictable(bp, draws, s, m)
    ensures StartLane(bp, draws, s, m) == StartLane(bp, draws, s, e) && TickOverlays(bp, draws, s, m) == TickOverlays(bp, draws, s, e)
    ensures Evaluate(bp, draws, s, m, |bp.rules|) == Evaluate(bp, draws, s, e, |bp.rules|)
  {
    NotPastSooner(bp, s, e, m);
    EvaluateSame(bp, draws, s, e, m, |bp.rules|);
    NoWaitsSooner(bp, draws, s, e, m);
  }

  /** Whatever is first over the longer tick is reached, in the same state, by the tick cut there. */
  lemma FirstOfShorter(bp: Blueprint, overlays: seq<Overlay>, start: Lane, s: int, m: int, e: int, end: int)
    requires Valid(bp.calendar) && ValidWindows(bp, overlays) && Staffed(bp, start.slots) && s <= m <= e
    requires Forward(SegmentsOf(bp, overlays, s, e)) && Forward(SegmentsOf(bp, overlays, s, m))
    requires IsFirst(bp, overlays, start, SegmentsOf(bp, overlays, s, e), s, e, m)
    requires IsFirst(bp, overlays, start, SegmentsOf(bp, overlays, s, m), s, m, end)
    ensures end == m
    ensures At(bp, overlays, start, SegmentsOf(bp, overlays, s, m), m) == At(bp, overlays, start, SegmentsOf(bp, overlays, s, e), m)
  {
    var long := SegmentsOf(bp, overlays, s, e);
    SegmentsGood(bp, overlays, s, e);
    SegmentsUpto(bp, overlays, s, m, e);
    AtUpto(bp, overlays, start, long, s, e, m, m);
    AtUpto(bp, overlays, start, long, s, e, m, end);
  }

  lemma SettlesThere(bp: Blueprint, draws: Draws, s: State, e: int, m: int)
    requires Predictable(bp, draws, s, e) && s.cursor < m <= e && m == Attempt(bp, draws, s, e).end
    ensures NotPast(bp, s, m) && Attempt(bp, draws, s, m) == Attempt(bp, draws, s, e)
  {
    ShorterPredictable(bp, draws, s, e, m);
    AttemptIsFirst(bp, draws, s, e);
    AttemptIsFirst(bp, draws, s, m);
    AttemptReady(bp, draws, s, e);
    AttemptReady(bp, draws, s, m);
    FirstOfShorter(bp, TickOverlays(bp, draws, s, e), StartLane(bp, draws, s, e), s.cursor, m, e, Attempt(bp, draws, s, m).end);
  }

  lemma FirstLater(bp: Blueprint, overlays: seq<Overlay>, lane: Lane, segs: seq<Segment>, from: int, e: int, end: int)
    requires ValidWindows(bp, overlays) && Staffed(bp, lane.slots) && Forward(segs) && (segs == [] || from <= segs[0].start)
    requires IsFirst(bp, overlays, lane, segs, from, e, end) && from < e && !CompleteNow(bp.calendar, lane.slots, from)
    ensures from < end
  {
    assert At(bp, overlays, lane, segs, from) == lane;
  }

  /** The first end lies past the cursor. */
  lemma EndsLater(bp: Blueprint, draws: Draws, s: State, e: int, lane: Lane, end: int)
    requires Predictable(bp, draws, s, e) && FirstEnd(bp, draws, s, e, lane, end)
    ensures s.cursor < end <= e
  {
    AttemptReady(bp, draws, s, e);
    FirstLater(bp, TickOverlays(bp, draws, s, e), StartLane(bp, draws, s, e),
               SegmentsOf(bp, TickOverlays(bp, draws, s, e), s.cursor, e), s.cursor, e, end);
  }

  /** First-completion exactness of a whole tick: the committed end is the first instant, up to the
      effective end, at which some visit is complete; the committed state is the reference state at that
      instant; and the rules in the commit are those of the whole tick. */
  lemma CommittedEndExact(bp: Blueprint, draws: Draws, s: State, e: int)
    requires Predictable(bp, draws, s, e)
    ensures var a := Stable(bp, draws, s, e);
            FirstEnd(bp, draws, s, e, a.lane, a.end) && a.risks == Evaluate(bp, draws, s, e, |bp.rules|)
  {
    AttemptIsFirst(bp, draws, s, e);
    var a := Attempt(bp, draws, s, e);
    EndsLater(bp, draws, s, e, a.lane, a.end);
    if a.end < e {
      SettlesThere(bp, draws, s, e, a.end);
      StableNext(bp, draws, s, e, a.end);
      AlreadySettled(bp, draws, s, a.end, a);
    } else {
      AlreadySettled(bp, draws, s, e, a);
    }
  }

  /** In the committed state an open visit of the team is closed exactly if its touch and dwell are done
      at the committed end, and then it is closed at that instant; otherwise it is as its slot left it. */
  lemma ClosesExactly(bp: Blueprint, draws: Draws, s: State, e: int, i: nat)
    requires ValidBlueprint(bp) && OccurrencesKnown(bp, s) && SprintOrdinal in s.counters
    requires Predictable(bp, draws, s, e) && i < |s.items|
    ensures var a := Stable(bp, draws, s, e);
            && Placed(bp, a.risks.working.items, a.lane.slots) && i < |a.lane.slots|
            && var after, slot := FinishTick(bp, draws, a).after.visits, a.lane.slots[i];
            && (!slot.Idle? ==>
                  var key := (i, slot.visit.ordinal);
                  && key in s.visits && s.visits[key].open && key in after
                  && (!after[key].open <==> CompleteAt(slot, Clock(bp.calendar, slot, a.end)))
                  && (if after[key].open then after[key] == slot.visit else after[key].closed == Some(a.end)))
            && (slot.Idle? ==>
                  forall k: nat :: (i, k) in s.visits ==>
                    (i, k) in after && after[(i, k)] == a.risks.working.visits[(i, k)] && !after[(i, k)].open)
  {
    StableSettles(bp, draws, s, e);
    var a := Stable(bp, draws, s, e);
    TickParts(bp, draws, s, a);
    CarryingAt(bp, s, a, i);
    if a.lane.slots[i].Idle? {
      forall k: nat | (i, k) in s.visits
        ensures (i, k) in VisitsAfter(bp, draws, a) && VisitsAfter(bp, draws, a)[(i, k)] == a.risks.working.visits[(i, k)]
        ensures !a.risks.working.visits[(i, k)].open
      {
        FinishKeys(bp, draws, a.risks.working, a.lane.slots, a.end, i, k);
        NextKeys(bp, draws, a.risks.working, a.lane.slots, a.end, i, k);
        LastIsOpen(bp, s, a.risks.working, i, k);
      }
    } else {
      ClosedSlot(bp, draws, s, a, i, a.lane.slots[i].visit.ordinal);
    }
  }

  lemma ClosedSlot(bp: Blueprint, draws: Draws, s: State, a: Attempted, i: nat, k: nat)
    requires Ticks(bp, draws, s, a) && Advancing(bp, s, a) && Placed(bp, a.risks.working.items, a.lane.slots)
    requires i < |s.items| && |a.lane.slots| == |s.items| && !a.lane.slots[i].Idle? && k == a.lane.slots[i].visit.ordinal
    ensures var after := FinishTick(bp, draws, a).after.visits;
            && (i, k) in s.visits && s.visits[(i, k)].open && (i, k) in after
            && (!after[(i, k)].open <==> CompleteAt(a.lane.slots[i], Clock(bp.calendar, a.lane.slots[i], a.end)))
            && (if after[(i, k)].open then after[(i, k)] == a.lane.slots[i].visit else after[(i, k)].closed == Some(a.end))
  {
    CarryingAt(bp, s, a, i);
    FinishKeys(bp, draws, a.risks.working, a.lane.slots, a.end, i, k);
    NextKeys(bp, draws, a.risks.working, a.lane.slots, a.end, i, k);
    LastIsOpen(bp, s, a.risks.working, i, k);
    EvaluateVisits(bp, draws, s, a.end, |bp.rules|);
    assert VisitStep(s.visits[(i, k)], a.risks.working.visits[(i, k)]);
    SlotStaysOpen(bp, s, a, i);
  }

  lemma SlotStaysOpen(bp: Blueprint, s: State, a: Attempted, i: nat)
    requires Advancing(bp, s, a) && i < |a.lane.slots| && i < |a.risks.working.items| && !a.lane.slots[i].Idle?
    ensures a.lane.slots[i].visit.open
  {
    CarryingAt(bp, s, a, i);
    assert ItemHolds(bp, a.risks.working, i);
    SlotIs(bp, s, a.risks.working, i);
  }

  // ---------- States in which a tick is predictable ----------

  lemma {:induction false} AbsencesBinary(draws: Draws, s: State, w: int, m: nat)
    ensures forall k :: 0 <= k < |Absences(draws, s, w, m)| ==> Binary(Absences(draws, s, w, m)[k].window)
  {
    if m > 0 {
      AbsencesBinary(draws, s, w, m - 1);
    }
  }

  ghost predicate BinaryOverlays(overlays: seq<Overlay>) {
    forall k :: 0 <= k < |overlays| ==> Binary(overlays[k].window)
  }

  /** Rules only ever add full absences. */
  lemma {:induction false} RulesAddBinary(bp: Blueprint, draws: Draws, s: State, asOf: int, n: nat)
    requires n <= |bp.rules| && BinaryOverlays(s.overlays)
    ensures BinaryOverlays(Evaluate(bp, draws, s, asOf, n).working.overlays)
  {
    if n > 0 {
      RulesAddBinary(bp, draws, s, asOf, n - 1);
      var before := Evaluate(bp, draws, s, asOf, n - 1).working;
      var w := WorkdayBoundary(bp.calendar, before.cursor, asOf);
      if w.Some? {
        AbsencesBinary(draws, before, w.value, |bp.members|);
      }
    }
  }

  /** The state's own visits, before any rule. */
  ghost predicate NeverPaused(bp: Blueprint, s: State) {
    forall key :: key in s.visits && s.visits[key].open ==>
      s.visits[key].pause == 0 && s.visits[key].status !in PausingStatuses(bp)
  }

  lemma SlotNeverPaused(bp: Blueprint, draws: Draws, s: State, e: int, i: nat)
    requires ValidBlueprint(bp) && TickReady(bp, s) && NotPast(bp, s, e) && s.cursor < e && NoWaits(bp, draws, s, e) && NeverPaused(bp, s)
    requires i < |s.items|
    ensures var working := Evaluate(bp, draws, s, e, |bp.rules|).working;
            i < |working.items| && Clean(PausingStatuses(bp), SlotAt(s, working, i), Clock(bp.calendar, SlotAt(s, working, i), s.cursor))
  {
    var working := Evaluate(bp, draws, s, e, |bp.rules|).working;
    EvaluateKeeps(bp, draws, s, e, |bp.rules|);
    assert ItemHolds(bp, working, i);
    SlotIs(bp, s, working, i);
    if !SlotAt(s, working, i).Idle? {
      EvaluateStill(bp, draws, s, e, |bp.rules|);
      assert working.visits[(i, OpenKey(working, i).value)] == s.visits[(i, OpenKey(working, i).value)];
    }
  }

  /** With everyone present or absent, and open visits that have never been paused, are not made to wait
      and are not complete, a tick is predictable, whatever rules the team has. */
  lemma NeverPausedPredictable(bp: Blueprint, draws: Draws, s: State, e: int)
    requires ValidBlueprint(bp) && TickReady(bp, s) && NotPast(bp, s, e) && s.cursor < e && NoWaits(bp, draws, s, e) && NeverPaused(bp, s)
    requires PresentOrAbsent(bp, s.overlays) && !CompleteNow(bp.calendar, SlotsOf(s, s), s.cursor) && NoneEarly(s)
    ensures Predictable(bp, draws, s, e)
  {
    var working := Evaluate(bp, draws, s, e, |bp.rules|).working;
    AttemptReady(bp, draws, s, e);
    EvaluateVisits(bp, draws, s, e, |bp.rules|);
    RulesAddBinary(bp, draws, s, e, |bp.rules|);
    RulesEntered(bp, draws, s, e);
    SlotsEntered(bp, s, working);
    var slots := SlotsOf(s, working);
    forall i | 0 <= i < |slots|
      ensures Clean(PausingStatuses(bp), slots[i], Clock(bp.calendar, slots[i], s.cursor))
      ensures !CompleteAt(slots[i], Clock(bp.calendar, slots[i], s.cursor))
    {
      SlotNeverPaused(bp, draws, s, e, i);
      assert !CompleteAt(SlotsOf(s, s)[i], Clock(bp.calendar, SlotsOf(s, s)[i], s.cursor));
      if CompleteAt(slots[i], Clock(bp.calendar, slots[i], s.cursor)) {
        StuckSlot(bp, s, working, i);
      }
    }
  }
}
