/** External-dependency waits over whole runs of ticks. */
module WaitRuns {
  import opened BusinessCalendar
  import opened Allocation
  import opened AllocationLaws
  import opened Team
  import opened Segments
  import opened FirstCompletion
  import opened Routes
  import opened RunInvariant
  import opened Lifecycle
  import opened SprintRun
  import opened Risks
  import opened Waits
  import opened Tick
  import opened Finish
  import opened TickLaws
  import opened TickRun
  import opened Steps
  import opened Decisions

  // ---------- Pause inside a tick ----------

  /** Only a pausing status makes a segment pause a visit. */
  ghost predicate PauseKept(bp: Blueprint, a: Slot, b: Slot) {
    (a.Idle? <==> b.Idle?) && (!a.Idle? ==> b.visit.status == a.visit.status && (a.visit.status !in PausingStatuses(bp) ==> b.visit.pause == a.visit.pause))
  }

  lemma StepPause(bp: Blueprint, overlays: seq<Overlay>, lane: Lane, g: Segment, i: nat)
    requires ValidWindows(bp, overlays) && g.start <= g.end && Staffed(bp, lane.slots) && i < |lane.slots|
    ensures PauseKept(bp, lane.slots[i], StepSegment(bp, overlays, lane, g).slots[i])
  {
    SegmentEffect(DeskFor(bp, overlays, g), DaySpent(bp, lane.book, g.day), lane.slots, i);
  }

  lemma {:induction false} WalkPause(bp: Blueprint, overlays: seq<Overlay>, lane: Lane, segs: seq<Segment>, e: int, i: nat)
    requires ValidWindows(bp, overlays) && Staffed(bp, lane.slots) && Forward(segs) && i < |lane.slots|
    ensures PauseKept(bp, lane.slots[i], Walk(bp, overlays, lane, segs, e).0.slots[i])
    decreases |segs|
  {
    if segs != [] {
      var boundary := SegmentBoundary(bp, overlays, lane, segs[0]);
      if boundary.Some? {
        StepPause(bp, overlays, lane, Cut(segs[0], boundary.value), i);
      } else {
        StepPause(bp, overlays, lane, segs[0], i);
        WalkPause(bp, overlays, OneSegment(bp, overlays, lane, segs[0]).0, segs[1..], e, i);
      }
    }
  }

  // ---------- What a tick does to one visit ----------

  /** v is what a tick up to `end` makes of visit u that the rules left as b. */
  ghost predicate Passes(bp: Blueprint, end: int, b: Visit, v: Visit) {
    && v.entered == b.entered && v.status == b.status
    && (v.open ==> b.open)
    && (v.status !in PausingStatuses(bp) ==> v.pause == b.pause)
    && v.credited >= b.credited
  }

  lemma SlotPasses(bp: Blueprint, draws: Draws, s: State, a: Attempted, i: nat)
    requires Ticks(bp, draws, s, a) && Placed(bp, a.risks.working.items, a.lane.slots) && Advancing(bp, s, a)
    requires i < |a.lane.slots| && |a.lane.slots| == |s.items| && !a.lane.slots[i].Idle?
    ensures var n := Next(a.risks.working, VisitOrdinal(i));
            n > 0 && (i, n - 1) in a.risks.working.visits
            && Passes(bp, a.end, a.risks.working.visits[(i, n - 1)], ClosingAt(bp, draws, a.risks.working, a.lane.slots, a.end, i).visit)
            && (SlotAt(s, a.risks.working, i).Held? ==>
                  ClosingAt(bp, draws, a.risks.working, a.lane.slots, a.end, i).visit.credited == a.risks.working.visits[(i, n - 1)].credited)
  {
    AttemptReady(bp, draws, s, a.end);
    CarryingAt(bp, s, a, i);
    assert ItemHolds(bp, a.risks.working, i);
    SlotIs(bp, s, a.risks.working, i);
    WalkPause(bp, a.risks.working.overlays, Lane(SlotsOf(s, a.risks.working), s.book, []),
              SegmentsOf(bp, a.risks.working.overlays, s.cursor, a.end), a.end, i);
    assert Moved(SlotAt(s, a.risks.working, i), a.lane.slots[i]);
  }

  /** Every visit the tick started from is still there, moved on as its slot says. */
  lemma OldVisitPasses(bp: Blueprint, draws: Draws, s: State, a: Attempted, i: nat, k: nat)
    requires Ticks(bp, draws, s, a) && Placed(bp, a.risks.working.items, a.lane.slots) && Advancing(bp, s, a)
    requires |a.lane.slots| == |s.items| && (i, k) in a.risks.working.visits
    ensures (i, k) in VisitsAfter(bp, draws, a)
    ensures Passes(bp, a.end, a.risks.working.visits[(i, k)], VisitsAfter(bp, draws, a)[(i, k)])
    ensures !a.risks.working.visits[(i, k)].open ==> VisitsAfter(bp, draws, a)[(i, k)] == a.risks.working.visits[(i, k)]
    ensures a.risks.working.visits[(i, k)].open ==> OpenKey(a.risks.working, i) == Some(k)
    ensures a.risks.working.visits[(i, k)].open && Blocked(s, a.risks.working, i) ==>
              VisitsAfter(bp, draws, a)[(i, k)].credited == a.risks.working.visits[(i, k)].credited
  {
    var working := a.risks.working;
    FinishKeys(bp, draws, working, a.lane.slots, a.end, i, k);
    NextKeys(bp, draws, working, a.lane.slots, a.end, i, k);
    CarryingAt(bp, s, a, i);
    LastIsOpen(bp, s, working, i, k);
    if !a.lane.slots[i].Idle? {
      SlotPasses(bp, draws, s, a, i);
    }
  }

  /** A visit the tick did not start from was opened at its end. */
  lemma NewVisitFresh(bp: Blueprint, draws: Draws, s: State, a: Attempted, i: nat, k: nat)
    requires Ticks(bp, draws, s, a) && Placed(bp, a.risks.working.items, a.lane.slots) && Advancing(bp, s, a)
    requires |a.lane.slots| == |s.items| && (i, k) in VisitsAfter(bp, draws, a) && (i, k) !in a.risks.working.visits
    ensures VisitsAfter(bp, draws, a)[(i, k)].entered == a.end && VisitsAfter(bp, draws, a)[(i, k)].pause == 0
  {
    FinishKeys(bp, draws, a.risks.working, a.lane.slots, a.end, i, k);
    NextKeys(bp, draws, a.risks.working, a.lane.slots, a.end, i, k);
    CarryingAt(bp, s, a, i);
    if (i, k) in NextVisits(bp, draws, a.risks.working, a.lane.slots, a.end) {
      NextEntered(bp, draws, a, i);
    }
  }

  lemma NextEntered(bp: Blueprint, draws: Draws, a: Attempted, i: nat)
    requires Placed(bp, a.risks.working.items, a.lane.slots) && i < |a.lane.slots| && NextRise(bp, draws, a, i) == 1
    ensures var v := ClosingAt(bp, draws, a.risks.working, a.lane.slots, a.end, i).next.value; v.entered == a.end && v.pause == 0
  {
  }

  // ---------- One tick ----------

  /** The wait is under way: begun, and not yet as long as configured. */
  ghost predicate WaitRunning(w: nat, v: Visit) {
    0 < v.pause < w
  }

  /** From instant `from` to instant `to` a visit u became v: it waited as its dependency says, and a
      wait under way earned it no labor. */
  ghost predicate WaitPasses(bp: Blueprint, from: int, to: int, u: Visit, v: Visit) {
    && v.entered == u.entered && v.status == u.status && (v.open ==> u.open)
    && (u.status !in PausingStatuses(bp) && v.open ==> WaitsTo(bp, WaitOf(bp, |bp.rules|), from, to, u, v))
    && (u.status !in PausingStatuses(bp) && u.open && v.pause > u.pause ==> v.credited == u.credited)
    && (u.status !in PausingStatuses(bp) && u.open && WaitRunning(WaitOf(bp, |bp.rules|), u) && from < to ==> v.credited == u.credited)
  }

  /** What a tick does to the visits of a team. */
  ghost predicate WaitTick(bp: Blueprint, s: State, t: State) {
    && s.cursor <= t.cursor
    && (forall key :: key in s.visits ==> key in t.visits && WaitPasses(bp, s.cursor, t.cursor, s.visits[key], t.visits[key]))
    && (forall key :: key in t.visits && key !in s.visits ==> t.visits[key].entered == t.cursor && t.visits[key].pause == 0)
  }

  lemma WaitsThrough(bp: Blueprint, from: int, to: int, u: Visit, b: Visit, v: Visit)
    requires VisitStep(u, b) && (b.open ==> WaitsTo(bp, WaitOf(bp, |bp.rules|), from, to, u, b)) && Passes(bp, to, b, v)
    requires !b.open ==> v == b
    requires b.open && b.pause > u.pause ==> v.credited == b.credited
    ensures WaitPasses(bp, from, to, u, v)
  {
  }

  lemma AdvanceVisit(bp: Blueprint, draws: Draws, s: State, a: Attempted, i: nat, k: nat)
    requires Ticks(bp, draws, s, a) && Placed(bp, a.risks.working.items, a.lane.slots) && Advancing(bp, s, a)
    requires |a.lane.slots| == |s.items| && (i, k) in s.visits
    ensures (i, k) in VisitsAfter(bp, draws, a)
    ensures WaitPasses(bp, s.cursor, a.end, s.visits[(i, k)], VisitsAfter(bp, draws, a)[(i, k)])
  {
    EvaluateVisits(bp, draws, s, a.end, |bp.rules|);
    assert VisitStep(s.visits[(i, k)], a.risks.working.visits[(i, k)]);
    EvaluateWaits(bp, draws, s, a.end, |bp.rules|, (i, k));
    OldVisitPasses(bp, draws, s, a, i, k);
    WaitsThrough(bp, s.cursor, a.end, s.visits[(i, k)], a.risks.working.visits[(i, k)], VisitsAfter(bp, draws, a)[(i, k)]);
  }

  lemma AdvanceWaits(bp: Blueprint, draws: Draws, s: State, a: Attempted)
    requires Ticks(bp, draws, s, a) && Placed(bp, a.risks.working.items, a.lane.slots)
    ensures WaitTick(bp, s, FinishTick(bp, draws, a).after)
  {
    TickParts(bp, draws, s, a);
    var after := FinishTick(bp, draws, a).after;
    forall key | key in s.visits
      ensures key in after.visits && WaitPasses(bp, s.cursor, a.end, s.visits[key], after.visits[key])
    {
      AdvanceVisit(bp, draws, s, a, key.0, key.1);
    }
    forall key | key in after.visits && key !in s.visits ensures after.visits[key].entered == a.end && after.visits[key].pause == 0 {
      NewVisitFresh(bp, draws, s, a, key.0, key.1);
    }
  }

  lemma CrossingWaits(bp: Blueprint, draws: Draws, s: State, first: nat)
    requires ValidBlueprint(bp) && Invariant(bp, s.cursor, s, first) && KindsKnown(bp, s.items) && NextBoundary(s) == s.cursor
    ensures CrossBoundary(bp, draws, s, s.cursor).Some? && WaitTick(bp, s, CrossBoundary(bp, draws, s, s.cursor).value.after)
  {
    CrossingTouchesNothing(bp, draws, s.cursor, s, first, s.cursor);
    CrossingDue(bp, draws, s.cursor, s, first, s.cursor);
    var after := CrossBoundary(bp, draws, s, s.cursor).value.after;
    if OpenSprint(s).phase.Planned? {
      var ids := ActivationPlans(bp, draws, s, OpenOrdinal(s), s.cursor);
      PlanWaits(bp, draws, s, ids, after);
    } else {
      PlanWaits(bp, draws, s, RolloverBacklog(bp, draws, s, OpenOrdinal(s)), after);
    }
  }

  lemma PlanWaits(bp: Blueprint, draws: Draws, s: State, ids: seq<nat>, after: State)
    requires KindsKnown(bp, s.items) && after.cursor == s.cursor
    requires after.visits == s.visits + Opened(bp, draws, s.items, ids, s.cursor)
    requires forall key :: key in s.visits ==> key in after.visits && after.visits[key] == s.visits[key]
    ensures WaitTick(bp, s, after)
  {
    PlannedFresh(bp, draws, s, ids);
  }

  lemma PlannedFresh(bp: Blueprint, draws: Draws, s: State, ids: seq<nat>)
    requires KindsKnown(bp, s.items)
    ensures var added := Opened(bp, draws, s.items, ids, s.cursor);
            forall key :: key in added ==> added[key].entered == s.cursor && added[key].pause == 0
  {
    var added := Opened(bp, draws, s.items, ids, s.cursor);
    forall key | key in added ensures added[key].entered == s.cursor && added[key].pause == 0 {
      PlannedVisits(bp, draws, s, ids, s.cursor, key.0, key.1);
    }
  }

  lemma TickWaits(bp: Blueprint, r: Ticked)
    requires IsTick(bp, r)
    ensures WaitTick(bp, r.before, r.after)
  {
    var now :| Standing(bp, r.before, now);
    StandingParts(bp, r.before, now);
    var first: nat :| Invariant(bp, now, r.before, first);
    CrossingDue(bp, r.draws, now, r.before, first, r.before.cursor);
    if NextBoundary(r.before) == r.before.cursor {
      CrossingTouchesNothing(bp, r.draws, now, r.before, first, now);
      CrossingWaits(bp, r.draws, r.before, first);
    } else {
      StepAdvances(bp, r.draws, r.before, r.requested);
      AdvanceWaits(bp, r.draws, r.before, AdvanceFrom(bp, r.draws, r.before, r.requested));
    }
  }

  // ---------- Runs ----------

  /** Every open visit in a working status has not waited, or has waited exactly as long as it could:
      the configured wait, or the time since it was entered if that is less. */
  ghost predicate AllWaited(bp: Blueprint, s: State) {
    forall key :: key in s.visits && s.visits[key].open && s.visits[key].status !in PausingStatuses(bp) ==>
      s.visits[key].entered <= s.cursor
      && (s.visits[key].pause == 0 || s.visits[key].pause == Min(WaitOf(bp, |bp.rules|), s.cursor - s.visits[key].entered))
  }

  lemma WaitedOn(bp: Blueprint, s: State, t: State)
    requires WaitTick(bp, s, t) && AllWaited(bp, s)
    ensures AllWaited(bp, t)
  {
    forall key | key in t.visits && t.visits[key].open && t.visits[key].status !in PausingStatuses(bp)
      ensures t.visits[key].entered <= t.cursor
      ensures t.visits[key].pause == 0 || t.visits[key].pause == Min(WaitOf(bp, |bp.rules|), t.cursor - t.visits[key].entered)
    {
      if key in s.visits {
        assert WaitPasses(bp, s.cursor, t.cursor, s.visits[key], t.visits[key]);
      }
    }
  }

  /** Over any run of ticks, waits are always exactly as long as they should be by now. */
  lemma {:induction false} WaitsExact(bp: Blueprint, run: seq<Ticked>, k: nat)
    requires IsRun(bp, run) && k < |run| && AllWaited(bp, run[0].before)
    ensures AllWaited(bp, run[k].before) && AllWaited(bp, run[k].after)
  {
    if k > 0 {
      WaitsExact(bp, run, k - 1);
      assert run[(k - 1) + 1].before == run[k - 1].after;
    }
    assert IsTick(bp, run[k]);
    TickWaits(bp, run[k]);
    WaitedOn(bp, run[k].before, run[k].after);
  }

  /** The tick draws the dependency outcome of this visit. */
  ghost predicate DrawnIn(bp: Blueprint, r: Ticked, key: (nat, nat)) {
    && key in r.before.visits
    && exists k :: 0 <= k < |bp.rules| && IsDependency(bp.rules[k])
         && DrawsDependency(bp, bp.rules[k], r.before, r.after.cursor, r.before.visits[key])
  }

  ghost predicate AllWaitTicks(bp: Blueprint, run: seq<Ticked>) {
    Linked(run) && forall k :: 0 <= k < |run| ==> WaitTick(bp, run[k].before, run[k].after)
  }

  lemma {:induction false} EnteredOnce(bp: Blueprint, run: seq<Ticked>, j: nat, k: nat, key: (nat, nat))
    requires AllWaitTicks(bp, run) && j <= k < |run| && key in run[j].before.visits
    ensures key in run[k].before.visits && run[k].before.visits[key].entered == run[j].before.visits[key].entered
    ensures j < k ==> run[j].after.cursor <= run[k].before.cursor
    decreases k - j
  {
    if j < k {
      EnteredOnce(bp, run, j, k - 1, key);
      assert run[(k - 1) + 1].before == run[k - 1].after && WaitTick(bp, run[k - 1].before, run[k - 1].after);
      assert WaitPasses(bp, run[k - 1].before.cursor, run[k - 1].after.cursor, run[k - 1].before.visits[key], run[k - 1].after.visits[key]);
    }
  }

  /** Over any run of ticks a visit's dependency outcome is drawn in at most one of them. */
  lemma DrawnOnce(bp: Blueprint, run: seq<Ticked>, j: nat, k: nat, key: (nat, nat))
    requires IsRun(bp, run) && j < k < |run|
    ensures !(DrawnIn(bp, run[j], key) && DrawnIn(bp, run[k], key))
  {
    forall i | 0 <= i < |run| ensures WaitTick(bp, run[i].before, run[i].after) {
      assert IsTick(bp, run[i]);
      TickWaits(bp, run[i]);
    }
    if DrawnIn(bp, run[j], key) {
      EnteredOnce(bp, run, j, k, key);
    }
  }

  /** A visit earns no labor in a tick in which it waits at all, be it the tick in which the wait begins
      or any later one; and it does wait in every tick that moves while its wait is under way. */
  lemma NoLaborWhileWaiting(bp: Blueprint, r: Ticked, key: (nat, nat))
    requires IsTick(bp, r) && key in r.before.visits
    requires r.before.visits[key].open && r.before.visits[key].status !in PausingStatuses(bp)
    ensures key in r.after.visits
    ensures r.after.visits[key].pause > r.before.visits[key].pause ==> r.after.visits[key].credited == r.before.visits[key].credited
    ensures WaitRunning(WaitOf(bp, |bp.rules|), r.before.visits[key]) && r.before.cursor < r.after.cursor ==>
              r.after.visits[key].credited == r.before.visits[key].credited
    ensures WaitRunning(WaitOf(bp, |bp.rules|), r.before.visits[key]) && r.before.cursor < r.after.cursor && r.after.visits[key].open ==>
              r.after.visits[key].pause > r.before.visits[key].pause
  {
    TickWaits(bp, r);
    assert WaitPasses(bp, r.before.cursor, r.after.cursor, r.before.visits[key], r.after.visits[key]);
  }
}
