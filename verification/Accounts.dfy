/** What ticks keep of the team's books: labor, WIP and time, over the persisted state. */
module Accounts {
  import opened BusinessCalendar
  import opened Allocation
  import opened AllocationLaws
  import opened Team
  import opened Segments
  import opened FirstCompletion
  import opened CommittedEnd
  import opened Commands
  import opened Routes
  import opened RunInvariant
  import opened Lifecycle
  import opened LifecycleLaws
  import opened SprintRun
  import opened Risks
  import opened Waits
  import opened Tick
  import opened Finish
  import opened TickLaws
  import opened TickTotals
  import opened TickRun
  import opened Steps

  // ---------- All labor credited to visits ----------

  ghost function CreditAt(visits: Visits, i: nat, k: nat): nat {
    if (i, k) in visits then visits[(i, k)].credited else 0
  }

  /** Labor credited to the first m visits of item i. */
  ghost function ItemCredited(visits: Visits, i: nat, m: nat): nat
    decreases m
  {
    if m == 0 then 0 else ItemCredited(visits, i, m - 1) + CreditAt(visits, i, m - 1)
  }

  /** Labor credited to all visits of the first n items. */
  ghost function Credited(s: State, n: nat): nat
    decreases n
  {
    if n == 0 then 0 else Credited(s, n - 1) + ItemCredited(s.visits, n - 1, Next(s, VisitOrdinal(n - 1)))
  }

  /** Below m, only visit n - 1 of item i gained labor, and that gained `rise`. */
  ghost predicate OnlyLast(a: Visits, b: Visits, i: nat, m: nat, n: nat, rise: nat) {
    forall k: nat :: k < m ==> CreditAt(b, i, k) == CreditAt(a, i, k) + if k + 1 == n then rise else 0
  }

  lemma {:induction false} ItemRise(a: Visits, b: Visits, i: nat, m: nat, n: nat, rise: nat)
    requires OnlyLast(a, b, i, m, n, rise)
    ensures ItemCredited(b, i, m) == ItemCredited(a, i, m) + if 0 < n <= m then rise else 0
    decreases m
  {
    if m > 0 {
      ItemRise(a, b, i, m - 1, n, rise);
    }
  }

  lemma LastGains(a: Visits, b: Visits, i: nat, n: nat, step: nat, rise: nat)
    requires step <= 1 && OnlyLast(a, b, i, n + step, n, rise) && CreditAt(a, i, n) == 0 && (n == 0 ==> rise == 0)
    ensures ItemCredited(b, i, n + step) == ItemCredited(a, i, n) + rise
  {
    ItemRise(a, b, i, n + step, n, rise);
    if step == 1 {
      assert ItemCredited(a, i, n + 1) == ItemCredited(a, i, n) + CreditAt(a, i, n);
    }
  }

  /** Labor this tick gave slot i. */
  ghost function SlotRise(s: State, a: Attempted, i: nat): int
    requires i < |a.lane.slots| && i < |a.risks.working.items|
  {
    var before, after := SlotAt(s, a.risks.working, i), a.lane.slots[i];
    if before.Idle? || after.Idle? then 0 else after.visit.credited - before.visit.credited
  }

  lemma CreditMoves(bp: Blueprint, draws: Draws, s: State, a: Attempted, i: nat, k: nat)
    requires Ticks(bp, draws, s, a) && Advancing(bp, s, a) && Placed(bp, a.risks.working.items, a.lane.slots)
    requires i < |a.lane.slots| && |a.lane.slots| == |s.items|
    ensures VisitOrdinal(i) in s.counters && SlotRise(s, a, i) >= 0
    ensures CreditAt(VisitsAfter(bp, draws, a), i, k) == CreditAt(s.visits, i, k)
            + if k + 1 == s.counters[VisitOrdinal(i)] then SlotRise(s, a, i) else 0
  {
    var working := a.risks.working;
    CarryingAt(bp, s, a, i);
    FinishKeys(bp, draws, working, a.lane.slots, a.end, i, k);
    NextKeys(bp, draws, working, a.lane.slots, a.end, i, k);
    EvaluateVisits(bp, draws, s, a.end, |bp.rules|);
    if (i, k) in s.visits {
      assert VisitStep(s.visits[(i, k)], working.visits[(i, k)]);
    }
    assert ItemHolds(bp, working, i);
    SlotIs(bp, s, working, i);
    assert Moved(SlotAt(s, working, i), a.lane.slots[i]);
    if !a.lane.slots[i].Idle? {
      ClosingCredit(bp, draws, a, i);
    }
  }

  lemma ClosingCredit(bp: Blueprint, draws: Draws, a: Attempted, i: nat)
    requires Placed(bp, a.risks.working.items, a.lane.slots) && i < |a.lane.slots| && !a.lane.slots[i].Idle?
    ensures var c := ClosingAt(bp, draws, a.risks.working, a.lane.slots, a.end, i);
            c.visit.credited == a.lane.slots[i].visit.credited && (c.next.Some? ==> c.next.value.credited == 0)
  {
  }

  lemma AllCreditsMove(bp: Blueprint, draws: Draws, s: State, a: Attempted, i: nat, m: nat)
    requires Ticks(bp, draws, s, a) && Advancing(bp, s, a) && Placed(bp, a.risks.working.items, a.lane.slots)
    requires i < |a.lane.slots| && |a.lane.slots| == |s.items|
    ensures SlotRise(s, a, i) >= 0 && OnlyLast(s.visits, VisitsAfter(bp, draws, a), i, m, Next(s, VisitOrdinal(i)), SlotRise(s, a, i))
  {
    CreditMoves(bp, draws, s, a, i, 0);
    forall k: nat | k < m
      ensures CreditAt(VisitsAfter(bp, draws, a), i, k)
              == CreditAt(s.visits, i, k) + if k + 1 == Next(s, VisitOrdinal(i)) then SlotRise(s, a, i) else 0
    {
      CreditMoves(bp, draws, s, a, i, k);
    }
  }

  /** No visit is numbered by the counter yet. */
  lemma NoVisitAt(bp: Blueprint, s: State, a: Attempted, i: nat)
    requires Advancing(bp, s, a) && i < |a.risks.working.items|
    ensures CreditAt(s.visits, i, Next(s, VisitOrdinal(i))) == 0
  {
    CarryingAt(bp, s, a, i);
  }

  /** An item that never had a visit earns nothing. */
  lemma NothingCredited(bp: Blueprint, draws: Draws, s: State, a: Attempted, i: nat, m: nat)
    requires Ticks(bp, draws, s, a) && Advancing(bp, s, a) && Placed(bp, a.risks.working.items, a.lane.slots)
    requires i < |a.lane.slots| && |a.lane.slots| == |s.items| && Next(s, VisitOrdinal(i)) == 0 && m == NextRise(bp, draws, a, i)
    ensures m == 0 && SlotRise(s, a, i) == 0
  {
    CarryingAt(bp, s, a, i);
    assert ItemHolds(bp, a.risks.working, i);
    SlotIs(bp, s, a.risks.working, i);
  }

  /** Item i gained exactly what its slot did. */
  ghost predicate Gained(s: State, after: State, before: seq<Slot>, slots: seq<Slot>, i: nat)
    requires i < |before| && i < |slots|
  {
    ItemCredited(after.visits, i, Next(after, VisitOrdinal(i))) - ItemCredited(s.visits, i, Next(s, VisitOrdinal(i)))
    == SlotLabor(slots[i]) - SlotLabor(before[i])
  }

  /** What makes it so: only the last visit gained, and it gained what the slot did. */
  ghost predicate ItemGained(s: State, visits: Visits, before: seq<Slot>, slots: seq<Slot>, i: nat, step: nat)
    requires i < |before| && i < |slots|
  {
    var n, rise := Next(s, VisitOrdinal(i)), SlotLabor(slots[i]) - SlotLabor(before[i]);
    && step <= 1 && rise >= 0 && OnlyLast(s.visits, visits, i, n + step, n, rise)
    && CreditAt(s.visits, i, n) == 0 && (n == 0 ==> rise == 0)
  }

  lemma GainedFrom(s: State, after: State, before: seq<Slot>, slots: seq<Slot>, i: nat, step: nat)
    requires i < |before| && i < |slots| && ItemGained(s, after.visits, before, slots, i, step)
    requires Next(after, VisitOrdinal(i)) == Next(s, VisitOrdinal(i)) + step
    ensures Gained(s, after, before, slots, i)
  {
    LastGains(s.visits, after.visits, i, Next(s, VisitOrdinal(i)), step, SlotLabor(slots[i]) - SlotLabor(before[i]));
  }

  lemma {:induction false} LaborRise(s: State, after: State, before: seq<Slot>, slots: seq<Slot>, n: nat)
    requires n <= |slots| == |before| && forall i: nat :: i < n ==> Gained(s, after, before, slots, i)
    ensures Credited(after, n) - Credited(s, n) == Labor(slots[..n]) - Labor(before[..n])
    decreases n
  {
    if n > 0 {
      LaborRise(s, after, before, slots, n - 1);
      LaborLast(slots, n);
      LaborLast(before, n);
      assert Gained(s, after, before, slots, n - 1);
    }
  }

  ghost function SlotLabor(slot: Slot): nat {
    if slot.Idle? then 0 else slot.visit.credited
  }

  lemma SlotRiseIs(bp: Blueprint, s: State, a: Attempted, i: nat)
    requires Advancing(bp, s, a) && i < |a.lane.slots| && i < |a.risks.working.items|
    ensures SlotRise(s, a, i) == SlotLabor(a.lane.slots[i]) - SlotLabor(SlotsOf(s, a.risks.working)[i])
  {
    assert Moved(SlotsOf(s, a.risks.working)[i], a.lane.slots[i]);
  }

  lemma LaborLast(slots: seq<Slot>, n: nat)
    requires 0 < n <= |slots|
    ensures Labor(slots[..n]) == Labor(slots[..n - 1]) + SlotLabor(slots[n - 1])
  {
    assert slots[..n][..n - 1] == slots[..n - 1];
  }

  /** Labor conservation of a whole tick: over any days that cover it, the rise in all labor credited to
      visits is the rise in all labor consumed from members. Probes and repeated attempts leave no trace. */
  lemma TickConserves(bp: Blueprint, draws: Draws, s: State, a: Attempted, lo: int, hi: int)
    requires Ticks(bp, draws, s, a) && Placed(bp, a.risks.working.items, a.lane.slots)
    requires s.cursor < a.end ==> lo <= bp.calendar.date(s.cursor) && bp.calendar.date(a.end - 1) < hi
    ensures var after := Committed(s, FinishTick(bp, draws, a));
            Credited(after, |s.items|) - Credited(s, |s.items|) == Consumed(bp, after.book, lo, hi) - Consumed(bp, s.book, lo, hi)
  {
    TickCredits(bp, draws, s, a);
    WalkedLabor(bp, draws, s, a, lo, hi);
  }

  /** What the visits are credited with is what their slots gained. */
  lemma TickCredits(bp: Blueprint, draws: Draws, s: State, a: Attempted)
    requires Ticks(bp, draws, s, a) && Placed(bp, a.risks.working.items, a.lane.slots)
    ensures Credited(Committed(s, FinishTick(bp, draws, a)), |s.items|) - Credited(s, |s.items|)
            == Labor(a.lane.slots) - Labor(SlotsOf(s, a.risks.working))
  {
    TickParts(bp, draws, s, a);
    CountersAfter(bp, draws, s, a);
    var after := Committed(s, FinishTick(bp, draws, a));
    AllGained(bp, draws, s, a, after);
    LaborRise(s, after, SlotsOf(s, a.risks.working), a.lane.slots, |s.items|);
    WholeSlots(a.lane.slots, |s.items|);
    WholeSlots(SlotsOf(s, a.risks.working), |s.items|);
  }

  lemma WholeSlots(slots: seq<Slot>, n: nat)
    requires n == |slots|
    ensures slots[..n] == slots
  {
  }

  lemma CountersAfter(bp: Blueprint, draws: Draws, s: State, a: Attempted)
    requires Ticks(bp, draws, s, a) && Placed(bp, a.risks.working.items, a.lane.slots) && |a.lane.slots| == |s.items|
    ensures var after := Committed(s, FinishTick(bp, draws, a));
            forall i: nat :: i < |s.items| ==> Next(after, VisitOrdinal(i)) == Next(s, VisitOrdinal(i)) + NextRise(bp, draws, a, i)
  {
    TickParts(bp, draws, s, a);
    CountersKnown(bp, s);
    TickCounters(bp, draws, s, a, NextClaims(bp, draws, a.risks.working, a.lane.slots, a.end, |a.lane.slots|));
  }

  lemma AllGained(bp: Blueprint, draws: Draws, s: State, a: Attempted, after: State)
    requires Ticks(bp, draws, s, a) && Advancing(bp, s, a) && Placed(bp, a.risks.working.items, a.lane.slots)
    requires |a.lane.slots| == |s.items| && after.visits == VisitsAfter(bp, draws, a)
    requires forall i: nat :: i < |s.items| ==>
               Next(after, VisitOrdinal(i)) == Next(s, VisitOrdinal(i)) + NextRise(bp, draws, a, i)
    ensures forall i: nat :: i < |s.items| ==> Gained(s, after, SlotsOf(s, a.risks.working), a.lane.slots, i)
  {
    forall i: nat | i < |s.items| ensures Gained(s, after, SlotsOf(s, a.risks.working), a.lane.slots, i) {
      ItemGains(bp, draws, s, a, after.visits, i);
      GainedFrom(s, after, SlotsOf(s, a.risks.working), a.lane.slots, i, NextRise(bp, draws, a, i));
    }
  }

  /** The tick credits item i's last visit with what its slot gained, and nothing else of it. */
  lemma ItemGains(bp: Blueprint, draws: Draws, s: State, a: Attempted, visits: Visits, i: nat)
    requires Ticks(bp, draws, s, a) && Advancing(bp, s, a) && Placed(bp, a.risks.working.items, a.lane.slots)
    requires i < |a.lane.slots| && |a.lane.slots| == |s.items| && visits == VisitsAfter(bp, draws, a)
    ensures ItemGained(s, visits, SlotsOf(s, a.risks.working), a.lane.slots, i, NextRise(bp, draws, a, i))
  {
    NoVisitAt(bp, s, a, i);
    AllCreditsMove(bp, draws, s, a, i, Next(s, VisitOrdinal(i)) + NextRise(bp, draws, a, i));
    SlotRiseIs(bp, s, a, i);
    if Next(s, VisitOrdinal(i)) == 0 {
      NothingCredited(bp, draws, s, a, i, NextRise(bp, draws, a, i));
    }
  }

  lemma WalkedLabor(bp: Blueprint, draws: Draws, s: State, a: Attempted, lo: int, hi: int)
    requires Ticks(bp, draws, s, a)
    requires s.cursor < a.end ==> lo <= bp.calendar.date(s.cursor) && bp.calendar.date(a.end - 1) < hi
    ensures Consumed(bp, a.lane.book, lo, hi) - Consumed(bp, s.book, lo, hi) == Labor(a.lane.slots) - Labor(SlotsOf(s, a.risks.working))
  {
    AttemptReady(bp, draws, s, a.end);
    var overlays := a.risks.working.overlays;
    SegmentsGood(bp, overlays, s.cursor, a.end);
    WalkConserves(bp, overlays, Lane(SlotsOf(s, a.risks.working), s.book, []), SegmentsOf(bp, overlays, s.cursor, a.end), a.end, lo, hi);
  }

  // ---------- Crossing a boundary ----------

  lemma PlannedCredit(bp: Blueprint, draws: Draws, s: State, ids: seq<nat>, t: int, i: nat, k: nat)
    requires KindsKnown(bp, s.items) && (forall key :: key in s.visits ==> key !in Opened(bp, draws, s.items, ids, t))
    ensures CreditAt(s.visits + Opened(bp, draws, s.items, ids, t), i, k) == CreditAt(s.visits, i, k)
  {
    PlannedVisits(bp, draws, s, ids, t, i, k);
  }

  lemma {:induction false} PlannedItem(bp: Blueprint, draws: Draws, s: State, ids: seq<nat>, t: int, i: nat, m: nat)
    requires KindsKnown(bp, s.items) && (forall key :: key in s.visits ==> key !in Opened(bp, draws, s.items, ids, t))
    ensures ItemCredited(s.visits + Opened(bp, draws, s.items, ids, t), i, m) == ItemCredited(s.visits, i, m)
    decreases m
  {
    if m > 0 {
      PlannedItem(bp, draws, s, ids, t, i, m - 1);
      PlannedCredit(bp, draws, s, ids, t, i, m - 1);
    }
  }

  lemma {:induction false} PlanCredits(bp: Blueprint, draws: Draws, now: int, s: State, ids: seq<nat>, t: int, after: State, n: nat)
    requires KindsKnown(bp, s.items) && ItemsOk(bp, s) && Plannable(s, ids) && n <= |s.items|
    requires forall key :: key in s.visits ==> key !in Opened(bp, draws, s.items, ids, t)
    requires after.visits == s.visits + Opened(bp, draws, s.items, ids, t)
    requires forall i: nat :: i < |s.items| ==> Next(after, VisitOrdinal(i)) == Next(s, VisitOrdinal(i)) + Rise(bp, draws, s, ids, t, i)
    ensures Credited(after, n) == Credited(s, n)
    decreases n
  {
    if n > 0 {
      var i: nat := n - 1;
      PlanCredits(bp, draws, now, s, ids, t, after, n - 1);
      PlannedItem(bp, draws, s, ids, t, i, Next(after, VisitOrdinal(i)));
      assert ItemHolds(bp, s, i);
      assert CreditAt(s.visits, i, Next(s, VisitOrdinal(i))) == 0;
    }
  }

  lemma CrossingCredits(bp: Blueprint, draws: Draws, s: State, first: nat)
    requires ValidBlueprint(bp) && Invariant(bp, s.cursor, s, first) && KindsKnown(bp, s.items) && NextBoundary(s) == s.cursor
    ensures CrossBoundary(bp, draws, s, s.cursor).Some?
    ensures Credited(Committed(s, CrossBoundary(bp, draws, s, s.cursor).value), |s.items|) == Credited(s, |s.items|)
  {
    var m := OpenOrdinal(s);
    CrossingDue(bp, draws, s.cursor, s, first, s.cursor);
    CountersKnown(bp, s);
    var o := CrossBoundary(bp, draws, s, s.cursor).value;
    if OpenSprint(s).phase.Planned? {
      var ids := ActivationPlans(bp, draws, s, m, s.cursor);
      VisitsKept(bp, draws, s, ids, s.cursor);
      PlanCounters(bp, draws, s, ids, s.cursor, o.claims, false);
      PlanCredits(bp, draws, s.cursor, s, ids, s.cursor, Committed(s, o), |s.items|);
    } else {
      var ids := RolloverPlans(bp, draws, s, m, s.cursor);
      VisitsKept(bp, draws, s, ids, s.cursor);
      PlanCounters(bp, draws, s, ids, s.cursor, o.claims, true);
      PlanCredits(bp, draws, s.cursor, s, ids, s.cursor, Committed(s, o), |s.items|);
    }
  }

  /** A tick that crosses a boundary credits nothing and consumes nothing. */
  lemma CrossingConserves(bp: Blueprint, draws: Draws, s: State, first: nat, requested: int)
    requires StepReady(bp, s) && Invariant(bp, s.cursor, s, first) && NextBoundary(s) == s.cursor <= requested
    ensures var after := Committed(s, StepFrom(bp, draws, s, requested));
            Credited(after, |s.items|) == Credited(s, |s.items|) && after.book == s.book
  {
    CrossingTouchesNothing(bp, draws, s.cursor, s, first, s.cursor);
    CrossingCredits(bp, draws, s, first);
  }

  lemma AdvanceConserves(bp: Blueprint, draws: Draws, s: State, requested: int, lo: int, hi: int)
    requires StepReady(bp, s) && s.cursor <= requested && CrossBoundary(bp, draws, s, s.cursor).None?
    requires s.cursor < requested ==> lo <= bp.calendar.date(s.cursor) && bp.calendar.date(requested - 1) < hi
    ensures var after := Committed(s, StepFrom(bp, draws, s, requested));
            Credited(after, |s.items|) - Credited(s, |s.items|) == Consumed(bp, after.book, lo, hi) - Consumed(bp, s.book, lo, hi)
  {
    StepAdvances(bp, draws, s, requested);
    var a := AdvanceFrom(bp, draws, s, requested);
    EarlierDate(bp.calendar, a.end - 1, requested - 1);
    TickConserves(bp, draws, s, a, lo, hi);
  }

  /** Every tick conserves labor: what visits gain is what members spend. */
  lemma StepConservesLabor(bp: Blueprint, draws: Draws, s: State, now: int, requested: int, lo: int, hi: int)
    requires StepReady(bp, s) && Standing(bp, s, now) && s.cursor <= requested
    requires s.cursor < requested ==> lo <= bp.calendar.date(s.cursor) && bp.calendar.date(requested - 1) < hi
    ensures var after := Committed(s, StepFrom(bp, draws, s, requested));
            Credited(after, |s.items|) - Credited(s, |s.items|) == Consumed(bp, after.book, lo, hi) - Consumed(bp, s.book, lo, hi)
  {
    var first: nat :| Invariant(bp, now, s, first) && s.cursor <= now <= NextBoundary(s);
    CrossingDue(bp, draws, now, s, first, s.cursor);
    if NextBoundary(s) == s.cursor {
      CrossingConserves(bp, draws, s, first, requested);
    } else {
      AdvanceConserves(bp, draws, s, requested, lo, hi);
    }
  }

  lemma EarlierDate(c: Calendar, t: int, u: int)
    requires Valid(c) && t <= u
    ensures c.date(t) <= c.date(u)
  {
  }

  // ---------- WIP ----------

  ghost predicate OwnsItem(s: State, j: nat, i: nat) {
    OpenKey(s, i).Some? && s.visits[(i, OpenKey(s, i).value)].member == Some(j)
  }

  /** How many open visits of the first n items member j owns. */
  ghost function OwnedOpen(s: State, j: nat, n: nat): nat
    decreases n
  {
    if n == 0 then 0 else OwnedOpen(s, j, n - 1) + if OwnsItem(s, j, n - 1) then 1 else 0
  }

  ghost predicate SlotOwned(slot: Slot, j: nat) { slot.Busy? && slot.visit.member == Some(j) }

  /** Whoever owns an open visit after the tick owned its slot when the tick ended. */
  lemma OwnerFromSlot(bp: Blueprint, draws: Draws, s: State, a: Attempted, after: State, j: nat, i: nat)
    requires Ticks(bp, draws, s, a) && Advancing(bp, s, a) && Placed(bp, a.risks.working.items, a.lane.slots)
    requires i < |a.lane.slots| && |a.lane.slots| == |s.items| && after.visits == VisitsAfter(bp, draws, a)
    requires OwnsItem(after, j, i)
    ensures SlotOwned(a.lane.slots[i], j)
  {
    OpenAfter(bp, draws, s, a, i, OpenKey(after, i).value);
    HeldUnowned(bp, draws, s, a, i);
  }

  ghost predicate Traced(after: Visits, slot: Slot, i: nat, k: nat)
    requires (i, k) in after
  {
    after[(i, k)].open ==> !slot.Idle? && (after[(i, k)].member.None? || after[(i, k)] == slot.visit)
  }

  /** A visit open after the tick is its slot's visit, or one just opened and unowned. */
  lemma OpenAfter(bp: Blueprint, draws: Draws, s: State, a: Attempted, i: nat, k: nat)
    requires Advancing(bp, s, a) && Placed(bp, a.risks.working.items, a.lane.slots)
    requires i < |a.lane.slots| && (i, k) in VisitsAfter(bp, draws, a)
    ensures Traced(VisitsAfter(bp, draws, a), a.lane.slots[i], i, k)
  {
    var w, slots := a.risks.working, a.lane.slots;
    FinishKeys(bp, draws, w, slots, a.end, i, k);
    NextKeys(bp, draws, w, slots, a.end, i, k);
    if slots[i].Idle? {
      IdleUnowned(bp, s, a, i, k);
    } else {
      ClosingOwner(bp, draws, a, i);
      UnheldClosed(bp, s, a, i, k);
    }
  }

  /** A visit that is not its slot's was closed before the tick's work. */
  lemma UnheldClosed(bp: Blueprint, s: State, a: Attempted, i: nat, k: nat)
    requires Advancing(bp, s, a) && i < |a.lane.slots| && i < |a.risks.working.items| && !a.lane.slots[i].Idle?
    ensures (i, k) in a.risks.working.visits && k != a.lane.slots[i].visit.ordinal ==> !a.risks.working.visits[(i, k)].open
  {
    CarryingAt(bp, s, a, i);
    if (i, k) in a.risks.working.visits {
      LastIsOpen(bp, s, a.risks.working, i, k);
    }
  }

  /** An idle slot's item has no open visit. */
  lemma IdleUnowned(bp: Blueprint, s: State, a: Attempted, i: nat, k: nat)
    requires Advancing(bp, s, a) && i < |a.lane.slots| && i < |a.risks.working.items| && a.lane.slots[i].Idle?
    ensures (i, k) in a.risks.working.visits ==> !a.risks.working.visits[(i, k)].open
  {
    CarryingAt(bp, s, a, i);
    if (i, k) in a.risks.working.visits {
      LastIsOpen(bp, s, a.risks.working, i, k);
    }
  }

  lemma ClosingOwner(bp: Blueprint, draws: Draws, a: Attempted, i: nat)
    requires Placed(bp, a.risks.working.items, a.lane.slots) && i < |a.lane.slots| && !a.lane.slots[i].Idle?
    ensures var c := ClosingAt(bp, draws, a.risks.working, a.lane.slots, a.end, i);
            (c.next.Some? ==> c.next.value.member.None?) && (c.visit.open ==> c.visit == a.lane.slots[i].visit)
  {
  }

  /** A visit held back for the tick has no owner. */
  lemma HeldUnowned(bp: Blueprint, draws: Draws, s: State, a: Attempted, i: nat)
    requires Ticks(bp, draws, s, a) && Advancing(bp, s, a) && i < |a.lane.slots| && |a.lane.slots| == |s.items|
    ensures a.lane.slots[i].Held? ==> a.lane.slots[i].visit.member.None?
  {
    var working := a.risks.working;
    assert ItemHolds(bp, working, i);
    SlotIs(bp, s, working, i);
    assert Moved(SlotAt(s, working, i), a.lane.slots[i]);
    EvaluateVisits(bp, draws, s, a.end, |bp.rules|);
    if a.lane.slots[i].Held? {
      var key := (i, OpenKey(working, i).value);
      assert VisitStep(s.visits[key], working.visits[key]);
    }
  }

  lemma {:induction false} OwnedBelow(after: State, slots: seq<Slot>, j: nat, n: nat)
    requires n <= |slots| && forall i: nat :: i < n && OwnsItem(after, j, i) ==> SlotOwned(slots[i], j)
    ensures OwnedOpen(after, j, n) <= Owned(slots[..n], j)
    decreases n
  {
    if n > 0 {
      OwnedBelow(after, slots, j, n - 1);
      assert slots[..n][..n - 1] == slots[..n - 1];
    }
  }

  /** Whatever ownership a tick starts from, once business time has passed in it no member owns more open
      visits than their WIP limit. */
  lemma TickWip(bp: Blueprint, draws: Draws, s: State, a: Attempted, j: nat)
    requires Ticks(bp, draws, s, a) && Placed(bp, a.risks.working.items, a.lane.slots) && j < |bp.members|
    requires Count(bp.calendar, s.cursor, a.end) > 0
    ensures OwnedOpen(Committed(s, FinishTick(bp, draws, a)), j, |s.items|) <= bp.members[j].wip
  {
    TickParts(bp, draws, s, a);
    WalkedWip(bp, draws, s, a, j);
    var after := Committed(s, FinishTick(bp, draws, a));
    forall i: nat | i < |s.items| && OwnsItem(after, j, i) ensures SlotOwned(a.lane.slots[i], j) {
      OwnerFromSlot(bp, draws, s, a, after, j, i);
    }
    OwnedBelow(after, a.lane.slots, j, |s.items|);
    assert a.lane.slots[..|s.items|] == a.lane.slots;
  }

  lemma WalkedWip(bp: Blueprint, draws: Draws, s: State, a: Attempted, j: nat)
    requires Ticks(bp, draws, s, a) && j < |bp.members| && Count(bp.calendar, s.cursor, a.end) > 0
    ensures Owned(a.lane.slots, j) <= bp.members[j].wip
  {
    AttemptReady(bp, draws, s, a.end);
    var overlays := a.risks.working.overlays;
    SegmentsChained(bp, overlays, s.cursor, a.end);
    WalkWip(bp, overlays, Lane(SlotsOf(s, a.risks.working), s.book, []), SegmentsOf(bp, overlays, s.cursor, a.end), a.end, j);
  }

  // ---------- Time ----------

  /** An open visit that works, was not made to wait and still has work left after the tick spent all its
      business time on labor and queueing. */
  lemma TickTime(bp: Blueprint, draws: Draws, s: State, a: Attempted, i: nat, k: nat)
    requires Ticks(bp, draws, s, a) && Placed(bp, a.risks.working.items, a.lane.slots)
    requires (i, k) in s.visits && s.visits[(i, k)].open && s.visits[(i, k)].status !in PausingStatuses(bp)
    ensures (i, k) in VisitsAfter(bp, draws, a)
    ensures var u, v := s.visits[(i, k)], VisitsAfter(bp, draws, a)[(i, k)];
            v.remaining > 0 && v.pause == u.pause ==>
              (v.credited + v.queue) - (u.credited + u.queue) == Count(bp.calendar, s.cursor, a.end)
  {
    TickParts(bp, draws, s, a);
    var working, v := a.risks.working, VisitsAfter(bp, draws, a)[(i, k)];
    OldVisit(bp, draws, s, a, i, k);
    if v.remaining > 0 && v.pause == s.visits[(i, k)].pause {
      RunningVisit(bp, draws, s, a, i, k);
    }
  }

  /** The visit after the tick: its slot's visit if it is still open in the tick, else what the rules left. */
  lemma OldVisit(bp: Blueprint, draws: Draws, s: State, a: Attempted, i: nat, k: nat)
    requires Ticks(bp, draws, s, a) && Advancing(bp, s, a) && Placed(bp, a.risks.working.items, a.lane.slots)
    requires |a.lane.slots| == |s.items| && (i, k) in s.visits && s.visits[(i, k)].open
    ensures (i, k) in VisitsAfter(bp, draws, a) && (i, k) in a.risks.working.visits && i < |a.lane.slots|
    ensures var v := VisitsAfter(bp, draws, a)[(i, k)];
            if a.risks.working.visits[(i, k)].open
            then !a.lane.slots[i].Idle? && OpenKey(a.risks.working, i) == Some(k)
                 && v.remaining == a.lane.slots[i].visit.remaining && v.pause == a.lane.slots[i].visit.pause
                 && v.credited == a.lane.slots[i].visit.credited && v.queue == a.lane.slots[i].visit.queue
            else v == a.risks.working.visits[(i, k)] && v.remaining == 0
  {
    var working := a.risks.working;
    assert ItemHolds(bp, working, i);
    CarryingAt(bp, s, a, i);
    FinishKeys(bp, draws, working, a.lane.slots, a.end, i, k);
    NextKeys(bp, draws, working, a.lane.slots, a.end, i, k);
    LastIsOpen(bp, s, working, i, k);
    assert VisitOk(bp, working.items[i], i, working.counters[VisitOrdinal(i)], k, working.visits[(i, k)]);
    if !a.lane.slots[i].Idle? {
      ClosingClocks(bp, draws, a, i);
    }
  }

  lemma ClosingClocks(bp: Blueprint, draws: Draws, a: Attempted, i: nat)
    requires Placed(bp, a.risks.working.items, a.lane.slots) && i < |a.lane.slots| && !a.lane.slots[i].Idle?
    ensures var v := ClosingAt(bp, draws, a.risks.working, a.lane.slots, a.end, i).visit;
            v.remaining == a.lane.slots[i].visit.remaining && v.pause == a.lane.slots[i].visit.pause
            && v.credited == a.lane.slots[i].visit.credited && v.queue == a.lane.slots[i].visit.queue
  {
  }

  lemma RunningVisit(bp: Blueprint, draws: Draws, s: State, a: Attempted, i: nat, k: nat)
    requires Ticks(bp, draws, s, a) && Advancing(bp, s, a) && |a.lane.slots| == |s.items|
    requires (i, k) in s.visits && s.visits[(i, k)].open && s.visits[(i, k)].status !in PausingStatuses(bp)
    requires (i, k) in a.risks.working.visits && a.risks.working.visits[(i, k)].open && OpenKey(a.risks.working, i) == Some(k)
    requires i < |a.lane.slots| && !a.lane.slots[i].Idle? && a.lane.slots[i].visit.remaining > 0
    requires a.lane.slots[i].visit.pause == s.visits[(i, k)].pause
    ensures var u, v := s.visits[(i, k)], a.lane.slots[i].visit;
            (v.credited + v.queue) - (u.credited + u.queue) == Count(bp.calendar, s.cursor, a.end)
  {
    var working, slots := a.risks.working, SlotsOf(s, a.risks.working);
    EvaluateVisits(bp, draws, s, a.end, |bp.rules|);
    assert VisitStep(s.visits[(i, k)], working.visits[(i, k)]);
    assert Moved(SlotAt(s, working, i), a.lane.slots[i]);
    AttemptReady(bp, draws, s, a.end);
    SegmentsChained(bp, working.overlays, s.cursor, a.end);
    WalkServed(bp, working.overlays, Lane(slots, s.book, []), SegmentsOf(bp, working.overlays, s.cursor, a.end), s.cursor, a.end, i);
  }

  /** The causes a tick records for a visit, over all reasons, add up to the time its queue clock rose while
      segments were worked. */
  lemma TickCauses(bp: Blueprint, draws: Draws, s: State, a: Attempted, i: nat)
    requires Ticks(bp, draws, s, a) && Advancing(bp, s, a) && i < |a.lane.slots| && i < |a.risks.working.items|
    ensures Queued(a.lane.causes, i) == QueueOf(a.lane.slots[i]) - QueueOf(SlotAt(s, a.risks.working, i))
  {
    AttemptReady(bp, draws, s, a.end);
    var overlays := a.risks.working.overlays;
    WalkQueue(bp, overlays, Lane(SlotsOf(s, a.risks.working), s.book, []), SegmentsOf(bp, overlays, s.cursor, a.end), a.end, i);
    assert Queued([], i) == 0;
  }
}
