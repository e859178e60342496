/** The tick as one step of a run: its command is accepted and the run invariant holds at its end. */
module TickRun {
  import opened BusinessCalendar
  import opened Allocation
  import opened Team
  import opened Segments
  import opened FirstCompletion
  import opened Commands
  import opened Routes
  import opened RunInvariant
  import opened Lifecycle
  import opened LifecycleLaws
  import opened SprintRun
  import opened RiskLaws
  import opened Waits
  import opened Tick
  import opened Finish
  import opened TickLaws
  import opened TickTotals

  // ---------- Claims of a tick ----------

  ghost function TickClaims(bp: Blueprint, draws: Draws, a: Attempted): seq<Claim>
    requires Placed(bp, a.risks.working.items, a.lane.slots)
  {
    a.risks.claims + NextClaims(bp, draws, a.risks.working, a.lane.slots, a.end, |a.lane.slots|)
  }

  /** The claims are the paired decisions, then one per visit opened. */
  ghost predicate TwoParts(bp: Blueprint, draws: Draws, s: State, a: Attempted, next: seq<Claim>)
    requires Placed(bp, a.risks.working.items, a.lane.slots)
  {
    Paired(s, a.risks.claims, a.risks.naturals) && NextClaimsFor(bp, draws, a, |a.lane.slots|, next)
  }

  lemma PartsUnique(bp: Blueprint, draws: Draws, s: State, a: Attempted, next: seq<Claim>)
    requires Placed(bp, a.risks.working.items, a.lane.slots) && TwoParts(bp, draws, s, a, next)
    ensures UniqueCounters(a.risks.claims + next)
  {
    forall x, y | 0 <= x < |a.risks.claims| && 0 <= y < |next| ensures a.risks.claims[x].counter != next[y].counter {
      assert NextClaim(bp, draws, a, |a.lane.slots|, next[y]);
      assert Binds(a.risks.claims[x], a.risks.naturals[x]);
    }
  }

  lemma PartsSeen(bp: Blueprint, draws: Draws, s: State, a: Attempted, next: seq<Claim>)
    requires Placed(bp, a.risks.working.items, a.lane.slots) && TwoParts(bp, draws, s, a, next)
    requires a.risks.working.counters == s.counters && |a.lane.slots| == |s.items|
    requires forall i: nat :: i < |s.items| ==> VisitOrdinal(i) in s.counters
    ensures CountersSeen(s.counters, a.risks.claims + next)
  {
    forall c | 0 <= c < |next| ensures next[c].counter in s.counters && s.counters[next[c].counter] == next[c].expected {
      assert NextClaim(bp, draws, a, |a.lane.slots|, next[c]);
    }
  }

  lemma PartsBound(bp: Blueprint, draws: Draws, s: State, a: Attempted, next: seq<Claim>)
    requires Placed(bp, a.risks.working.items, a.lane.slots) && TwoParts(bp, draws, s, a, next)
    ensures NaturalsBound(a.risks.claims + next, a.risks.naturals) && UniqueNaturals(a.risks.naturals)
  {
    var claims, naturals := a.risks.claims + next, a.risks.naturals;
    forall n | 0 <= n < |naturals| ensures HasClaim(claims, naturals[n]) {
      assert Binds(claims[n], naturals[n]);
    }
    forall c | 0 <= c < |claims| && claims[c].counter.Occurrence? ensures HasDecision(claims[c], naturals) {
      ClaimKind(bp, draws, s, a, next, c);
      assert Binds(claims[c], naturals[c]);
    }
    forall x, y | 0 <= x < y < |naturals|
      ensures (naturals[x].decision, naturals[x].entity) != (naturals[y].decision, naturals[y].entity)
    {
      assert Binds(a.risks.claims[x], naturals[x]) && Binds(a.risks.claims[y], naturals[y]);
      assert a.risks.claims[x].counter != a.risks.claims[y].counter;
    }
  }

  /** How a tick moves the counters of sprints and visits. */
  lemma TickCounters(bp: Blueprint, draws: Draws, s: State, a: Attempted, next: seq<Claim>)
    requires Placed(bp, a.risks.working.items, a.lane.slots) && TwoParts(bp, draws, s, a, next)
    requires a.risks.working.counters == s.counters && |a.lane.slots| == |s.items|
    requires SprintOrdinal in s.counters && forall i: nat :: i < |s.items| ==> VisitOrdinal(i) in s.counters
    ensures var after := AdvanceCounters(s.counters, a.risks.claims + next);
            && after.Keys == s.counters.Keys && after[SprintOrdinal] == s.counters[SprintOrdinal]
            && forall i: nat :: i < |s.items| ==>
                 after[VisitOrdinal(i)] == s.counters[VisitOrdinal(i)] + NextRise(bp, draws, a, i)
  {
    var claims := a.risks.claims + next;
    PartsUnique(bp, draws, s, a, next);
    PartsSeen(bp, draws, s, a, next);
    CounterKeys(s.counters, claims);
    CounterAfter(s.counters, claims, SprintOrdinal);
    forall c | 0 <= c < |claims| ensures claims[c].counter != SprintOrdinal {
      ClaimKind(bp, draws, s, a, next, c);
    }
    forall i: nat | i < |s.items|
      ensures AdvanceCounters(s.counters, claims)[VisitOrdinal(i)] == s.counters[VisitOrdinal(i)] + NextRise(bp, draws, a, i)
    {
      TickVisitCounter(bp, draws, s, a, next, i);
    }
  }

  lemma ClaimKind(bp: Blueprint, draws: Draws, s: State, a: Attempted, next: seq<Claim>, c: nat)
    requires Placed(bp, a.risks.working.items, a.lane.slots) && TwoParts(bp, draws, s, a, next)
    requires c < |a.risks.claims + next|
    ensures var claim := (a.risks.claims + next)[c];
            claim.counter.Occurrence? || (c >= |a.risks.claims| && NextClaim(bp, draws, a, |a.lane.slots|, claim))
  {
    if c < |a.risks.claims| {
      assert Binds(a.risks.claims[c], a.risks.naturals[c]);
    } else {
      assert NextClaim(bp, draws, a, |a.lane.slots|, next[c - |a.risks.claims|]);
    }
  }

  lemma TickVisitCounter(bp: Blueprint, draws: Draws, s: State, a: Attempted, next: seq<Claim>, i: nat)
    requires Placed(bp, a.risks.working.items, a.lane.slots) && TwoParts(bp, draws, s, a, next)
    requires a.risks.working.counters == s.counters && i < |a.lane.slots| && VisitOrdinal(i) in s.counters
    requires UniqueCounters(a.risks.claims + next)
    ensures VisitOrdinal(i) in AdvanceCounters(s.counters, a.risks.claims + next)
    ensures AdvanceCounters(s.counters, a.risks.claims + next)[VisitOrdinal(i)] == s.counters[VisitOrdinal(i)] + NextRise(bp, draws, a, i)
  {
    var claims := a.risks.claims + next;
    CounterAfter(s.counters, claims, VisitOrdinal(i));
    if NextRise(bp, draws, a, i) == 1 {
      assert Claims(next, VisitOrdinal(i));
      var c :| 0 <= c < |next| && next[c].counter == VisitOrdinal(i);
      assert claims[|a.risks.claims| + c] == next[c] && NextClaim(bp, draws, a, |a.lane.slots|, next[c]);
    } else {
      forall c | 0 <= c < |claims| ensures claims[c].counter != VisitOrdinal(i) {
        ClaimKind(bp, draws, s, a, next, c);
      }
    }
  }

  // ---------- The state a tick leaves ----------

  /** What the committed tick did, seen from s: an attempt at its own end, no boundary due. */
  ghost predicate Ticks(bp: Blueprint, draws: Draws, s: State, a: Attempted) {
    && ValidBlueprint(bp) && TickReady(bp, s) && OccurrencesKnown(bp, s) && SprintOrdinal in s.counters
    && s.cursor <= a.end && NotPast(bp, s, a.end) && a == Attempt(bp, draws, s, a.end)
  }

  lemma TickParts(bp: Blueprint, draws: Draws, s: State, a: Attempted)
    requires Ticks(bp, draws, s, a)
    ensures Advancing(bp, s, a) && Placed(bp, a.risks.working.items, a.lane.slots) && |a.lane.slots| == |s.items|
    ensures TwoParts(bp, draws, s, a, NextClaims(bp, draws, a.risks.working, a.lane.slots, a.end, |a.lane.slots|))
    ensures s.book.Keys <= a.lane.book.Keys
  {
    AttemptMoves(bp, draws, s, a.end);
    AllPlaced(bp, s, a);
    EvaluatePaired(bp, draws, s, a.end, |bp.rules|);
    NextClaimsAre(bp, draws, a, |a.lane.slots|);
    AttemptReady(bp, draws, s, a.end);
    WalkKeepsRows(bp, a.risks.working.overlays, Lane(SlotsOf(s, a.risks.working), s.book, []),
                  SegmentsOf(bp, a.risks.working.overlays, s.cursor, a.end), a.end);
  }

  lemma TickItem(bp: Blueprint, draws: Draws, s: State, a: Attempted, i: nat)
    requires ValidRoutes(bp) && Advancing(bp, s, a) && Placed(bp, a.risks.working.items, a.lane.slots)
    requires i < |a.risks.working.items| && |a.lane.slots| == |a.risks.working.items|
    requires VisitOrdinal(i) in AdvanceCounters(s.counters, TickClaims(bp, draws, a))
    requires AdvanceCounters(s.counters, TickClaims(bp, draws, a))[VisitOrdinal(i)]
             == Next(a.risks.working, VisitOrdinal(i)) + NextRise(bp, draws, a, i)
    ensures ItemHolds(bp, Committed(s, FinishTick(bp, draws, a)), i)
  {
    var n := Next(a.risks.working, VisitOrdinal(i));
    CarryingAt(bp, s, a, i);
    if a.lane.slots[i].Idle? {
      FinishIdleOk(bp, draws, s, a, i, n);
      HoldsFrom(bp, Committed(s, FinishTick(bp, draws, a)), i, VisitsAfter(bp, draws, a), a.risks.working.items[i], n);
    } else {
      var c := ClosingAt(bp, draws, a.risks.working, a.lane.slots, a.end, i);
      FinishBusyOk(bp, draws, s, a, i, n, c);
      HoldsFrom(bp, Committed(s, FinishTick(bp, draws, a)), i, VisitsAfter(bp, draws, a), c.item, n + NextRise(bp, draws, a, i));
    }
  }

  lemma TickItems(bp: Blueprint, draws: Draws, s: State, a: Attempted)
    requires Ticks(bp, draws, s, a) && Placed(bp, a.risks.working.items, a.lane.slots)
    ensures ItemsOk(bp, Committed(s, FinishTick(bp, draws, a)))
  {
    TickParts(bp, draws, s, a);
    CountersKnown(bp, s);
    TickCounters(bp, draws, s, a, NextClaims(bp, draws, a.risks.working, a.lane.slots, a.end, |a.lane.slots|));
    forall i: nat | i < |s.items| ensures ItemHolds(bp, Committed(s, FinishTick(bp, draws, a)), i) {
      TickItem(bp, draws, s, a, i);
    }
    forall i: nat, k: nat | (i, k) in VisitsAfter(bp, draws, a) ensures i < |s.items| {
      FinishKeys(bp, draws, a.risks.working, a.lane.slots, a.end, i, k);
      NextKeys(bp, draws, a.risks.working, a.lane.slots, a.end, i, k);
    }
  }

  // ---------- The command is acceptable ----------

  lemma NextNamed(bp: Blueprint, draws: Draws, a: Attempted, i: nat)
    requires Placed(bp, a.risks.working.items, a.lane.slots) && i < |a.lane.slots| && NextRise(bp, draws, a, i) == 1
    ensures var v := ClosingAt(bp, draws, a.risks.working, a.lane.slots, a.end, i).next.value;
            v.item == i && v.ordinal == Next(a.risks.working, VisitOrdinal(i))
  {
  }

  lemma NextWritten(bp: Blueprint, draws: Draws, s: State, a: Attempted, i: nat, n: nat)
    requires Advancing(bp, s, a) && Placed(bp, a.risks.working.items, a.lane.slots)
    requires i < |a.lane.slots| && |a.lane.slots| == |s.items| && NextRise(bp, draws, a, i) == 1
    requires n == Next(a.risks.working, VisitOrdinal(i))
    ensures (i, n) in VisitsAfter(bp, draws, a) && (i, n) !in s.visits
    ensures VisitsAfter(bp, draws, a)[(i, n)].item == i && VisitsAfter(bp, draws, a)[(i, n)].ordinal == n
  {
    CarryingAt(bp, s, a, i);
    assert (i, n) !in s.visits;
    NextKeys(bp, draws, a.risks.working, a.lane.slots, a.end, i, n);
    NextNamed(bp, draws, a, i);
  }

  lemma TickAccepted(bp: Blueprint, draws: Draws, s: State, a: Attempted)
    requires Ticks(bp, draws, s, a) && Placed(bp, a.risks.working.items, a.lane.slots)
    ensures Accepted(s, FinishTick(bp, draws, a))
  {
    var o := FinishTick(bp, draws, a);
    var next := NextClaims(bp, draws, a.risks.working, a.lane.slots, a.end, |a.lane.slots|);
    TickParts(bp, draws, s, a);
    CountersKnown(bp, s);
    PartsUnique(bp, draws, s, a, next);
    PartsSeen(bp, draws, s, a, next);
    PartsBound(bp, draws, s, a, next);
    TickRanges(bp, draws, s, a, next);
  }

  lemma TickRanges(bp: Blueprint, draws: Draws, s: State, a: Attempted, next: seq<Claim>)
    requires Ticks(bp, draws, s, a) && Advancing(bp, s, a) && Placed(bp, a.risks.working.items, a.lane.slots)
    requires |a.lane.slots| == |s.items| && TwoParts(bp, draws, s, a, next) && Grows(s, FinishTick(bp, draws, a).after)
    ensures RangesWritten(CommandFor(s, FinishTick(bp, draws, a)).writes, a.risks.claims + next)
    ensures forall c :: 0 <= c < |a.risks.claims + next| ==> (a.risks.claims + next)[c].count > 0
  {
    var w, claims := CommandFor(s, FinishTick(bp, draws, a)).writes, a.risks.claims + next;
    forall c | 0 <= c < |claims| ensures claims[c].count == 1 && Written(w, claims[c].counter, claims[c].expected) {
      ClaimKind(bp, draws, s, a, next, c);
      if c < |a.risks.claims| {
        assert Binds(claims[c], a.risks.naturals[c]);
      } else {
        NextWritten(bp, draws, s, a, claims[c].counter.item, claims[c].expected);
      }
    }
    SingleRangesWritten(w, claims);
  }

  lemma SingleRangesWritten(w: WriteSet, claims: seq<Claim>)
    requires forall c :: 0 <= c < |claims| ==> claims[c].count == 1 && Written(w, claims[c].counter, claims[c].expected)
    ensures RangesWritten(w, claims)
  {
    forall c, k: nat | 0 <= c < |claims| && claims[c].expected <= k < claims[c].expected + claims[c].count
      ensures Written(w, claims[c].counter, k)
    {
      assert k == claims[c].expected;
    }
  }

  // ---------- The invariant after a tick ----------

  /** An item that was not active leaves a tick as it was. */
  lemma InactiveStays(bp: Blueprint, draws: Draws, s: State, a: Attempted, i: nat)
    requires Advancing(bp, s, a) && Placed(bp, a.risks.working.items, a.lane.slots) && i < |s.items| && |a.lane.slots| == |s.items|
    requires !s.items[i].life.Active?
    ensures FinishItems(bp, draws, a.risks.working, a.lane.slots, a.end)[i] == s.items[i]
  {
    CarryingAt(bp, s, a, i);
  }

  /** No item becomes active in a tick, and none returns to the backlog. */
  lemma LivesAfter(bp: Blueprint, draws: Draws, s: State, a: Attempted, i: nat)
    requires Advancing(bp, s, a) && Placed(bp, a.risks.working.items, a.lane.slots) && i < |s.items| && |a.lane.slots| == |s.items|
    ensures var item := FinishItems(bp, draws, a.risks.working, a.lane.slots, a.end)[i];
            (item.life.Active? ==> s.items[i].life.Active?) && (item.life.Backlog? <==> s.items[i].life.Backlog?)
  {
    if s.items[i].life.Active? {
      CarryingAt(bp, s, a, i);
      FinishEndsAs(bp, draws, a, i);
    } else {
      InactiveStays(bp, draws, s, a, i);
    }
  }

  lemma TickScope(bp: Blueprint, draws: Draws, s: State, a: Attempted, after: State)
    requires Advancing(bp, s, a) && Placed(bp, a.risks.working.items, a.lane.slots) && |a.lane.slots| == |s.items|
    requires ScopeOk(s) && after.scope == s.scope && OpenOrdinal(after) == OpenOrdinal(s)
    requires after.items == FinishItems(bp, draws, a.risks.working, a.lane.slots, a.end)
    ensures ScopeOk(after)
  {
    forall i: nat | i < |after.items|
      ensures (after.items[i].life.Active? ==> s.items[i].life.Active?) && (after.items[i].life.Backlog? <==> s.items[i].life.Backlog?)
    {
      LivesAfter(bp, draws, s, a, i);
    }
  }

  lemma TickSprints(bp: Blueprint, draws: Draws, now: int, later: int, s: State, first: nat, a: Attempted, after: State)
    requires Advancing(bp, s, a) && Placed(bp, a.risks.working.items, a.lane.slots) && |a.lane.slots| == |s.items|
    requires SprintsOk(bp, now, s, first) && now <= later <= NextBoundary(s)
    requires after.sprints == s.sprints && SprintOrdinal in after.counters && after.counters[SprintOrdinal] == s.counters[SprintOrdinal]
    requires after.items == FinishItems(bp, draws, a.risks.working, a.lane.slots, a.end)
    ensures SprintsOk(bp, later, after, first)
  {
    if OpenSprint(s).phase.Planned? {
      forall i | 0 <= i < |after.items| ensures after.items[i].life.Backlog? {
        InactiveStays(bp, draws, s, a, i);
      }
    }
  }

  lemma TickCapacity(bp: Blueprint, draws: Draws, s: State, a: Attempted)
    requires Ticks(bp, draws, s, a) && WithinCapacity(bp, s.book)
    ensures WithinCapacity(bp, a.lane.book)
  {
    AttemptReady(bp, draws, s, a.end);
    var working := a.risks.working;
    forall j: nat, day: int | j < |bp.members| ensures Spent(a.lane.book, j, day) <= bp.members[j].capacity {
      WalkCapacity(bp, working.overlays, Lane(SlotsOf(s, working), s.book, []),
                   SegmentsOf(bp, working.overlays, s.cursor, a.end), a.end, j, day);
    }
  }

  /** The rules close nothing before its entry, and no clock finishing reads runs backwards. */
  ghost predicate ClosesInOrder(s: State, a: Attempted) {
    ClosedInOrder(s.visits, a.risks.working.visits) && FinishReadable(a.lane.slots, a.end)
  }

  /** After a tick every visit's instants are in order, none after the tick's end or what was known before. */
  lemma TickTimely(bp: Blueprint, draws: Draws, now: int, later: int, s: State, a: Attempted)
    requires Ticks(bp, draws, s, a) && Advancing(bp, s, a) && Placed(bp, a.risks.working.items, a.lane.slots)
    requires Timely(bp.anchor, now, s.visits) && now <= later && a.end <= later && ClosesInOrder(s, a)
    ensures Timely(bp.anchor, later, VisitsAfter(bp, draws, a))
  {
    forall i: nat, k: nat | (i, k) in VisitsAfter(bp, draws, a) ensures InTime(bp.anchor, later, VisitsAfter(bp, draws, a)[(i, k)]) {
      FinishKeys(bp, draws, a.risks.working, a.lane.slots, a.end, i, k);
      NextKeys(bp, draws, a.risks.working, a.lane.slots, a.end, i, k);
      if i < |a.lane.slots| && !a.lane.slots[i].Idle? {
        SlotTimely(bp, draws, now, later, s, a, i);
      }
      if (i, k) in a.risks.working.visits {
        RulesTimely(bp, draws, now, later, s, a, (i, k));
      }
    }
    AllTimely(bp.anchor, later, VisitsAfter(bp, draws, a));
  }

  lemma AllTimely(from: int, now: int, visits: Visits)
    requires forall i: nat, k: nat :: (i, k) in visits ==> InTime(from, now, visits[(i, k)])
    ensures Timely(from, now, visits)
  {
    forall key | key in visits ensures InTime(from, now, visits[key]) {
      assert InTime(from, now, visits[(key.0, key.1)]);
    }
  }

  lemma RulesTimely(bp: Blueprint, draws: Draws, now: int, later: int, s: State, a: Attempted, key: (nat, nat))
    requires Ticks(bp, draws, s, a) && key in a.risks.working.visits
    requires Timely(bp.anchor, now, s.visits) && now <= later && a.end <= later && ClosedInOrder(s.visits, a.risks.working.visits)
    ensures InTime(bp.anchor, later, a.risks.working.visits[key])
  {
    EvaluateVisits(bp, draws, s, a.end, |bp.rules|);
    EvaluateCloses(bp, draws, s, a.end, |bp.rules|, key);
    assert InTime(bp.anchor, now, s.visits[key]);
  }

  lemma SlotTimely(bp: Blueprint, draws: Draws, now: int, later: int, s: State, a: Attempted, i: nat)
    requires Ticks(bp, draws, s, a) && Advancing(bp, s, a) && Placed(bp, a.risks.working.items, a.lane.slots)
    requires Timely(bp.anchor, now, s.visits) && now <= later && a.end <= later && ClosesInOrder(s, a)
    requires i < |a.lane.slots| && !a.lane.slots[i].Idle?
    ensures var c := ClosingAt(bp, draws, a.risks.working, a.lane.slots, a.end, i);
            InTime(bp.anchor, later, c.visit) && (c.next.Some? ==> InTime(bp.anchor, later, c.next.value))
  {
    CarryingAt(bp, s, a, i);
    var key := (i, a.lane.slots[i].visit.ordinal);
    RulesTimely(bp, draws, now, later, s, a, key);
    SlotInTime(bp, draws, a, i, a.risks.working.visits[key], later);
  }

  lemma SlotInTime(bp: Blueprint, draws: Draws, a: Attempted, i: nat, v: Visit, later: int)
    requires Placed(bp, a.risks.working.items, a.lane.slots) && i < |a.lane.slots| && !a.lane.slots[i].Idle?
    requires Moved(Busy(v, None), Busy(a.lane.slots[i].visit, None)) && InTime(bp.anchor, later, v)
    requires a.end <= later && FinishReadable(a.lane.slots, a.end)
    ensures var c := ClosingAt(bp, draws, a.risks.working, a.lane.slots, a.end, i);
            InTime(bp.anchor, later, c.visit) && (c.next.Some? ==> InTime(bp.anchor, later, c.next.value))
  {
  }

  /** A tick keeps the invariant, as long as it stays before the sprint boundary, even from a state some of
      whose visits were entered after the cursor, if it closes none before its entry. */
  lemma TickKeeps(bp: Blueprint, draws: Draws, now: int, later: int, s: State, first: nat, a: Attempted)
    requires Ticks(bp, draws, s, a) && Invariant(bp, now, s, first) && ClosesInOrder(s, a)
    requires now <= later <= NextBoundary(s) && a.end <= later
    ensures Placed(bp, a.risks.working.items, a.lane.slots)
    ensures Invariant(bp, later, Committed(s, FinishTick(bp, draws, a)), first)
  {
    TickParts(bp, draws, s, a);
    CountersKnown(bp, s);
    TickCounters(bp, draws, s, a, NextClaims(bp, draws, a.risks.working, a.lane.slots, a.end, |a.lane.slots|));
    var after := Committed(s, FinishTick(bp, draws, a));
    TickItems(bp, draws, s, a);
    TickTimely(bp, draws, now, later, s, a);
    TickSprints(bp, draws, now, later, s, first, a, after);
    TickScope(bp, draws, s, a, after);
    TickCapacity(bp, draws, s, a);
  }
}
