/** A tick produces an acceptable command and keeps items and visits in order. */
module TickLaws {
  import opened BusinessCalendar
  import opened Allocation
  import opened Team
  import opened Segments
  import opened Completion
  import opened FirstCompletion
  import opened Commands
  import opened Routes
  import opened RunInvariant
  import opened Lifecycle
  import opened Risks
  import opened RiskLaws
  import opened Tick
  import opened Finish

  // ---------- Slots after the advance ----------

  lemma AttemptMoves(bp: Blueprint, draws: Draws, s: State, e: int)
    requires TickReady(bp, s) && NotPast(bp, s, e) && s.cursor <= e
    ensures var a := Attempt(bp, draws, s, e);
            RiskStep(bp, s, a.risks.working) && AllMoved(SlotsOf(s, a.risks.working), a.lane.slots)
  {
    AttemptReady(bp, draws, s, e);
    var risks := Evaluate(bp, draws, s, e, |bp.rules|);
    WalkMoves(bp, risks.working.overlays, Lane(SlotsOf(s, risks.working), s.book, []),
              SegmentsOf(bp, risks.working.overlays, s.cursor, e), e);
  }

  /** What an attempt leaves, as far as items are concerned: rules applied, slots moved on. */
  ghost predicate Advancing(bp: Blueprint, s: State, a: Attempted) {
    && s.cursor <= a.end && RiskStep(bp, s, a.risks.working)
    && AllMoved(SlotsOf(s, a.risks.working), a.lane.slots) && Staffed(bp, a.lane.slots)
  }

  lemma CarryingAt(bp: Blueprint, s: State, a: Attempted, i: nat)
    requires Advancing(bp, s, a) && i < |a.risks.working.items|
    ensures VisitOrdinal(i) in a.risks.working.counters && i < |a.lane.slots|
    ensures Carrying(bp, a.risks.working.visits, a.risks.working.items[i], i,
                     a.risks.working.counters[VisitOrdinal(i)], a.lane.slots[i])
    ensures (i, a.risks.working.counters[VisitOrdinal(i)]) !in a.risks.working.visits
    ensures !a.lane.slots[i].Idle? ==>
              a.lane.slots[i].visit.ordinal + 1 == a.risks.working.counters[VisitOrdinal(i)]
              && (i, a.lane.slots[i].visit.ordinal) in a.risks.working.visits
  {
    var working := a.risks.working;
    assert ItemHolds(bp, working, i);
    SlotIs(bp, s, working, i);
    assert Moved(SlotAt(s, working, i), a.lane.slots[i]);
  }

  /** Only an item's last visit is open, and only while the item is active. */
  lemma LastIsOpen(bp: Blueprint, s: State, working: State, i: nat, k: nat)
    requires i < |working.items| && ItemHolds(bp, working, i) && (i, k) in working.visits
    ensures working.visits[(i, k)].open <==> working.items[i].life.Active? && k + 1 == working.counters[VisitOrdinal(i)]
    ensures working.visits[(i, k)].open ==> OpenKey(working, i) == Some(k)
  {
    var n := working.counters[VisitOrdinal(i)];
    assert VisitOk(bp, working.items[i], i, n, k, working.visits[(i, k)]);
    SlotIs(bp, s, working, i);
  }

  lemma AllPlaced(bp: Blueprint, s: State, a: Attempted)
    requires Advancing(bp, s, a)
    ensures Placed(bp, a.risks.working.items, a.lane.slots)
  {
    var items, slots := a.risks.working.items, a.lane.slots;
    forall i | 0 <= i < |slots| && !slots[i].Idle?
      ensures items[i].kind in bp.routes && Position(bp.routes[items[i].kind], slots[i].visit.status, 0).Some?
    {
      CarryingAt(bp, s, a, i);
      PlacedItem(bp, a.risks.working.visits, items[i], i, a.risks.working.counters[VisitOrdinal(i)], slots[i]);
    }
  }

  // ---------- The visit map after the tick ----------

  lemma FinishKeys(bp: Blueprint, draws: Draws, working: State, slots: seq<Slot>, end: int, i: nat, k: nat)
    requires Placed(bp, working.items, slots)
    ensures var m := FinishVisits(bp, draws, working, slots, end);
            && ((i, k) in m <==> i < |slots| && !slots[i].Idle? && k == slots[i].visit.ordinal)
            && ((i, k) in m ==> m[(i, k)] == ClosingAt(bp, draws, working, slots, end, i).visit)
  {
  }

  lemma NextKeys(bp: Blueprint, draws: Draws, working: State, slots: seq<Slot>, end: int, i: nat, k: nat)
    requires Placed(bp, working.items, slots)
    ensures var m := NextVisits(bp, draws, working, slots, end);
            && ((i, k) in m <==> i < |slots| && OpensNext(bp, draws, working, slots, end, i) && k == Next(working, VisitOrdinal(i)))
            && ((i, k) in m ==> m[(i, k)] == ClosingAt(bp, draws, working, slots, end, i).next.value)
  {
  }

  ghost function VisitsAfter(bp: Blueprint, draws: Draws, a: Attempted): Visits
    requires Placed(bp, a.risks.working.items, a.lane.slots)
  {
    a.risks.working.visits + FinishVisits(bp, draws, a.risks.working, a.lane.slots, a.end)
    + NextVisits(bp, draws, a.risks.working, a.lane.slots, a.end)
  }

  lemma FinishedFrom(visits: Visits, f: Visits, g: Visits, i: nat, n: nat, visit: Visit, next: Option<Visit>)
    requires n > 0 && (i, n - 1) in visits && (i, n) !in visits
    requires forall k: nat :: (i, k) in f <==> k == n - 1
    requires forall k: nat :: (i, k) in g <==> next.Some? && k == n
    requires f[(i, n - 1)] == visit && (next.Some? ==> g[(i, n)] == next.value)
    ensures Finished(visits, visits + f + g, i, n, visit, next)
  {
  }

  lemma FinishedAt(bp: Blueprint, draws: Draws, a: Attempted, i: nat, n: nat, c: Closing)
    requires Placed(bp, a.risks.working.items, a.lane.slots) && i < |a.lane.slots| && !a.lane.slots[i].Idle?
    requires n == Next(a.risks.working, VisitOrdinal(i)) == a.lane.slots[i].visit.ordinal + 1
    requires (i, n - 1) in a.risks.working.visits && (i, n) !in a.risks.working.visits
    requires c == ClosingAt(bp, draws, a.risks.working, a.lane.slots, a.end, i)
    ensures Finished(a.risks.working.visits, VisitsAfter(bp, draws, a), i, n, c.visit, c.next)
  {
    var f := FinishVisits(bp, draws, a.risks.working, a.lane.slots, a.end);
    var g := NextVisits(bp, draws, a.risks.working, a.lane.slots, a.end);
    forall k: nat ensures ((i, k) in f <==> k == n - 1) && ((i, k) in g <==> c.next.Some? && k == n) {
      FinishKeys(bp, draws, a.risks.working, a.lane.slots, a.end, i, k);
      NextKeys(bp, draws, a.risks.working, a.lane.slots, a.end, i, k);
    }
    FinishKeys(bp, draws, a.risks.working, a.lane.slots, a.end, i, n - 1);
    NextKeys(bp, draws, a.risks.working, a.lane.slots, a.end, i, n);
    FinishedFrom(a.risks.working.visits, f, g, i, n, c.visit, c.next);
  }

  lemma IdleSame(bp: Blueprint, draws: Draws, a: Attempted, i: nat)
    requires Placed(bp, a.risks.working.items, a.lane.slots) && i < |a.lane.slots| && a.lane.slots[i].Idle?
    ensures SameFor(i, a.risks.working.visits, VisitsAfter(bp, draws, a))
  {
    forall k: nat
      ensures (i, k) !in FinishVisits(bp, draws, a.risks.working, a.lane.slots, a.end)
      ensures (i, k) !in NextVisits(bp, draws, a.risks.working, a.lane.slots, a.end)
    {
      FinishKeys(bp, draws, a.risks.working, a.lane.slots, a.end, i, k);
      NextKeys(bp, draws, a.risks.working, a.lane.slots, a.end, i, k);
    }
  }

  /** How far the tick moves an item's visit counter. */
  ghost function NextRise(bp: Blueprint, draws: Draws, a: Attempted, i: nat): nat
    requires Placed(bp, a.risks.working.items, a.lane.slots) && i < |a.lane.slots|
  {
    if OpensNext(bp, draws, a.risks.working, a.lane.slots, a.end, i) then 1 else 0
  }

  /** What the tick makes of item i and its counter. */
  ghost predicate EndsAs(bp: Blueprint, draws: Draws, a: Attempted, i: nat, item: Item, rise: nat)
    requires Placed(bp, a.risks.working.items, a.lane.slots) && i < |a.lane.slots|
  {
    if a.lane.slots[i].Idle? then item == a.risks.working.items[i] && rise == 0
    else
      var c := ClosingAt(bp, draws, a.risks.working, a.lane.slots, a.end, i);
      item == c.item && rise == if c.next.Some? then 1 else 0
  }

  lemma FinishEndsAs(bp: Blueprint, draws: Draws, a: Attempted, i: nat)
    requires Placed(bp, a.risks.working.items, a.lane.slots) && i < |a.lane.slots|
    ensures EndsAs(bp, draws, a, i, FinishItems(bp, draws, a.risks.working, a.lane.slots, a.end)[i], NextRise(bp, draws, a, i))
  {
  }

  lemma FinishIdleOk(bp: Blueprint, draws: Draws, s: State, a: Attempted, i: nat, n: nat)
    requires Placed(bp, a.risks.working.items, a.lane.slots) && i < |a.risks.working.items| && i < |a.lane.slots|
    requires a.lane.slots[i].Idle?
    requires ItemOk(bp, a.risks.working.visits, a.risks.working.items[i], i, n)
    ensures ItemOk(bp, VisitsAfter(bp, draws, a), a.risks.working.items[i], i, n)
  {
    IdleSame(bp, draws, a, i);
    ItemSame(bp, a.risks.working.visits, VisitsAfter(bp, draws, a), a.risks.working.items[i], i, n);
  }

  lemma FinishBusyOk(bp: Blueprint, draws: Draws, s: State, a: Attempted, i: nat, n: nat, c: Closing)
    requires ValidRoutes(bp) && Placed(bp, a.risks.working.items, a.lane.slots) && i < |a.risks.working.items| && i < |a.lane.slots|
    requires n == Next(a.risks.working, VisitOrdinal(i)) && !a.lane.slots[i].Idle?
    requires Carrying(bp, a.risks.working.visits, a.risks.working.items[i], i, n, a.lane.slots[i])
    requires a.lane.slots[i].visit.ordinal + 1 == n && (i, n - 1) in a.risks.working.visits && (i, n) !in a.risks.working.visits
    requires c == ClosingAt(bp, draws, a.risks.working, a.lane.slots, a.end, i)
    ensures ItemOk(bp, VisitsAfter(bp, draws, a), c.item, i, n + if c.next.Some? then 1 else 0)
  {
    FinishedAt(bp, draws, a, i, n, c);
    BusyItemOk(bp, draws, a.end, a.risks.working.visits, VisitsAfter(bp, draws, a), a.risks.working.items[i], i, n, a.lane.slots[i], c);
  }

  lemma BusyItemOk(bp: Blueprint, draws: Draws, end: int, visits: Visits, more: Visits, item: Item, i: nat, n: nat, slot: Slot, c: Closing)
    requires ValidRoutes(bp) && Carrying(bp, visits, item, i, n, slot) && !slot.Idle?
    requires item.kind in bp.routes && Position(bp.routes[item.kind], slot.visit.status, 0).Some?
    requires c == Close(bp, draws, i, n, item, slot, end) && Finished(visits, more, i, n, c.visit, c.next)
    ensures ItemOk(bp, more, c.item, i, n + if c.next.Some? then 1 else 0)
  {
    PlacedItem(bp, visits, item, i, n, slot);
    if CompleteAt(slot, Clock(bp.calendar, slot, end)) {
      ClosedItem(bp, draws, end, visits, more, item, i, n, slot);
    } else {
      StillOpen(bp, visits, more, item, i, n, slot);
    }
  }

  // ---------- Claims ----------

  /** The claims of the items below n that open a visit: each once, nothing else. */
  ghost predicate NextClaimsFor(bp: Blueprint, draws: Draws, a: Attempted, n: nat, claims: seq<Claim>)
    requires Placed(bp, a.risks.working.items, a.lane.slots) && n <= |a.lane.slots|
  {
    && (forall c :: 0 <= c < |claims| ==> NextClaim(bp, draws, a, n, claims[c]))
    && (forall i: nat :: i < n && NextRise(bp, draws, a, i) == 1 ==> Claims(claims, VisitOrdinal(i)))
    && UniqueCounters(claims)
  }

  ghost predicate NextClaim(bp: Blueprint, draws: Draws, a: Attempted, n: nat, claim: Claim)
    requires Placed(bp, a.risks.working.items, a.lane.slots) && n <= |a.lane.slots|
  {
    && claim.counter.VisitOrdinal? && claim.counter.item < n && NextRise(bp, draws, a, claim.counter.item) == 1
    && claim.expected == Next(a.risks.working, claim.counter) && claim.count == 1
  }

  lemma {:induction false} NextClaimsAre(bp: Blueprint, draws: Draws, a: Attempted, n: nat)
    requires Placed(bp, a.risks.working.items, a.lane.slots) && n <= |a.lane.slots|
    ensures NextClaimsFor(bp, draws, a, n, NextClaims(bp, draws, a.risks.working, a.lane.slots, a.end, n))
  {
    if n > 0 {
      NextClaimsAre(bp, draws, a, n - 1);
      var before := NextClaims(bp, draws, a.risks.working, a.lane.slots, a.end, n - 1);
      var claims := NextClaims(bp, draws, a.risks.working, a.lane.slots, a.end, n);
      var last := claims[|before|..];
      assert claims == before + last;
      forall c | 0 <= c < |claims| ensures NextClaim(bp, draws, a, n, claims[c]) {
        if c < |before| {
          assert NextClaim(bp, draws, a, n - 1, before[c]);
        }
      }
      forall i: nat | i < n && NextRise(bp, draws, a, i) == 1 ensures Claims(claims, VisitOrdinal(i)) {
        if i < n - 1 {
          ClaimsKept(before, last, VisitOrdinal(i));
        } else {
          assert claims[|before|].counter == VisitOrdinal(i);
        }
      }
      forall c | 0 <= c < |before| ensures before[c].counter.VisitOrdinal? && before[c].counter.item < n - 1 {
        assert NextClaim(bp, draws, a, n - 1, before[c]);
      }
    }
  }
}
