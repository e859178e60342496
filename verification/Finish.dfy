/** Closing the visits complete at the committed end, opening their successors, and the whole tick as
    one command. */
module Finish {
  import opened BusinessCalendar
  import opened Allocation
  import opened Team
  import opened Completion
  import opened FirstCompletion
  import opened Commands
  import opened Routes
  import opened RunInvariant
  import opened Tick

  /** What the committed end does to one item: its row, its visit, and the visit opened next, if any. */
  datatype Closing = Closing(item: Item, visit: Visit, next: Option<Visit>)

  ghost function Close(bp: Blueprint, draws: Draws, i: nat, ordinal: nat, item: Item, slot: Slot, end: int): Closing
    requires !slot.Idle? && item.kind in bp.routes && Position(bp.routes[item.kind], slot.visit.status, 0).Some?
  {
    var v := slot.visit;
    if CompleteAt(slot, Clock(bp.calendar, slot, end)) then
      var move := Leave(bp, draws, i, ordinal, item, v.status, end);
      Closing(move.item, v.(open := false, closed := Some(end)), move.visit)
    else Closing(item, v, None)
  }

  /** Slots stand at a step of their item's route. */
  ghost predicate Placed(bp: Blueprint, items: seq<Item>, slots: seq<Slot>) {
    && |slots| == |items|
    && forall i :: 0 <= i < |slots| && !slots[i].Idle? ==>
         items[i].kind in bp.routes && Position(bp.routes[items[i].kind], slots[i].visit.status, 0).Some?
  }

  ghost function ClosingAt(bp: Blueprint, draws: Draws, working: State, slots: seq<Slot>, end: int, i: nat): Closing
    requires Placed(bp, working.items, slots) && i < |slots| && !slots[i].Idle?
  {
    Close(bp, draws, i, Next(working, VisitOrdinal(i)), working.items[i], slots[i], end)
  }

  ghost function FinishItems(bp: Blueprint, draws: Draws, working: State, slots: seq<Slot>, end: int): (r: seq<Item>)
    requires Placed(bp, working.items, slots)
    ensures |r| == |working.items|
  {
    seq(|slots|, i requires 0 <= i < |slots| =>
      if slots[i].Idle? then working.items[i] else ClosingAt(bp, draws, working, slots, end, i).item)
  }

  /** The visits the slots hold, as they leave the tick. */
  ghost function FinishVisits(bp: Blueprint, draws: Draws, working: State, slots: seq<Slot>, end: int): Visits
    requires Placed(bp, working.items, slots)
  {
    map i: nat | i < |slots| && !slots[i].Idle? :: (i, slots[i].visit.ordinal) := ClosingAt(bp, draws, working, slots, end, i).visit
  }

  ghost predicate OpensNext(bp: Blueprint, draws: Draws, working: State, slots: seq<Slot>, end: int, i: nat)
    requires Placed(bp, working.items, slots) && i < |slots|
  {
    !slots[i].Idle? && ClosingAt(bp, draws, working, slots, end, i).next.Some?
  }

  ghost function NextVisits(bp: Blueprint, draws: Draws, working: State, slots: seq<Slot>, end: int): Visits
    requires Placed(bp, working.items, slots)
  {
    map i: nat | i < |slots| && OpensNext(bp, draws, working, slots, end, i)
      :: (i, Next(working, VisitOrdinal(i))) := ClosingAt(bp, draws, working, slots, end, i).next.value
  }

  /** One claim on the visit counter of each item below n that opens a visit. */
  ghost function NextClaims(bp: Blueprint, draws: Draws, working: State, slots: seq<Slot>, end: int, n: nat): seq<Claim>
    requires Placed(bp, working.items, slots) && n <= |slots|
  {
    if n == 0 then []
    else
      var i: nat := n - 1;
      NextClaims(bp, draws, working, slots, end, n - 1)
      + if OpensNext(bp, draws, working, slots, end, i) then [Claim(VisitOrdinal(i), Next(working, VisitOrdinal(i)), 1)] else []
  }

  ghost function FinishTick(bp: Blueprint, draws: Draws, a: Attempted): Outcome
    requires Placed(bp, a.risks.working.items, a.lane.slots)
  {
    var working, slots := a.risks.working, a.lane.slots;
    Outcome(working.(cursor := a.end,
                     items := FinishItems(bp, draws, working, slots, a.end),
                     visits := working.visits + FinishVisits(bp, draws, working, slots, a.end)
                               + NextVisits(bp, draws, working, slots, a.end),
                     book := a.lane.book),
            a.risks.claims + NextClaims(bp, draws, working, slots, a.end, |slots|), a.risks.naturals)
  }

  /** Finishing asks for the clock of every visit whose work is done. */
  predicate FinishReadable(slots: seq<Slot>, end: int) {
    forall i :: 0 <= i < |slots| && !slots[i].Idle? && slots[i].visit.remaining == 0 ==> slots[i].visit.entered <= end
  }

  // ---------- One item across a tick ----------

  /** The item's slot carries its last visit, moved on by this tick's labor. */
  ghost predicate Carrying(bp: Blueprint, visits: Visits, item: Item, i: nat, n: nat, slot: Slot)
  {
    && ItemOk(bp, visits, item, i, n)
    && (slot.Idle? <==> !item.life.Active?)
    && (!slot.Idle? ==> n > 0 && (i, n - 1) in visits && Moved(Busy(visits[(i, n - 1)], None), Busy(slot.visit, None))
                        && (slot.visit.member.Some? ==> slot.visit.member.value < |bp.members|))
  }

  /** The map after the tick: item i's last visit replaced, and possibly one more. */
  ghost predicate Finished(visits: Visits, more: Visits, i: nat, n: nat, visit: Visit, next: Option<Visit>)
    requires n > 0
  {
    && (forall k: nat :: (i, k) in more <==> (i, k) in visits || (k == n && next.Some?))
    && (forall k: nat :: (i, k) in visits && k != n - 1 ==> (i, k) in more && more[(i, k)] == visits[(i, k)])
    && ((i, n - 1) in more && more[(i, n - 1)] == visit)
    && (next.Some? ==> (i, n) in more && more[(i, n)] == next.value)
  }

  lemma StillOpen(bp: Blueprint, visits: Visits, more: Visits, item: Item, i: nat, n: nat, slot: Slot)
    requires Carrying(bp, visits, item, i, n, slot) && !slot.Idle?
    requires Finished(visits, more, i, n, slot.visit, None)
    ensures ItemOk(bp, more, item, i, n)
  {
    forall k: nat | k < n ensures VisitOk(bp, item, i, n, k, more[(i, k)]) {
      assert VisitOk(bp, item, i, n, k, visits[(i, k)]);
    }
  }

  lemma PlacedItem(bp: Blueprint, visits: Visits, item: Item, i: nat, n: nat, slot: Slot)
    requires Carrying(bp, visits, item, i, n, slot) && !slot.Idle?
    ensures item.kind in bp.routes && slot.visit.status == item.status && Position(bp.routes[item.kind], item.status, 0).Some?
  {
    assert VisitOk(bp, item, i, n, n - 1, visits[(i, n - 1)]);
    var steps := bp.routes[item.kind];
    var p :| 0 <= p < |steps| && steps[p].status == item.status && Timed(bp, steps[p]);
  }

  lemma ClosedItem(bp: Blueprint, draws: Draws, end: int, visits: Visits, more: Visits, item: Item, i: nat, n: nat, slot: Slot)
    requires ValidRoutes(bp) && Carrying(bp, visits, item, i, n, slot) && !slot.Idle? && slot.visit.remaining == 0
    requires item.kind in bp.routes && Position(bp.routes[item.kind], item.status, 0).Some?
    requires var move := Leave(bp, draws, i, n, item, item.status, end);
             Finished(visits, more, i, n, slot.visit.(open := false, closed := Some(end)), move.visit)
    ensures var move := Leave(bp, draws, i, n, item, item.status, end);
            ItemOk(bp, more, move.item, i, n + if move.visit.Some? then 1 else 0)
  {
    var move := Leave(bp, draws, i, n, item, item.status, end);
    var m := n + if move.visit.Some? then 1 else 0;
    LeaveLands(bp, draws, i, n, item, end);
    forall k: nat | k < m ensures VisitOk(bp, move.item, i, m, k, more[(i, k)]) {
      if k < n {
        assert VisitOk(bp, item, i, n, k, visits[(i, k)]);
      }
    }
  }

  lemma LeaveLands(bp: Blueprint, draws: Draws, i: nat, n: nat, item: Item, end: int)
    requires item.kind in bp.routes && item.life.Active? && Position(bp.routes[item.kind], item.status, 0).Some?
    ensures var move := Leave(bp, draws, i, n, item, item.status, end);
            && move.item.kind == item.kind && move.item.points == item.points
            && (if move.visit.Some? then
                  && move.item.life.Active? && AtTimedStep(bp, move.item)
                  && VisitOk(bp, move.item, i, n + 1, n, move.visit.value)
                else move.item.life.Done?)
  {
    var steps := bp.routes[item.kind];
    var next := NextTimed(bp, steps, Position(steps, item.status, 0).value + 1);
    var move := Leave(bp, draws, i, n, item, item.status, end);
    if next.Some? {
      assert steps[next.value].status == move.item.status && Timed(bp, steps[next.value]);
    }
  }
}
