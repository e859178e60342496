/** Polling granularity for part-time members: when one step and two give the same labor. */
module Fractions {
  import opened BusinessCalendar
  import opened Rounding
  import opened Allocation

  /** A segment of n microseconds with one capable member, who is available for part of it. */
  function Solo(f: real, n: nat, available: nat, ceiling: nat): Desk {
    Desk(n, [Seat(f, available, ceiling, 1, map[0 := 1.0])], {})
  }

  ghost predicate Sensible(f: real, n: nat, available: nat) {
    available <= n && (f == 0.0 ==> available == 0)
  }

  ghost predicate Wants(s: Slot, n: nat) {
    s.Busy? && s.visit.status == 0 && s.visit.activity == 0 && s.visit.remaining >= n
    && (s.visit.member.Some? ==> s.visit.member.value == 0)
  }

  lemma RetainSolo(d: Desk, s: Slot)
    requires ValidDesk(d) && ValidSlot(d, s)
    ensures Retain(d, [s]) == ([RetainOne(d, s, NoLoad(d)).0], RetainOne(d, s, NoLoad(d)).1)
  {
    assert [s][..|[s]| - 1] == [] && [s][0] == s;
    assert Retain(d, []) == ([], NoLoad(d));
    var last := RetainOne(d, s, NoLoad(d));
    assert Retain(d, [s]) == ([] + [last.0], last.1);
    assert [] + [last.0] == [last.0];
  }

  lemma FillSolo(d: Desk, spent: seq<nat>, s: Slot, load: seq<nat>)
    requires ValidDesk(d) && ValidSlot(d, s) && |spent| == |load| == |d.seats|
    ensures Fill(d, spent, [s], load).0 == [FillOne(d, spent, s, load).0]
  {
    assert [s][..0] == [];
  }

  lemma BestSolo(d: Desk, spent: seq<nat>, load: seq<nat>, activity: Key)
    requires ValidDesk(d) && |spent| == |load| == |d.seats| == 1
    ensures Best(d, spent, load, activity, 1) == if Candidate(d, spent, load, activity, 0) then Some(0) else None
  {
  }

  /** The member takes the visit exactly when the segment has a microsecond for them. */
  lemma SoloOwner(d: Desk, f: real, n: nat, available: nat, ceiling: nat, spent: nat, s: Slot)
    requires d == Solo(f, n, available, ceiling) && Sensible(f, n, available) && Wants(s, n) && spent + n <= ceiling
    ensures ValidDesk(d) && ValidSlots(d, [s])
    ensures var r := Assign(d, [spent], [s]);
            |r| == 1 && r[0].Busy? && r[0].visit == s.visit.(member := if available > 0 then Some(0) else None)
  {
    RetainSolo(d, s);
    var kept := RetainOne(d, s, NoLoad(d));
    FillSolo(d, [spent], kept.0, kept.1);
    BestSolo(d, [spent], kept.1, 0);
  }

  lemma WorkSolo(d: Desk, spent: seq<nat>, s: Slot)
    requires ValidDesk(d) && ValidSlot(d, s) && |spent| == |d.seats| && AllExplained([s])
    ensures Explained(s) && ValidSlots(d, [s])
    ensures var one := WorkOne(d, spent, s, spent); Work(d, spent, [s]) == Progress([one.0], one.1, [one.2])
  {
    assert [s][0] == s && [s][..0] == [];
    assert Work(d, spent, []) == Progress([], spent, []);
  }

  /** The labor of the segment is what the member is available for. */
  lemma SoloLabor(d: Desk, f: real, n: nat, available: nat, ceiling: nat, spent: nat, s: Slot)
    requires d == Solo(f, n, available, ceiling) && Sensible(f, n, available) && Wants(s, n) && spent + n <= ceiling
    ensures ValidDesk(d) && ValidSlots(d, [s])
    ensures var r := Advance(d, [spent], [s]);
            && |r.slots| == 1 && r.spent == [spent + available] && r.slots[0].Busy?
            && r.slots[0].visit.credited == s.visit.credited + available
            && r.slots[0].visit.remaining == s.visit.remaining - available
            && r.slots[0].visit.status == 0 && r.slots[0].visit.activity == 0
            && (r.slots[0].visit.member.Some? ==> r.slots[0].visit.member.value == 0)
  {
    SoloOwner(d, f, n, available, ceiling, spent, s);
    AssignExplains(d, [spent], [s]);
    var owned := Assign(d, [spent], [s]);
    assert owned == [owned[0]];
    WorkSolo(d, [spent], owned[0]);
  }

  /** The visit both ways of polling start from. */
  function Fresh(remaining: nat): Slot {
    Busy(Visit(0, 0, true, 0, 0, None, 0, None, remaining, 0, remaining, 0, 0, 0, 0), None)
  }

  /** n microseconds at availability f, with no binding ceiling, give this much labor. */
  ghost function LaborOver(f: real, n: nat, ceiling: nat, spent: seq<nat>, slots: seq<Slot>): (r: Progress)
    requires 0.0 <= f <= 1.0 && |spent| == 1 && ValidSlots(Solo(f, n, Share(n, f), ceiling), slots)
  {
    Advance(Solo(f, n, Share(n, f), ceiling), spent, slots)
  }

  /** One step over a + b, and a step over a then one over b, credit the same labor. */
  ghost predicate SameLabor(f: real, a: nat, b: nat)
    requires 0.0 <= f <= 1.0
  {
    && ValidSlots(Solo(f, a, Share(a, f), 2 * (a + b)), [Fresh(a + b)])
    && ValidSlots(Solo(f, a + b, Share(a + b, f), 2 * (a + b)), [Fresh(a + b)])
    && var first := LaborOver(f, a, 2 * (a + b), [0], [Fresh(a + b)]);
       && |first.spent| == 1 && ValidSlots(Solo(f, b, Share(b, f), 2 * (a + b)), first.slots)
       && var second := LaborOver(f, b, 2 * (a + b), first.spent, first.slots);
          var whole := LaborOver(f, a + b, 2 * (a + b), [0], [Fresh(a + b)]);
          |second.slots| == |whole.slots| == 1 && second.slots[0].Busy? && whole.slots[0].Busy?
          && second.slots[0].visit.credited == whole.slots[0].visit.credited
  }

  lemma SameLaborIsSplit(f: real, a: nat, b: nat)
    requires 0.0 <= f <= 1.0
    ensures SameLabor(f, a, b) <==> SplitsAt(f, a, b)
  {
    var ceiling, s := 2 * (a + b), Fresh(a + b);
    var x, y, z := Share(a, f), Share(b, f), Share(a + b, f);
    SoloLabor(Solo(f, a + b, z, ceiling), f, a + b, z, ceiling, 0, s);
    SoloLabor(Solo(f, a, x, ceiling), f, a, x, ceiling, 0, s);
    var first := Advance(Solo(f, a, x, ceiling), [0], [s]);
    assert first.slots == [first.slots[0]];
    SoloLabor(Solo(f, b, y, ceiling), f, b, y, ceiling, x, first.slots[0]);
  }

  /** Labor does not depend on how a segment is cut, however it is cut, exactly for members who are fully
      present or fully absent. */
  lemma LaborSplitsIff(f: real)
    requires 0.0 <= f <= 1.0
    ensures (forall a: nat, b: nat :: SameLabor(f, a, b)) <==> f == 0.0 || f == 1.0
  {
    ShareSplitsIff(f);
    forall a: nat, b: nat ensures SameLabor(f, a, b) <==> SplitsAt(f, a, b) {
      SameLaborIsSplit(f, a, b);
    }
  }
}
