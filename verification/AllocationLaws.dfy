/** What one segment of allocation guarantees, whatever ownership and consumption it starts from. */
module AllocationLaws {
  import opened BusinessCalendar
  import opened Allocation

  // ---------- WIP ----------

  /** How many visits of these slots member j owns. */
  ghost function Owned(slots: seq<Slot>, j: nat): nat {
    if slots == [] then 0
    else
      var n := |slots| - 1;
      Owned(slots[..n], j) + if slots[n].Busy? && slots[n].visit.member == Some(j) then 1 else 0
  }

  lemma {:induction false} RetainCounts(d: Desk, slots: seq<Slot>, j: nat)
    requires ValidDesk(d) && ValidSlots(d, slots) && j < |d.seats|
    ensures Retain(d, slots).1[j] == Owned(Retain(d, slots).0, j) <= d.seats[j].wip
  {
    if slots != [] {
      var n := |slots| - 1;
      RetainCounts(d, slots[..n], j);
      assert Retain(d, slots).0[..n] == Retain(d, slots[..n]).0;
    }
  }

  lemma {:induction false} FillCounts(d: Desk, spent: seq<nat>, slots: seq<Slot>, load: seq<nat>, j: nat)
    requires ValidDesk(d) && ValidSlots(d, slots) && |spent| == |load| == |d.seats| && j < |d.seats|
    ensures var r := Fill(d, spent, slots, load);
            && r.1[j] + Owned(slots, j) == load[j] + Owned(r.0, j)
            && load[j] <= r.1[j] <= Max(load[j], d.seats[j].wip)
  {
    if slots != [] {
      var n := |slots| - 1;
      FillCounts(d, spent, slots[..n], load, j);
      assert Fill(d, spent, slots, load).0[..n] == Fill(d, spent, slots[..n], load).0;
    }
  }

  lemma AssignCounts(d: Desk, spent: seq<nat>, slots: seq<Slot>, j: nat)
    requires ValidDesk(d) && ValidSlots(d, slots) && |spent| == |d.seats| && j < |d.seats|
    ensures var kept := Retain(d, slots);
            Fill(d, spent, kept.0, kept.1).1[j] == Owned(Assign(d, spent, slots), j) <= d.seats[j].wip
  {
    var kept := Retain(d, slots);
    RetainCounts(d, slots, j);
    FillCounts(d, spent, kept.0, kept.1, j);
  }

  lemma {:induction false} WorkKeepsOwners(d: Desk, start: seq<nat>, slots: seq<Slot>, j: nat)
    requires ValidDesk(d) && ValidSlots(d, slots) && |start| == |d.seats| && AllExplained(slots)
    ensures Owned(Work(d, start, slots).slots, j) == Owned(slots, j)
  {
    if slots != [] {
      var n := |slots| - 1;
      WorkKeepsOwners(d, start, slots[..n], j);
      var before := Work(d, start, slots[..n]);
      var last := WorkOne(d, start, slots[n], before.spent).0;
      assert Work(d, start, slots).slots == before.slots + [last];
      assert (before.slots + [last])[..n] == before.slots;
    }
  }

  /** However many visits a member owned before, after a segment they own at most their WIP limit. */
  lemma WipRespected(d: Desk, spent: seq<nat>, slots: seq<Slot>, j: nat)
    requires ValidDesk(d) && ValidSlots(d, slots) && |spent| == |d.seats| && j < |d.seats|
    ensures Owned(Advance(d, spent, slots).slots, j) <= d.seats[j].wip
  {
    AssignCounts(d, spent, slots, j);
    AssignExplains(d, spent, slots);
    WorkKeepsOwners(d, spent, Assign(d, spent, slots), j);
  }

  // ---------- Rank order: the closed form of greedy credit ----------

  /** The labor member j can give in the segment. */
  ghost function Budget(d: Desk, start: seq<nat>, j: nat): nat
    requires ValidDesk(d) && |start| == |d.seats| && j < |d.seats|
  {
    RemainingCapacity(d, start, j)
  }

  /** The labor asked of member j by these slots. */
  ghost function Demand(d: Desk, slots: seq<Slot>, j: nat): nat {
    if slots == [] then 0
    else
      var n := |slots| - 1;
      Demand(d, slots[..n], j) + if Draws(d, slots[n], j) then slots[n].visit.remaining else 0
  }

  lemma {:induction false} DemandGrows(d: Desk, slots: seq<Slot>, i: nat, j: nat)
    requires i <= |slots|
    ensures Demand(d, slots[..i], j) <= Demand(d, slots, j)
    decreases |slots|
  {
    if i == |slots| {
      assert slots[..i] == slots;
    } else {
      var n := |slots| - 1;
      assert slots[..n][..i] == slots[..i];
      DemandGrows(d, slots[..n], i, j);
    }
  }

  /** Each member's labor is their budget or the whole demand, whichever is smaller. */
  lemma {:induction false} GreedyTotal(d: Desk, start: seq<nat>, slots: seq<Slot>, j: nat)
    requires ValidDesk(d) && ValidSlots(d, slots) && |start| == |d.seats| && AllExplained(slots)
    requires j < |d.seats|
    ensures Work(d, start, slots).spent[j] == start[j] + Min(Budget(d, start, j), Demand(d, slots, j))
  {
    if slots != [] {
      GreedyTotal(d, start, slots[..|slots| - 1], j);
    }
  }

  lemma {:induction false} WorkPrefix(d: Desk, start: seq<nat>, slots: seq<Slot>, i: nat)
    requires ValidDesk(d) && ValidSlots(d, slots) && |start| == |d.seats| && AllExplained(slots)
    requires i < |slots|
    ensures var one := WorkOne(d, start, slots[i], Work(d, start, slots[..i]).spent);
            Work(d, start, slots).slots[i] == one.0 && Work(d, start, slots).causes[i] == one.2
    decreases |slots|
  {
    var n := |slots| - 1;
    var before := Work(d, start, slots[..n]);
    var last := WorkOne(d, start, slots[n], before.spent);
    assert Work(d, start, slots) == Progress(before.slots + [last.0], last.1, before.causes + [last.2]);
    if i < n {
      assert slots[..n][..i] == slots[..i];
      WorkPrefix(d, start, slots[..n], i);
    }
  }

  /** The share of member j's labor that reaches slot i. */
  ghost function Credit(d: Desk, start: seq<nat>, slots: seq<Slot>, i: nat, j: nat): nat
    requires ValidDesk(d) && |start| == |d.seats| && i < |slots| && j < |d.seats|
  {
    var ahead := Demand(d, slots[..i], j);
    var asked := if Draws(d, slots[i], j) then slots[i].visit.remaining else 0;
    Min(Budget(d, start, j), ahead + asked) - Min(Budget(d, start, j), ahead)
  }

  /** What a segment does to one visit, in closed form. */
  lemma GreedyShare(d: Desk, start: seq<nat>, slots: seq<Slot>, i: nat, j: nat)
    requires ValidDesk(d) && ValidSlots(d, slots) && |start| == |d.seats| && AllExplained(slots)
    requires i < |slots| && slots[i].Busy? && slots[i].visit.member == Some(j) && j < |d.seats|
    ensures var v, w := slots[i].visit, Work(d, start, slots).slots[i].visit;
            && w.credited == v.credited + Credit(d, start, slots, i, j)
            && w.elapsed == v.elapsed + Credit(d, start, slots, i, j)
            && w.remaining == v.remaining - Credit(d, start, slots, i, j)
            && w.member == v.member
            && w.pause == v.pause + if v.status in d.pausing then d.len else 0
  {
    WorkPrefix(d, start, slots, i);
    GreedyTotal(d, start, slots[..i], j);
  }

  /** A visit earns labor only after every higher-ranked visit of its owner has no work left. */
  lemma RankPriority(d: Desk, start: seq<nat>, slots: seq<Slot>, h: nat, i: nat, j: nat)
    requires ValidDesk(d) && ValidSlots(d, slots) && |start| == |d.seats| && AllExplained(slots)
    requires h < i < |slots| && j < |d.seats|
    requires slots[h].Busy? && slots[h].visit.member == Some(j) && slots[h].visit.status !in d.pausing
    requires slots[i].Busy? && slots[i].visit.member == Some(j)
    requires Work(d, start, slots).slots[i].visit.credited > slots[i].visit.credited
    ensures Work(d, start, slots).slots[h].visit.remaining == 0
  {
    GreedyShare(d, start, slots, i, j);
    GreedyShare(d, start, slots, h, j);
    assert slots[..i][..h + 1] == slots[..h + 1] && slots[..h + 1][..h] == slots[..h];
    DemandGrows(d, slots[..i], h + 1, j);
  }

  // ---------- Conservation and daily capacity ----------

  function Sum(s: seq<nat>): nat {
    if s == [] then 0 else Sum(s[..|s| - 1]) + s[|s| - 1]
  }

  lemma {:induction false} SumUpdate(s: seq<nat>, j: nat, x: nat)
    requires j < |s|
    ensures Sum(s[j := x]) == Sum(s) - s[j] + x
  {
    var n := |s| - 1;
    if j == n {
      assert s[j := x][..n] == s[..n];
    } else {
      assert s[j := x][..n] == s[..n][j := x];
      SumUpdate(s[..n], j, x);
    }
  }

  ghost function Labor(slots: seq<Slot>): nat {
    if slots == [] then 0
    else
      var n := |slots| - 1;
      Labor(slots[..n]) + if slots[n].Idle? then 0 else slots[n].visit.credited
  }

  lemma {:induction false} RetainKeepsLabor(d: Desk, slots: seq<Slot>)
    requires ValidDesk(d) && ValidSlots(d, slots)
    ensures Labor(Retain(d, slots).0) == Labor(slots)
  {
    if slots != [] {
      var n := |slots| - 1;
      RetainKeepsLabor(d, slots[..n]);
      assert Retain(d, slots).0[..n] == Retain(d, slots[..n]).0;
    }
  }

  lemma {:induction false} FillKeepsLabor(d: Desk, spent: seq<nat>, slots: seq<Slot>, load: seq<nat>)
    requires ValidDesk(d) && ValidSlots(d, slots) && |spent| == |load| == |d.seats|
    ensures Labor(Fill(d, spent, slots, load).0) == Labor(slots)
  {
    if slots != [] {
      var n := |slots| - 1;
      FillKeepsLabor(d, spent, slots[..n], load);
      assert Fill(d, spent, slots, load).0[..n] == Fill(d, spent, slots[..n], load).0;
    }
  }

  lemma WorkOneConserves(d: Desk, start: seq<nat>, s: Slot, now: seq<nat>)
    requires ValidDesk(d) && |start| == |now| == |d.seats| && ValidSlot(d, s) && Explained(s)
    requires forall j :: 0 <= j < |now| ==> start[j] <= now[j]
    ensures var r := WorkOne(d, start, s, now);
            && (r.0.Idle? <==> s.Idle?)
            && Sum(r.1) - Sum(now) == if s.Idle? then 0 else r.0.visit.credited - s.visit.credited
  {
    if s.Busy? && s.visit.member.Some? {
      var o := s.visit.member.value;
      SumUpdate(now, o, WorkOne(d, start, s, now).1[o]);
    }
  }

  lemma {:induction false} WorkConserves(d: Desk, start: seq<nat>, slots: seq<Slot>)
    requires ValidDesk(d) && ValidSlots(d, slots) && |start| == |d.seats| && AllExplained(slots)
    ensures var r := Work(d, start, slots); Sum(r.spent) - Sum(start) == Labor(r.slots) - Labor(slots)
  {
    if slots != [] {
      var n := |slots| - 1;
      WorkConserves(d, start, slots[..n]);
      var before := Work(d, start, slots[..n]);
      var last := WorkOne(d, start, slots[n], before.spent);
      WorkOneConserves(d, start, slots[n], before.spent);
      assert Work(d, start, slots).slots == before.slots + [last.0];
      assert (before.slots + [last.0])[..n] == before.slots;
    }
  }

  /** All labor credited to visits is labor consumed from members, no more and no less. */
  lemma LaborConserved(d: Desk, spent: seq<nat>, slots: seq<Slot>)
    requires ValidDesk(d) && ValidSlots(d, slots) && |spent| == |d.seats|
    ensures var r := Advance(d, spent, slots); Sum(r.spent) - Sum(spent) == Labor(r.slots) - Labor(slots)
  {
    var kept := Retain(d, slots);
    RetainKeepsLabor(d, slots);
    FillKeepsLabor(d, spent, kept.0, kept.1);
    AssignExplains(d, spent, slots);
    WorkConserves(d, spent, Assign(d, spent, slots));
  }

  /** No member passes the day's ceiling; one already past it earns nothing more. */
  lemma CeilingRespected(d: Desk, spent: seq<nat>, slots: seq<Slot>, j: nat)
    requires ValidDesk(d) && ValidSlots(d, slots) && |spent| == |d.seats| && j < |d.seats|
    ensures Advance(d, spent, slots).spent[j] <= Max(spent[j], d.seats[j].ceiling)
  {
    AssignExplains(d, spent, slots);
    GreedyTotal(d, spent, Assign(d, spent, slots), j);
  }

  // ---------- Per-slot shape ----------

  /** What assignment may change in a slot: the owner and the denial, nothing else. */
  ghost predicate SameButOwner(a: Slot, b: Slot) {
    && (a.Idle? <==> b.Idle?) && (a.Held? ==> b == a) && (a.Busy? <==> b.Busy?)
    && (a.Busy? ==> b.visit == a.visit.(member := b.visit.member))
  }

  lemma {:induction false} RetainShape(d: Desk, slots: seq<Slot>)
    requires ValidDesk(d) && ValidSlots(d, slots)
    ensures forall i :: 0 <= i < |slots| ==> SameButOwner(slots[i], Retain(d, slots).0[i])
  {
    if slots != [] {
      RetainShape(d, slots[..|slots| - 1]);
    }
  }

  lemma {:induction false} FillShape(d: Desk, spent: seq<nat>, slots: seq<Slot>, load: seq<nat>)
    requires ValidDesk(d) && ValidSlots(d, slots) && |spent| == |load| == |d.seats|
    ensures forall i :: 0 <= i < |slots| ==> SameButOwner(slots[i], Fill(d, spent, slots, load).0[i])
  {
    if slots != [] {
      FillShape(d, spent, slots[..|slots| - 1], load);
    }
  }

  lemma AssignShape(d: Desk, spent: seq<nat>, slots: seq<Slot>)
    requires ValidDesk(d) && ValidSlots(d, slots) && |spent| == |d.seats|
    ensures forall i :: 0 <= i < |slots| ==> SameButOwner(slots[i], Assign(d, spent, slots)[i])
  {
    var kept := Retain(d, slots);
    RetainShape(d, slots);
    FillShape(d, spent, kept.0, kept.1);
  }

  /** What a segment may change in a slot, whatever the desk. */
  ghost predicate Advanced(d: Desk, a: Slot, b: Slot) {
    && (a.Idle? ==> b.Idle?)
    && (a.Held? ==> b == a)
    && (a.Busy? ==>
          && b.Busy?
          && var v, w := a.visit, b.visit;
             var labor := w.credited - v.credited;
             && labor >= 0
             && w == v.(member := w.member, elapsed := v.elapsed + labor, remaining := w.remaining,
                        queue := w.queue, credited := w.credited,
                        pause := v.pause + if v.status in d.pausing then d.len else 0)
             && w.remaining == v.remaining - labor
             && w.queue >= v.queue
             && (v.status in d.pausing ==> labor == 0 && w.queue == v.queue))
  }

  /** Queue accounting: while work is left, labor plus queueing fills the segment, and the recorded
      cause carries exactly the queued time. */
  ghost predicate Accounted(d: Desk, a: Slot, b: Slot, cause: Option<Cause>) {
    var queued := if a.Busy? && b.Busy? then b.visit.queue - a.visit.queue else 0;
    && queued == (if cause.Some? then cause.value.delta else 0)
    && (cause.Some? ==> cause.value.delta > 0)
    && (a.Busy? && b.Busy? && a.visit.status !in d.pausing && b.visit.remaining > 0 ==>
          b.visit.credited - a.visit.credited + queued == d.len)
  }

  lemma SegmentEffect(d: Desk, spent: seq<nat>, slots: seq<Slot>, i: nat)
    requires ValidDesk(d) && ValidSlots(d, slots) && |spent| == |d.seats| && i < |slots|
    ensures var r := Advance(d, spent, slots);
            Advanced(d, slots[i], r.slots[i]) && Accounted(d, slots[i], r.slots[i], r.causes[i])
  {
    AssignShape(d, spent, slots);
    AssignExplains(d, spent, slots);
    WorkPrefix(d, spent, Assign(d, spent, slots), i);
  }
}
