/** Polling granularity: advancing a segment in one step or in two gives the same owners, labor,
    remaining work, pause and consumption, for members who are either present or absent. */
module Granularity {
  import opened BusinessCalendar
  import opened Allocation
  import opened AllocationLaws

  /** Everyone is fully present or absent, so availability is the whole segment or nothing. */
  ghost predicate Whole(d: Desk) {
    && d.len > 0
    && forall j :: 0 <= j < |d.seats| ==>
         d.seats[j].available == if d.seats[j].fraction == 0.0 then 0 else d.len
  }

  /** Two parts of one stretch of time: the same members and statuses, any lengths. */
  ghost predicate SameTeam(a: Desk, b: Desk) {
    && |a.seats| == |b.seats| && a.pausing == b.pausing
    && forall j :: 0 <= j < |a.seats| ==> a.seats[j] == b.seats[j].(available := a.seats[j].available)
  }

  /** Equal in everything but the queue clock and the recorded denial. */
  ghost predicate SameClocks(a: Slot, b: Slot) {
    && (a.Idle? <==> b.Idle?) && (a.Held? <==> b.Held?)
    && (!a.Idle? ==> a.visit == b.visit.(queue := a.visit.queue))
  }

  // ---------- Ownership does not depend on how long the segment is ----------

  lemma {:induction false} RetainIgnoresLength(d: Desk, e: Desk, slots: seq<Slot>)
    requires ValidDesk(d) && ValidDesk(e) && Whole(d) && Whole(e) && SameTeam(d, e) && ValidSlots(d, slots)
    ensures Retain(e, slots) == Retain(d, slots)
  {
    if slots != [] {
      RetainIgnoresLength(d, e, slots[..|slots| - 1]);
    }
  }

  lemma {:induction false} BestIgnoresLength(d: Desk, e: Desk, spent: seq<nat>, load: seq<nat>, activity: Key, k: nat)
    requires ValidDesk(d) && ValidDesk(e) && Whole(d) && Whole(e) && SameTeam(d, e)
    requires |spent| == |load| == |d.seats| && k <= |d.seats|
    ensures Best(e, spent, load, activity, k) == Best(d, spent, load, activity, k)
  {
    if k > 0 {
      BestIgnoresLength(d, e, spent, load, activity, k - 1);
    }
  }

  lemma DenialIgnoresLength(d: Desk, e: Desk, spent: seq<nat>, activity: Key)
    requires ValidDesk(d) && ValidDesk(e) && Whole(d) && Whole(e) && SameTeam(d, e) && |spent| == |d.seats|
    ensures DenialReason(e, spent, activity) == DenialReason(d, spent, activity)
  {
    assert forall j :: 0 <= j < |d.seats| ==>
      (RemainingCapacity(e, spent, j) != 0 <==> RemainingCapacity(d, spent, j) != 0);
  }

  lemma {:induction false} FillIgnoresLength(d: Desk, e: Desk, spent: seq<nat>, slots: seq<Slot>, load: seq<nat>)
    requires ValidDesk(d) && ValidDesk(e) && Whole(d) && Whole(e) && SameTeam(d, e) && ValidSlots(d, slots)
    requires |spent| == |load| == |d.seats|
    ensures Fill(e, spent, slots, load) == Fill(d, spent, slots, load)
  {
    if slots != [] {
      var k := |slots| - 1;
      FillIgnoresLength(d, e, spent, slots[..k], load);
      if slots[k].Busy? {
        BestIgnoresLength(d, e, spent, Fill(d, spent, slots[..k], load).1, slots[k].visit.activity, |d.seats|);
        DenialIgnoresLength(d, e, spent, slots[k].visit.activity);
      }
    }
  }

  lemma AssignIgnoresLength(d: Desk, e: Desk, spent: seq<nat>, slots: seq<Slot>)
    requires ValidDesk(d) && ValidDesk(e) && Whole(d) && Whole(e) && SameTeam(d, e)
    requires ValidSlots(d, slots) && |spent| == |d.seats|
    ensures Assign(e, spent, slots) == Assign(d, spent, slots)
  {
    var kept := Retain(d, slots);
    RetainIgnoresLength(d, e, slots);
    FillIgnoresLength(d, e, spent, kept.0, kept.1);
  }

  // ---------- Assigning again changes no owner ----------

  /** Every owner can do the work and is available. */
  ghost predicate OwnersFit(d: Desk, slots: seq<Slot>) {
    forall i :: 0 <= i < |slots| && slots[i].Busy? && slots[i].visit.member.Some? ==>
      var o := slots[i].visit.member.value;
      o < |d.seats| && slots[i].visit.activity in d.seats[o].skill && d.seats[o].fraction != 0.0
  }

  lemma {:induction false} RetainFits(d: Desk, slots: seq<Slot>)
    requires ValidDesk(d) && ValidSlots(d, slots)
    ensures OwnersFit(d, Retain(d, slots).0)
  {
    if slots != [] {
      RetainFits(d, slots[..|slots| - 1]);
    }
  }

  lemma {:induction false} FillFits(d: Desk, spent: seq<nat>, slots: seq<Slot>, load: seq<nat>)
    requires ValidDesk(d) && ValidSlots(d, slots) && |spent| == |load| == |d.seats| && OwnersFit(d, slots)
    ensures OwnersFit(d, Fill(d, spent, slots, load).0)
  {
    if slots != [] {
      var n := |slots| - 1;
      assert OwnersFit(d, slots[..n]);
      FillFits(d, spent, slots[..n], load);
      var before := Fill(d, spent, slots[..n], load);
      var last := FillOne(d, spent, slots[n], before.1).0;
      assert Fill(d, spent, slots, load).0 == before.0 + [last];
    }
  }

  lemma {:induction false} FillDenies(d: Desk, spent: seq<nat>, slots: seq<Slot>, load: seq<nat>)
    requires ValidDesk(d) && ValidSlots(d, slots) && |spent| == |load| == |d.seats|
    ensures var r := Fill(d, spent, slots, load);
            && (forall j :: 0 <= j < |load| ==> load[j] <= r.1[j])
            && forall i, k :: 0 <= i < |slots| && r.0[i].Busy? && r.0[i].visit.member.None? && 0 <= k < |d.seats|
                 ==> !Candidate(d, spent, r.1, r.0[i].visit.activity, k)
  {
    if slots != [] {
      var n := |slots| - 1;
      FillDenies(d, spent, slots[..n], load);
      var before := Fill(d, spent, slots[..n], load);
      var last := FillOne(d, spent, slots[n], before.1);
      assert Fill(d, spent, slots, load) == (before.0 + [last.0], last.1);
      assert forall j :: 0 <= j < |load| ==> before.1[j] <= last.1[j];
      assert forall activity: Key, k :: (0 <= k < |d.seats| && !Candidate(d, spent, before.1, activity, k)
          ==> !Candidate(d, spent, last.1, activity, k));
    }
  }

  /** No member can take any visit that is still without an owner. */
  ghost predicate Settled(d: Desk, spent: seq<nat>, load: seq<nat>, slots: seq<Slot>)
    requires ValidDesk(d) && |spent| == |load| == |d.seats|
  {
    forall i, k :: 0 <= i < |slots| && slots[i].Busy? && slots[i].visit.member.None? && 0 <= k < |d.seats|
      ==> !Candidate(d, spent, load, slots[i].visit.activity, k)
  }

  lemma {:induction false} OwnedGrows(slots: seq<Slot>, i: nat, j: nat)
    requires i <= |slots|
    ensures Owned(slots[..i], j) <= Owned(slots, j)
    decreases |slots|
  {
    if i == |slots| {
      assert slots[..i] == slots;
    } else {
      var n := |slots| - 1;
      assert slots[..n][..i] == slots[..i];
      OwnedGrows(slots[..n], i, j);
    }
  }

  /** Owners within their limits all keep their visits. */
  lemma {:induction false} RetainsAll(d: Desk, slots: seq<Slot>, i: nat)
    requires ValidDesk(d) && Whole(d) && ValidSlots(d, slots) && OwnersFit(d, slots)
    requires forall j :: 0 <= j < |d.seats| ==> Owned(slots, j) <= d.seats[j].wip
    requires i <= |slots|
    ensures var r := Retain(d, slots[..i]);
            && (forall k :: 0 <= k < i ==> r.0[k] == if slots[k].Busy? then Busy(slots[k].visit, None) else slots[k])
            && (forall j :: 0 <= j < |d.seats| ==> r.1[j] == Owned(slots[..i], j))
  {
    if i > 0 {
      RetainsAll(d, slots, i - 1);
      assert slots[..i][..i - 1] == slots[..i - 1];
      if slots[i - 1].Busy? && slots[i - 1].visit.member.Some? {
        OwnedGrows(slots, i, slots[i - 1].visit.member.value);
      }
    }
  }

  lemma {:induction false} FillsNone(d: Desk, spent: seq<nat>, slots: seq<Slot>, load: seq<nat>)
    requires ValidDesk(d) && ValidSlots(d, slots) && |spent| == |load| == |d.seats|
    requires Settled(d, spent, load, slots)
    ensures var r := Fill(d, spent, slots, load);
            && r.1 == load
            && forall k :: 0 <= k < |slots| ==>
                 SameButOwner(slots[k], r.0[k]) && (slots[k].Busy? ==> r.0[k].visit == slots[k].visit)
  {
    if slots != [] {
      var n := |slots| - 1;
      assert Settled(d, spent, load, slots[..n]);
      FillsNone(d, spent, slots[..n], load);
    }
  }

  /** What holds between an assignment and the slots it leads to. */
  lemma OwnersAfterWork(d: Desk, spent: seq<nat>, slots: seq<Slot>)
    requires ValidDesk(d) && ValidSlots(d, slots) && |spent| == |d.seats|
    ensures var owners, after := Assign(d, spent, slots), Advance(d, spent, slots).slots;
            && OwnersFit(d, after)
            && (forall i :: 0 <= i < |slots| ==> (after[i].Busy? <==> owners[i].Busy?))
            && (forall i :: 0 <= i < |slots| && after[i].Busy? ==>
                  after[i].visit.member == owners[i].visit.member
                  && after[i].visit.activity == owners[i].visit.activity)
  {
    var kept := Retain(d, slots);
    var owners := Assign(d, spent, slots);
    RetainFits(d, slots);
    FillFits(d, spent, kept.0, kept.1);
    AssignExplains(d, spent, slots);
    var after := Work(d, spent, owners).slots;
    forall i | 0 <= i < |owners|
      ensures after[i].Busy? == owners[i].Busy?
      ensures after[i].Busy? ==> after[i].visit.member == owners[i].visit.member
                                 && after[i].visit.activity == owners[i].visit.activity
    {
      WorkPrefix(d, spent, owners, i);
    }
  }

  /** The load the second pass ends with is what the members then own. */
  lemma LoadAfterWork(d: Desk, spent: seq<nat>, slots: seq<Slot>)
    requires ValidDesk(d) && ValidSlots(d, slots) && |spent| == |d.seats|
    ensures var kept := Retain(d, slots);
            var load := Fill(d, spent, kept.0, kept.1).1;
            forall j :: 0 <= j < |d.seats| ==>
              load[j] == Owned(Advance(d, spent, slots).slots, j) <= d.seats[j].wip
  {
    AssignExplains(d, spent, slots);
    forall j | 0 <= j < |d.seats|
      ensures Owned(Advance(d, spent, slots).slots, j) == Owned(Assign(d, spent, slots), j)
    {
      WorkKeepsOwners(d, spent, Assign(d, spent, slots), j);
    }
    forall j | 0 <= j < |d.seats|
      ensures var kept := Retain(d, slots);
              Fill(d, spent, kept.0, kept.1).1[j] == Owned(Assign(d, spent, slots), j) <= d.seats[j].wip
    {
      AssignCounts(d, spent, slots, j);
    }
  }

  /** Re-assigning well-owned slots in which nobody can take an unowned visit changes no owner. */
  lemma ReassignKeeps(d: Desk, spent: seq<nat>, slots: seq<Slot>, load: seq<nat>)
    requires ValidDesk(d) && Whole(d) && ValidSlots(d, slots) && OwnersFit(d, slots)
    requires |spent| == |load| == |d.seats|
    requires forall j :: 0 <= j < |d.seats| ==> load[j] == Owned(slots, j) <= d.seats[j].wip
    requires Settled(d, spent, load, slots)
    ensures forall i :: 0 <= i < |slots| ==>
              SameButOwner(slots[i], Assign(d, spent, slots)[i])
              && (slots[i].Busy? ==> Assign(d, spent, slots)[i].visit == slots[i].visit)
  {
    var kept := KeptAll(d, slots, load);
    SettledLater(d, spent, spent, load, slots, kept);
    FillsNone(d, spent, kept, load);
    var again := Assign(d, spent, slots);
    forall i | 0 <= i < |slots|
      ensures SameButOwner(slots[i], again[i]) && (slots[i].Busy? ==> again[i].visit == slots[i].visit)
    {
      assert SameButOwner(kept[i], again[i]);
    }
  }

  lemma KeptAll(d: Desk, slots: seq<Slot>, load: seq<nat>) returns (kept: seq<Slot>)
    requires ValidDesk(d) && Whole(d) && ValidSlots(d, slots) && OwnersFit(d, slots)
    requires |load| == |d.seats|
    requires forall j :: 0 <= j < |d.seats| ==> load[j] == Owned(slots, j) <= d.seats[j].wip
    ensures ValidSlots(d, kept) && |kept| == |slots| && Retain(d, slots) == (kept, load)
    ensures forall k :: 0 <= k < |slots| ==> kept[k] == if slots[k].Busy? then Busy(slots[k].visit, None) else slots[k]
  {
    RetainsAll(d, slots, |slots|);
    assert slots[..|slots|] == slots;
    kept := Retain(d, slots).0;
    assert Retain(d, slots).1 == load;
  }

  /** After one part of a segment, assigning again for the next part keeps every owner. */
  lemma AssignStable(d: Desk, e: Desk, spent: seq<nat>, slots: seq<Slot>)
    requires ValidDesk(d) && ValidDesk(e) && Whole(d) && Whole(e) && SameTeam(d, e)
    requires ValidSlots(d, slots) && |spent| == |d.seats|
    ensures var r := Advance(d, spent, slots);
            var again := Assign(e, r.spent, r.slots);
            forall i :: 0 <= i < |slots| ==>
              SameButOwner(r.slots[i], again[i]) && (r.slots[i].Busy? ==> again[i].visit == r.slots[i].visit)
  {
    var r := Advance(d, spent, slots);
    var kept := Retain(d, slots);
    var load := Fill(d, spent, kept.0, kept.1).1;
    OwnersAfterWork(d, spent, slots);
    LoadAfterWork(d, spent, slots);
    FillDenies(d, spent, kept.0, kept.1);
    SettledLater(d, spent, r.spent, load, Assign(d, spent, slots), r.slots);
    ReassignKeeps(d, r.spent, r.slots, load);
    AssignIgnoresLength(d, e, r.spent, r.slots);
  }

  lemma SettledLater(d: Desk, spent: seq<nat>, later: seq<nat>, load: seq<nat>, a: seq<Slot>, b: seq<Slot>)
    requires ValidDesk(d) && |spent| == |later| == |load| == |d.seats| && |a| == |b|
    requires Settled(d, spent, load, a)
    requires forall j :: 0 <= j < |spent| ==> spent[j] <= later[j]
    requires forall i :: 0 <= i < |a| && b[i].Busy? ==>
               a[i].Busy? && a[i].visit.member == b[i].visit.member && a[i].visit.activity == b[i].visit.activity
    ensures Settled(d, later, load, b)
  {
    forall i, k | 0 <= i < |b| && b[i].Busy? && b[i].visit.member.None? && 0 <= k < |d.seats|
      ensures !Candidate(d, later, load, b[i].visit.activity, k)
    {
      assert !Candidate(d, spent, load, a[i].visit.activity, k);
    }
  }

  // ---------- Labor splits ----------

  /** d then e is the stretch w, cut at one interior instant. */
  ghost predicate Parts(d: Desk, e: Desk, w: Desk) {
    && ValidDesk(d) && ValidDesk(e) && ValidDesk(w) && Whole(d) && Whole(e) && Whole(w)
    && SameTeam(d, e) && SameTeam(d, w) && w.len == d.len + e.len
  }

  /** `again` holds the visits that crediting `slots` on d leaves. */
  ghost predicate Carries(d: Desk, start: seq<nat>, slots: seq<Slot>, again: seq<Slot>)
    requires ValidDesk(d) && ValidSlots(d, slots) && |start| == |d.seats| && AllExplained(slots)
  {
    && |again| == |slots|
    && forall k :: 0 <= k < |slots| ==>
         var one := Work(d, start, slots).slots[k];
         SameButOwner(one, again[k]) && (one.Busy? ==> again[k].visit == one.visit)
  }

  lemma {:induction false} ResidualDemand(d: Desk, e: Desk, start: seq<nat>, slots: seq<Slot>, again: seq<Slot>, i: nat, j: nat)
    requires ValidDesk(d) && ValidSlots(d, slots) && |start| == |d.seats| && AllExplained(slots) && j < |d.seats|
    requires SameTeam(d, e) && Carries(d, start, slots, again) && i <= |slots|
    ensures Demand(e, again[..i], j) == Demand(d, slots[..i], j) - Min(Budget(d, start, j), Demand(d, slots[..i], j))
  {
    if i > 0 {
      ResidualDemand(d, e, start, slots, again, i - 1, j);
      assert slots[..i][..i - 1] == slots[..i - 1] && again[..i][..i - 1] == again[..i - 1];
      WorkPrefix(d, start, slots, i - 1);
      assert SameButOwner(Work(d, start, slots).slots[i - 1], again[i - 1]);
      if slots[i - 1].Busy? && slots[i - 1].visit.member == Some(j) {
        GreedyShare(d, start, slots, i - 1, j);
      }
    }
  }

  lemma {:induction false} DemandIgnoresLength(d: Desk, w: Desk, slots: seq<Slot>, j: nat)
    requires d.pausing == w.pausing
    ensures Demand(w, slots, j) == Demand(d, slots, j)
  {
    if slots != [] {
      DemandIgnoresLength(d, w, slots[..|slots| - 1], j);
    }
  }

  /** The budget of two parts in a row is the budget of the whole. */
  lemma BudgetSplits(d: Desk, e: Desk, w: Desk, start: seq<nat>, mid: seq<nat>, demand: nat, ahead: nat, j: nat)
    requires Parts(d, e, w) && |start| == |mid| == |d.seats| && j < |d.seats|
    requires mid[j] == start[j] + Min(Budget(d, start, j), demand) && ahead <= demand
    ensures var b1, b2, b := Budget(d, start, j), Budget(e, mid, j), Budget(w, start, j);
            Min(b1, ahead) + Min(b2, ahead - Min(b1, ahead)) == Min(b, ahead)
  {
  }

  /** The labor reaching the visits before slot i, in two parts and in one. */
  lemma PrefixLaborSplits(d: Desk, e: Desk, w: Desk, spent: seq<nat>, owners: seq<Slot>, again: seq<Slot>, i: nat, j: nat)
    requires Parts(d, e, w) && |spent| == |d.seats| && i <= |owners| && j < |d.seats|
    requires ValidSlots(d, owners) && AllExplained(owners) && Carries(d, spent, owners, again)
    ensures Min(Budget(d, spent, j), Demand(d, owners[..i], j))
            + Min(Budget(e, Work(d, spent, owners).spent, j), Demand(e, again[..i], j))
            == Min(Budget(w, spent, j), Demand(w, owners[..i], j))
  {
    GreedyTotal(d, spent, owners, j);
    DemandIgnoresLength(d, w, owners[..i], j);
    ResidualDemand(d, e, spent, owners, again, i, j);
    DemandGrows(d, owners, i, j);
    BudgetSplits(d, e, w, spent, Work(d, spent, owners).spent, Demand(d, owners, j), Demand(d, owners[..i], j), j);
  }

  lemma CreditsAdd(d: Desk, e: Desk, w: Desk, spent: seq<nat>, owners: seq<Slot>, again: seq<Slot>, i: nat, j: nat)
    requires Parts(d, e, w) && |spent| == |d.seats| && i < |owners| && j < |d.seats|
    requires ValidSlots(d, owners) && AllExplained(owners) && Carries(d, spent, owners, again)
    ensures Credit(d, spent, owners, i, j) + Credit(e, Work(d, spent, owners).spent, again, i, j)
            == Credit(w, spent, owners, i, j)
  {
    PrefixLaborSplits(d, e, w, spent, owners, again, i, j);
    PrefixLaborSplits(d, e, w, spent, owners, again, i + 1, j);
    CreditIsRise(d, spent, owners, i, j);
    CreditIsRise(e, Work(d, spent, owners).spent, again, i, j);
    CreditIsRise(w, spent, owners, i, j);
  }

  lemma CreditIsRise(d: Desk, start: seq<nat>, slots: seq<Slot>, i: nat, j: nat)
    requires ValidDesk(d) && |start| == |d.seats| && i < |slots| && j < |d.seats|
    ensures Credit(d, start, slots, i, j) ==
            Min(Budget(d, start, j), Demand(d, slots[..i + 1], j)) - Min(Budget(d, start, j), Demand(d, slots[..i], j))
  {
    assert slots[..i + 1][..i] == slots[..i];
  }

  /** A visit after a segment: `labor` credited, `paused` added to its pause, any queue. */
  ghost predicate Took(v: Visit, s: Slot, labor: nat, paused: nat) {
    && labor <= v.remaining && s.Busy?
    && s.visit == v.(elapsed := v.elapsed + labor, remaining := v.remaining - labor,
                     credited := v.credited + labor, queue := s.visit.queue, pause := v.pause + paused)
  }

  lemma TookTwice(v: Visit, a: Slot, b: Slot, c: Slot, l1: nat, l2: nat, p1: nat, p2: nat)
    requires Took(v, a, l1, p1) && Took(a.visit, b, l2, p2) && Took(v, c, l1 + l2, p1 + p2)
    ensures SameClocks(b, c)
  {
  }

  function Paused(d: Desk, v: Visit): nat { if v.status in d.pausing then d.len else 0 }

  /** The whole effect of a segment on a slot, queue aside. */
  lemma SlotEffect(d: Desk, start: seq<nat>, slots: seq<Slot>, i: nat)
    requires ValidDesk(d) && ValidSlots(d, slots) && |start| == |d.seats| && AllExplained(slots)
    requires i < |slots|
    ensures var r := Work(d, start, slots).slots[i];
            && (!slots[i].Busy? ==> r == slots[i])
            && (slots[i].Busy? ==>
                  var v := slots[i].visit;
                  Took(v, r, if v.member.None? then 0 else Credit(d, start, slots, i, v.member.value), Paused(d, v)))
  {
    WorkPrefix(d, start, slots, i);
    if slots[i].Busy? && slots[i].visit.member.Some? {
      GreedyShare(d, start, slots, i, slots[i].visit.member.value);
    }
  }

  lemma SplitSlot(d: Desk, e: Desk, w: Desk, spent: seq<nat>, owners: seq<Slot>, again: seq<Slot>, i: nat)
    requires Parts(d, e, w) && |spent| == |d.seats| && i < |owners|
    requires ValidSlots(d, owners) && AllExplained(owners) && ValidSlots(d, again) && AllExplained(again)
    requires Carries(d, spent, owners, again)
    ensures SameClocks(Work(e, Work(d, spent, owners).spent, again).slots[i], Work(w, spent, owners).slots[i])
  {
    var first := Work(d, spent, owners);
    var a, b, c := first.slots[i], Work(e, first.spent, again).slots[i], Work(w, spent, owners).slots[i];
    assert SameButOwner(a, again[i]) && (a.Busy? ==> again[i].visit == a.visit);
    SlotEffect(d, spent, owners, i);
    SlotEffect(e, first.spent, again, i);
    SlotEffect(w, spent, owners, i);
    if owners[i].Busy? {
      var v := owners[i].visit;
      if v.member.Some? {
        var j := v.member.value;
        CreditsAdd(d, e, w, spent, owners, again, i, j);
        TookTwice(v, a, b, c, Credit(d, spent, owners, i, j), Credit(e, first.spent, again, i, j), Paused(d, v), Paused(e, v));
      } else {
        TookTwice(v, a, b, c, 0, 0, Paused(d, v), Paused(e, v));
      }
    }
  }

  lemma SplitSeat(d: Desk, e: Desk, w: Desk, spent: seq<nat>, owners: seq<Slot>, again: seq<Slot>, j: nat)
    requires Parts(d, e, w) && |spent| == |d.seats| && j < |d.seats|
    requires ValidSlots(d, owners) && AllExplained(owners) && ValidSlots(d, again) && AllExplained(again)
    requires Carries(d, spent, owners, again)
    ensures Work(e, Work(d, spent, owners).spent, again).spent[j] == Work(w, spent, owners).spent[j]
  {
    var mid := Work(d, spent, owners).spent;
    PrefixLaborSplits(d, e, w, spent, owners, again, |owners|, j);
    assert owners[..|owners|] == owners && again[..|again|] == again;
    GreedyTotal(d, spent, owners, j);
    GreedyTotal(e, mid, again, j);
    GreedyTotal(w, spent, owners, j);
  }

  /** Main result: one step over the whole stretch equals two steps cut at any interior instant. */
  lemma SplitIndependent(d: Desk, e: Desk, w: Desk, spent: seq<nat>, slots: seq<Slot>)
    requires Parts(d, e, w) && ValidSlots(d, slots) && |spent| == |d.seats|
    ensures var first := Advance(d, spent, slots);
            var second := Advance(e, first.spent, first.slots);
            var whole := Advance(w, spent, slots);
            && second.spent == whole.spent
            && forall i :: 0 <= i < |slots| ==> SameClocks(second.slots[i], whole.slots[i])
  {
    var owners := Assign(d, spent, slots);
    AssignExplains(d, spent, slots);
    AssignIgnoresLength(d, w, spent, slots);
    var first := Advance(d, spent, slots);
    var again := Assign(e, first.spent, first.slots);
    AssignExplains(e, first.spent, first.slots);
    AssignStable(d, e, spent, slots);
    forall j | 0 <= j < |d.seats|
      ensures Work(e, first.spent, again).spent[j] == Work(w, spent, owners).spent[j]
    {
      SplitSeat(d, e, w, spent, owners, again, j);
    }
    forall i | 0 <= i < |slots|
      ensures SameClocks(Work(e, first.spent, again).slots[i], Work(w, spent, owners).slots[i])
    {
      SplitSlot(d, e, w, spent, owners, again, i);
    }
  }
}
