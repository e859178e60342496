/** Who owns each visit in a segment: the owners who keep theirs, and for every other visit, in rank order,
    the most proficient member with room, or the reason why there is none. */
module Ownership {
  import opened BusinessCalendar
  import opened Allocation
  import opened AllocationLaws

  // ---------- Keeping a visit ----------

  /** The visit is member j's, who knows its activity and is available in the segment. */
  ghost predicate Eligible(d: Desk, s: Slot, j: nat) {
    && j < |d.seats| && s.Busy? && s.visit.member == Some(j)
    && s.visit.activity in d.seats[j].skill && d.seats[j].available > 0
  }

  ghost function Eligibles(d: Desk, slots: seq<Slot>, j: nat): nat {
    if slots == [] then 0
    else Eligibles(d, slots[..|slots| - 1], j) + if Eligible(d, slots[|slots| - 1], j) then 1 else 0
  }

  /** Member j keeps visit i: it is eligible, and fewer than the limit rank above it. */
  ghost predicate Keeps(d: Desk, slots: seq<Slot>, i: nat, j: nat)
    requires i < |slots|
  {
    Eligible(d, slots[i], j) && Eligibles(d, slots[..i], j) < d.seats[j].wip
  }

  /** How many visits member j keeps. */
  ghost function Kept(d: Desk, slots: seq<Slot>, j: nat): nat
    requires j < |d.seats|
  {
    if Eligibles(d, slots, j) <= d.seats[j].wip then Eligibles(d, slots, j) else d.seats[j].wip
  }

  lemma {:induction false} RetainLoad(d: Desk, slots: seq<Slot>, j: nat)
    requires ValidDesk(d) && ValidSlots(d, slots) && j < |d.seats|
    ensures Retain(d, slots).1[j] == Kept(d, slots, j)
  {
    if slots != [] {
      RetainLoad(d, slots[..|slots| - 1], j);
    }
  }

  lemma {:induction false} RetainPrefix(d: Desk, slots: seq<Slot>, i: nat)
    requires ValidDesk(d) && ValidSlots(d, slots) && i < |slots|
    ensures Retain(d, slots).0[i] == RetainOne(d, slots[i], Retain(d, slots[..i]).1).0
    decreases |slots|
  {
    var n := |slots| - 1;
    if i < n {
      RetainPrefix(d, slots[..n], i);
      assert slots[..n][..i] == slots[..i];
    }
  }

  lemma RetainAt(d: Desk, slots: seq<Slot>, i: nat)
    requires ValidDesk(d) && ValidSlots(d, slots) && i < |slots| && slots[i].Busy?
    ensures var s := Retain(d, slots).0[i];
            && s.Busy? && s.denied.None? && s.visit.activity == slots[i].visit.activity
            && forall j: nat :: s.visit.member == Some(j) <==> Keeps(d, slots, i, j)
  {
    RetainPrefix(d, slots, i);
    if slots[i].visit.member.Some? {
      RetainLoad(d, slots[..i], slots[i].visit.member.value);
    }
  }

  // ---------- Taking a visit ----------

  /** How many of the first i visits are member j's after assignment without being kept. */
  ghost function Given(d: Desk, slots: seq<Slot>, after: seq<Slot>, i: nat, j: nat): nat
    requires i <= |slots| == |after|
  {
    if i == 0 then 0
    else
      Given(d, slots, after, i - 1, j)
      + if after[i - 1].Busy? && after[i - 1].visit.member == Some(j) && !Keeps(d, slots, i - 1, j) then 1 else 0
  }

  /** Member j knows the activity, is available, has capacity left for the day, and with `load` visits is
      below the limit. */
  ghost predicate HasRoom(d: Desk, spent: seq<nat>, activity: Key, load: nat, j: nat)
    requires |spent| == |d.seats|
  {
    && j < |d.seats| && activity in d.seats[j].skill && d.seats[j].fraction != 0.0
    && d.seats[j].available > 0 && spent[j] < d.seats[j].ceiling && load < d.seats[j].wip
  }

  /** Why nobody has room. */
  ghost predicate Denied(d: Desk, spent: seq<nat>, activity: Key, reason: Reason)
    requires |spent| == |d.seats|
  {
    if forall j :: 0 <= j < |d.seats| ==> activity !in d.seats[j].skill then reason == NoCapableMember
    else if forall j :: 0 <= j < |d.seats| && activity in d.seats[j].skill ==> d.seats[j].fraction == 0.0 then reason == Unavailable
    else if forall j :: 0 <= j < |d.seats| && activity in d.seats[j].skill && d.seats[j].fraction != 0.0 ==>
                          d.seats[j].available == 0 || spent[j] >= d.seats[j].ceiling then reason == DailyCapacity
    else reason == WipLimit
  }

  /** What member j has on when the turn comes to visit i: what they keep, and what they were given before. */
  ghost function LoadAt(d: Desk, slots: seq<Slot>, after: seq<Slot>, i: nat, j: nat): nat
    requires i <= |slots| == |after| && j < |d.seats|
  {
    Kept(d, slots, j) + Given(d, slots, after, i, j)
  }

  /** Visit i, kept by nobody, becomes j's: j has room, and nobody else with room is more proficient, or as
      proficient and listed before j. */
  ghost predicate Takes(d: Desk, spent: seq<nat>, slots: seq<Slot>, after: seq<Slot>, i: nat, j: nat)
    requires i < |slots| == |after| && |spent| == |d.seats| && slots[i].Busy?
  {
    var activity := slots[i].visit.activity;
    && j < |d.seats| && HasRoom(d, spent, activity, LoadAt(d, slots, after, i, j), j)
    && forall k: nat :: k < |d.seats| && k != j && HasRoom(d, spent, activity, LoadAt(d, slots, after, i, k), k) ==>
         d.seats[k].skill[activity] < d.seats[j].skill[activity]
         || (d.seats[k].skill[activity] == d.seats[j].skill[activity] && j < k)
  }

  /** The owner and the denial of visit i after assignment. */
  ghost predicate Assigned(d: Desk, spent: seq<nat>, slots: seq<Slot>, after: seq<Slot>, i: nat)
    requires i < |slots| == |after| && |spent| == |d.seats| && slots[i].Busy?
  {
    && after[i].Busy? && after[i].visit == slots[i].visit.(member := after[i].visit.member)
    && if exists j: nat :: Keeps(d, slots, i, j) then after[i].denied.None? && after[i].visit.member == slots[i].visit.member
       else if after[i].visit.member.Some? then after[i].denied.None? && Takes(d, spent, slots, after, i, after[i].visit.member.value)
       else && (forall j: nat :: j < |d.seats| ==> !HasRoom(d, spent, slots[i].visit.activity, LoadAt(d, slots, after, i, j), j))
            && after[i].denied.Some? && Denied(d, spent, slots[i].visit.activity, after[i].denied.value)
  }

  lemma {:induction false} FillPrefix(d: Desk, spent: seq<nat>, slots: seq<Slot>, load: seq<nat>, i: nat)
    requires ValidDesk(d) && ValidSlots(d, slots) && |spent| == |load| == |d.seats| && i < |slots|
    ensures Fill(d, spent, slots, load).0[i] == FillOne(d, spent, slots[i], Fill(d, spent, slots[..i], load).1).0
    ensures Fill(d, spent, slots[..i + 1], load).1 == FillOne(d, spent, slots[i], Fill(d, spent, slots[..i], load).1).1
    decreases |slots|
  {
    var n := |slots| - 1;
    if i < n {
      FillPrefix(d, spent, slots[..n], load, i);
      assert slots[..n][..i] == slots[..i] && slots[..n][..i + 1] == slots[..i + 1];
    } else {
      assert slots[..i + 1] == slots;
    }
  }

  /** The load the fill sees at visit i. */
  lemma {:induction false} FillLoad(d: Desk, spent: seq<nat>, slots: seq<Slot>, i: nat, j: nat)
    requires ValidDesk(d) && ValidSlots(d, slots) && |spent| == |d.seats| && i <= |slots| && j < |d.seats|
    ensures var kept := Retain(d, slots);
            Fill(d, spent, kept.0[..i], kept.1).1[j] == LoadAt(d, slots, Assign(d, spent, slots), i, j)
    decreases i
  {
    var kept := Retain(d, slots);
    if i == 0 {
      RetainLoad(d, slots, j);
    } else {
      FillLoad(d, spent, slots, i - 1, j);
      FillPrefix(d, spent, kept.0, kept.1, i - 1);
      RetainShape(d, slots);
      if slots[i - 1].Busy? {
        RetainAt(d, slots, i - 1);
      }
    }
  }

  lemma ReasonDenies(d: Desk, spent: seq<nat>, activity: Key)
    requires ValidDesk(d) && |spent| == |d.seats|
    ensures Denied(d, spent, activity, DenialReason(d, spent, activity))
  {
    assert forall j :: 0 <= j < |d.seats| ==>
             (RemainingCapacity(d, spent, j) == 0 <==> d.seats[j].available == 0 || spent[j] >= d.seats[j].ceiling);
  }

  lemma RoomIs(d: Desk, spent: seq<nat>, load: seq<nat>, activity: Key, j: nat)
    requires ValidDesk(d) && |spent| == |load| == |d.seats| && j < |d.seats|
    ensures HasRoom(d, spent, activity, load[j], j) <==> Candidate(d, spent, load, activity, j)
  {
  }

  /** Assignment is exactly this, visit by visit. */
  lemma AssignExact(d: Desk, spent: seq<nat>, slots: seq<Slot>, i: nat)
    requires ValidDesk(d) && ValidSlots(d, slots) && |spent| == |d.seats| && i < |slots| && slots[i].Busy?
    ensures Assigned(d, spent, slots, Assign(d, spent, slots), i)
  {
    var kept, after := Retain(d, slots), Assign(d, spent, slots);
    AssignShape(d, spent, slots);
    RetainAt(d, slots, i);
    RetainShape(d, slots);
    FillPrefix(d, spent, kept.0, kept.1, i);
    var load := Fill(d, spent, kept.0[..i], kept.1).1;
    forall j: nat | j < |d.seats| ensures load[j] == LoadAt(d, slots, after, i, j) {
      FillLoad(d, spent, slots, i, j);
    }
    var activity := slots[i].visit.activity;
    forall j: nat | j < |d.seats|
      ensures HasRoom(d, spent, activity, LoadAt(d, slots, after, i, j), j) <==> Candidate(d, spent, load, activity, j)
    {
      RoomIs(d, spent, load, activity, j);
    }
    ReasonDenies(d, spent, activity);
  }

  // ---------- Why a visit queues ----------

  /** What limits member j at visit i: the day's ceiling where it leaves less than the segment does, other
      visits' labor where there was some, and otherwise their availability. */
  ghost function Limit(d: Desk, start: seq<nat>, slots: seq<Slot>, i: nat, j: nat): Reason
    requires ValidDesk(d) && |start| == |d.seats| && i <= |slots| && j < |d.seats|
  {
    if d.seats[j].available > 0 && d.seats[j].ceiling - start[j] < d.seats[j].available then DailyCapacity
    else if Budget(d, start, j) > 0 && Demand(d, slots[..i], j) > 0 then Contention
    else Unavailable
  }

  /** A queued visit without an owner carries its denial; one with an owner carries what limits them. */
  lemma CauseExact(d: Desk, spent: seq<nat>, slots: seq<Slot>, i: nat)
    requires ValidDesk(d) && ValidSlots(d, slots) && |spent| == |d.seats| && i < |slots| && slots[i].Busy?
    ensures var owned, r := Assign(d, spent, slots), Advance(d, spent, slots);
            && owned[i].Busy? && r.slots[i].Busy? && r.slots[i].visit.member == owned[i].visit.member
            && (r.causes[i].Some? ==>
                  && slots[i].visit.queue + r.causes[i].value.delta == r.slots[i].visit.queue
                  && (if owned[i].visit.member.Some?
                      then r.causes[i].value.reason == Limit(d, spent, owned, i, owned[i].visit.member.value)
                      else Some(r.causes[i].value.reason) == owned[i].denied))
  {
    var owned := Assign(d, spent, slots);
    AssignShape(d, spent, slots);
    AssignExplains(d, spent, slots);
    WorkPrefix(d, spent, owned, i);
    if owned[i].visit.member.Some? {
      GreedyTotal(d, spent, owned[..i], owned[i].visit.member.value);
    }
  }

  /** A visit queues for exactly the part of the segment in which nobody works on it, unless its status stops
      the clock or its work is done by the end. */
  lemma QueueExact(d: Desk, spent: seq<nat>, slots: seq<Slot>, i: nat)
    requires ValidDesk(d) && ValidSlots(d, slots) && |spent| == |d.seats| && i < |slots| && slots[i].Busy?
    ensures var r := Advance(d, spent, slots).slots[i];
            && r.Busy?
            && r.visit.queue == slots[i].visit.queue
               + if slots[i].visit.status in d.pausing || r.visit.remaining == 0 then 0
                 else d.len - (r.visit.credited - slots[i].visit.credited)
  {
    AssignShape(d, spent, slots);
    AssignExplains(d, spent, slots);
    WorkPrefix(d, spent, Assign(d, spent, slots), i);
  }
}
