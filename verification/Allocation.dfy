/** Labor allocation inside one business segment: sticky ownership under WIP limits, then credit in
    rank order under segment availability and daily capacity.

    Work items are held in simulator-rank order, which never changes, so a slot's index is its
    rank; slot i carries the open visit of item i. */
module Allocation {
  import opened BusinessCalendar

  /** Statuses, activities and issue types are named by number. */
  type Key = nat

  datatype Visit = Visit(
    item: nat, ordinal: nat, open: bool, status: Key, activity: Key, member: Option<nat>,
    entered: int, closed: Option<int>,
    required: nat, elapsed: nat, remaining: nat, queue: nat, pause: nat, credited: nat,
    dwell: nat)

  /** A member as one segment sees them: the availability fraction and the labor it yields over the
      segment, the day's labor ceiling, the WIP limit and the proficiency in each known activity. */
  datatype Seat = Seat(fraction: real, available: nat, ceiling: nat, wip: nat, skill: map<Key, real>)

  /** One segment: its length, the members and the statuses that stop the service clock. */
  datatype Desk = Desk(len: nat, seats: seq<Seat>, pausing: set<Key>)

  datatype Reason = NoCapableMember | Unavailable | DailyCapacity | WipLimit | Contention

  datatype Cause = Cause(reason: Reason, delta: nat)

  /** Idle: the item has no open visit. Held: an external dependency blocks the visit for the whole
      tick. Busy: the visit takes part; `denied` says why it was left without an owner. */
  datatype Slot = Idle | Held(visit: Visit) | Busy(visit: Visit, denied: Option<Reason>)

  predicate ValidDesk(d: Desk) {
    forall j :: 0 <= j < |d.seats| ==>
      && d.seats[j].available <= d.len
      && (d.seats[j].fraction == 0.0 ==> d.seats[j].available == 0)
  }

  predicate ValidSlot(d: Desk, s: Slot) {
    s.Busy? && s.visit.member.Some? ==> s.visit.member.value < |d.seats|
  }

  predicate ValidSlots(d: Desk, slots: seq<Slot>) {
    forall i :: 0 <= i < |slots| ==> ValidSlot(d, slots[i])
  }

  function Min(a: int, b: int): int { if a <= b then a else b }

  function Max(a: int, b: int): int { if a >= b then a else b }

  // ---------- Ownership ----------

  predicate CanRetain(d: Desk, v: Visit, load: seq<nat>)
    requires ValidDesk(d) && |load| == |d.seats|
    requires v.member.Some? && v.member.value < |d.seats|
  {
    var o := v.member.value;
    v.activity in d.seats[o].skill && d.seats[o].available > 0 && load[o] < d.seats[o].wip
  }

  function RetainOne(d: Desk, s: Slot, load: seq<nat>): (r: (Slot, seq<nat>))
    requires ValidDesk(d) && |load| == |d.seats| && ValidSlot(d, s)
    ensures |r.1| == |d.seats| && ValidSlot(d, r.0)
  {
    if !s.Busy? then (s, load)
    else if s.visit.member.Some? && CanRetain(d, s.visit, load) then
      var o := s.visit.member.value;
      (Busy(s.visit, None), load[o := load[o] + 1])
    else (Busy(s.visit.(member := None), None), load)
  }

  function NoLoad(d: Desk): (r: seq<nat>)
    ensures |r| == |d.seats| && forall j :: 0 <= j < |r| ==> r[j] == 0
  {
    seq(|d.seats|, j => 0)
  }

  /** First pass: owners who are capable, available and below their WIP limit keep their visits. */
  function Retain(d: Desk, slots: seq<Slot>): (r: (seq<Slot>, seq<nat>))
    requires ValidDesk(d) && ValidSlots(d, slots)
    ensures |r.0| == |slots| && |r.1| == |d.seats| && ValidSlots(d, r.0)
  {
    if slots == [] then ([], NoLoad(d))
    else
      var n := |slots| - 1;
      var before := Retain(d, slots[..n]);
      var last := RetainOne(d, slots[n], before.1);
      (before.0 + [last.0], last.1)
  }

  function RemainingCapacity(d: Desk, spent: seq<nat>, j: nat): (r: nat)
    requires ValidDesk(d) && |spent| == |d.seats| && j < |d.seats|
  {
    Max(0, Min(d.seats[j].available, d.seats[j].ceiling - spent[j]))
  }

  predicate Candidate(d: Desk, spent: seq<nat>, load: seq<nat>, activity: Key, j: nat)
    requires ValidDesk(d) && |spent| == |load| == |d.seats| && j < |d.seats|
  {
    && activity in d.seats[j].skill
    && d.seats[j].fraction != 0.0
    && RemainingCapacity(d, spent, j) != 0
    && load[j] < d.seats[j].wip
  }

  /** The most proficient candidate among the first n members, the earliest one on a tie. */
  function Best(d: Desk, spent: seq<nat>, load: seq<nat>, activity: Key, n: nat): (r: Option<nat>)
    requires ValidDesk(d) && |spent| == |load| == |d.seats| && n <= |d.seats|
    ensures r.Some? ==> r.value < n && Candidate(d, spent, load, activity, r.value)
    ensures r.Some? ==> forall k :: 0 <= k < n && Candidate(d, spent, load, activity, k) ==>
              d.seats[k].skill[activity] < d.seats[r.value].skill[activity]
              || (d.seats[k].skill[activity] == d.seats[r.value].skill[activity] && r.value <= k)
    ensures r.None? ==> forall k :: 0 <= k < n ==> !Candidate(d, spent, load, activity, k)
  {
    if n == 0 then None
    else
      var best := Best(d, spent, load, activity, n - 1);
      if Candidate(d, spent, load, activity, n - 1)
         && (best.None? || d.seats[best.value].skill[activity] < d.seats[n - 1].skill[activity])
      then Some(n - 1) else best
  }

  function DenialReason(d: Desk, spent: seq<nat>, activity: Key): Reason
    requires ValidDesk(d) && |spent| == |d.seats|
  {
    if !exists j :: 0 <= j < |d.seats| && activity in d.seats[j].skill then NoCapableMember
    else if !exists j :: 0 <= j < |d.seats| && activity in d.seats[j].skill && d.seats[j].fraction != 0.0
      then Unavailable
    else if !exists j :: 0 <= j < |d.seats| && activity in d.seats[j].skill && d.seats[j].fraction != 0.0
                && RemainingCapacity(d, spent, j) != 0
      then DailyCapacity
    else WipLimit
  }

  function FillOne(d: Desk, spent: seq<nat>, s: Slot, load: seq<nat>): (r: (Slot, seq<nat>))
    requires ValidDesk(d) && |spent| == |load| == |d.seats| && ValidSlot(d, s)
    ensures |r.1| == |d.seats| && ValidSlot(d, r.0)
  {
    if !s.Busy? || s.visit.member.Some? then (s, load)
    else
      var best := Best(d, spent, load, s.visit.activity, |d.seats|);
      if best.Some? then
        (Busy(s.visit.(member := best), None), load[best.value := load[best.value] + 1])
      else (Busy(s.visit, Some(DenialReason(d, spent, s.visit.activity))), load)
  }

  /** Second pass: unowned visits, highest rank first, take the best member with room. */
  function Fill(d: Desk, spent: seq<nat>, slots: seq<Slot>, load: seq<nat>): (r: (seq<Slot>, seq<nat>))
    requires ValidDesk(d) && ValidSlots(d, slots) && |spent| == |load| == |d.seats|
    ensures |r.0| == |slots| && |r.1| == |d.seats| && ValidSlots(d, r.0)
  {
    if slots == [] then ([], load)
    else
      var n := |slots| - 1;
      var before := Fill(d, spent, slots[..n], load);
      var last := FillOne(d, spent, slots[n], before.1);
      (before.0 + [last.0], last.1)
  }

  function Assign(d: Desk, spent: seq<nat>, slots: seq<Slot>): (r: seq<Slot>)
    requires ValidDesk(d) && ValidSlots(d, slots) && |spent| == |d.seats|
    ensures |r| == |slots| && ValidSlots(d, r)
  {
    var kept := Retain(d, slots);
    Fill(d, spent, kept.0, kept.1).0
  }

  /** The two owner passes, as the loops run them. */
  method AssignOwners(d: Desk, spent: seq<nat>, slots: seq<Slot>) returns (r: seq<Slot>)
    requires ValidDesk(d) && ValidSlots(d, slots) && |spent| == |d.seats|
    ensures r == Assign(d, spent, slots)
  {
    var load := NoLoad(d);
    var kept: seq<Slot> := [];
    for i := 0 to |slots|
      invariant (kept, load) == Retain(d, slots[..i])
    {
      assert slots[..i + 1][..i] == slots[..i];
      var one := RetainOne(d, slots[i], load);
      kept, load := kept + [one.0], one.1;
    }
    assert slots[..|slots|] == slots;
    ghost var entry := load;
    r := [];
    for i := 0 to |kept|
      invariant ValidSlots(d, kept) && |entry| == |d.seats|
      invariant (r, load) == Fill(d, spent, kept[..i], entry)
    {
      assert kept[..i + 1][..i] == kept[..i];
      var one := FillOne(d, spent, kept[i], load);
      r, load := r + [one.0], one.1;
    }
    assert kept[..|kept|] == kept;
  }

  // ---------- Credit ----------

  /** The owner the segment's labor comes from: none for a paused status or finished work. */
  predicate Draws(d: Desk, s: Slot, j: nat) {
    s.Busy? && s.visit.status !in d.pausing && s.visit.member == Some(j) && s.visit.remaining > 0
  }

  function Capacity(d: Desk, start: seq<nat>, now: seq<nat>, j: nat): (r: (nat, Reason))
    requires ValidDesk(d) && |start| == |now| == |d.seats| && j < |d.seats| && start[j] <= now[j]
    ensures r.0 <= d.len && now[j] + r.0 <= Max(now[j], d.seats[j].ceiling)
  {
    var used := now[j] - start[j];
    var segment := Max(0, d.seats[j].available - used);
    var daily := Max(0, d.seats[j].ceiling - now[j]);
    if segment <= daily then (segment, if used != 0 then Contention else Unavailable)
    else (daily, DailyCapacity)
  }

  /** A queued delta always carries its limiting constraint. */
  function QueueCause(reason: Option<Reason>, delta: nat): (r: Option<Cause>)
    requires delta > 0 ==> reason.Some?
    ensures r.Some? <==> delta > 0
    ensures r.Some? ==> r.value.delta == delta
  {
    if delta == 0 then None else Some(Cause(reason.value, delta))
  }

  datatype Progress = Progress(slots: seq<Slot>, spent: seq<nat>, causes: seq<Option<Cause>>)

  predicate Explained(s: Slot) {
    s.Busy? && s.visit.member.None? ==> s.denied.Some?
  }

  function WorkOne(d: Desk, start: seq<nat>, s: Slot, now: seq<nat>): (r: (Slot, seq<nat>, Option<Cause>))
    requires ValidDesk(d) && |start| == |now| == |d.seats| && ValidSlot(d, s) && Explained(s)
    requires forall j :: 0 <= j < |now| ==> start[j] <= now[j]
    ensures |r.1| == |d.seats| && ValidSlot(d, r.0)
    ensures (r.0.Busy? <==> s.Busy?) && (s.Busy? ==> r.0.visit.member == s.visit.member)
    ensures forall j :: 0 <= j < |now| ==> now[j] <= r.1[j]
  {
    if !s.Busy? then (s, now, None)
    else
      var v := s.visit;
      if v.status in d.pausing then (Busy(v.(pause := v.pause + d.len), s.denied), now, None)
      else if v.member.None? || v.remaining == 0 then
        var queue := if v.remaining == 0 then 0 else d.len;
        (Busy(v.(queue := v.queue + queue), s.denied), now, QueueCause(s.denied, queue))
      else
        var o := v.member.value;
        var capacity := Capacity(d, start, now, o);
        var credit := Min(capacity.0, v.remaining);
        var left := v.remaining - credit;
        var queue := if left == 0 then 0 else d.len - credit;
        (Busy(v.(elapsed := v.elapsed + credit, remaining := left, queue := v.queue + queue,
                 credited := v.credited + credit), s.denied),
         now[o := now[o] + credit],
         QueueCause(Some(capacity.1), queue))
  }

  ghost predicate AllExplained(slots: seq<Slot>) {
    forall i :: 0 <= i < |slots| ==> Explained(slots[i])
  }

  /** Credit in rank order; `start` is what each member had already spent that day. */
  function Work(d: Desk, start: seq<nat>, slots: seq<Slot>): (r: Progress)
    requires ValidDesk(d) && ValidSlots(d, slots) && |start| == |d.seats| && AllExplained(slots)
    ensures |r.slots| == |r.causes| == |slots| && |r.spent| == |d.seats| && ValidSlots(d, r.slots)
    ensures forall i :: 0 <= i < |slots| ==> (r.slots[i].Busy? <==> slots[i].Busy?)
    ensures forall j :: 0 <= j < |start| ==> start[j] <= r.spent[j]
  {
    if slots == [] then Progress([], start, [])
    else
      var n := |slots| - 1;
      var before := Work(d, start, slots[..n]);
      var last := WorkOne(d, start, slots[n], before.spent);
      Progress(before.slots + [last.0], last.1, before.causes + [last.2])
  }

  lemma {:induction false} FillExplains(d: Desk, spent: seq<nat>, slots: seq<Slot>, load: seq<nat>)
    requires ValidDesk(d) && ValidSlots(d, slots) && |spent| == |load| == |d.seats|
    ensures AllExplained(Fill(d, spent, slots, load).0)
  {
    if slots != [] {
      FillExplains(d, spent, slots[..|slots| - 1], load);
    }
  }

  lemma AssignExplains(d: Desk, spent: seq<nat>, slots: seq<Slot>)
    requires ValidDesk(d) && ValidSlots(d, slots) && |spent| == |d.seats|
    ensures AllExplained(Assign(d, spent, slots))
  {
    var kept := Retain(d, slots);
    FillExplains(d, spent, kept.0, kept.1);
  }

  function Advance(d: Desk, spent: seq<nat>, slots: seq<Slot>): (r: Progress)
    requires ValidDesk(d) && ValidSlots(d, slots) && |spent| == |d.seats|
    ensures |r.slots| == |r.causes| == |slots| && |r.spent| == |d.seats| && ValidSlots(d, r.slots)
    ensures forall j :: 0 <= j < |spent| ==> spent[j] <= r.spent[j]
  {
    AssignExplains(d, spent, slots);
    Work(d, spent, Assign(d, spent, slots))
  }

  /** One segment: assign owners, then credit each visit against its owner's running total. */
  method AdvanceSegment(d: Desk, spent: seq<nat>, slots: seq<Slot>) returns (r: Progress)
    requires ValidDesk(d) && ValidSlots(d, slots) && |spent| == |d.seats|
    ensures r == Advance(d, spent, slots)
  {
    var owned := AssignOwners(d, spent, slots);
    AssignExplains(d, spent, slots);
    var advanced: seq<Slot>, now, causes: seq<Option<Cause>> := [], spent, [];
    for i := 0 to |owned|
      invariant Progress(advanced, now, causes) == Work(d, spent, owned[..i])
    {
      assert owned[..i + 1][..i] == owned[..i];
      var one := WorkOne(d, spent, owned[i], now);
      advanced, now, causes := advanced + [one.0], one.1, causes + [one.2];
    }
    assert owned[..|owned|] == owned;
    r := Progress(advanced, now, causes);
  }
}
