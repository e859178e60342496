/** The completion boundary of one segment: probing the whole segment predicts, for every visit, the
    offset at which its touch and dwell are both done; the earliest prediction cuts the segment. */
module Completion {
  import opened BusinessCalendar
  import opened Allocation
  import opened AllocationLaws
  import opened Granularity

  // ---------- Prediction, as the scan computes it ----------

  /** Labor time at a fraction of one's presence, rounded up to a whole microsecond. */
  function Stretch(labor: nat, fraction: real): (r: nat)
    requires 0.0 < fraction <= 1.0
    ensures fraction == 1.0 ==> r == labor
  {
    NonNegativeQuotient(labor as real, fraction);
    var exact := labor as real / fraction;
    if exact == exact.Floor as real then exact.Floor else exact.Floor + 1
  }

  lemma NonNegativeQuotient(a: real, f: real)
    requires a >= 0.0 && f > 0.0
    ensures a / f >= 0.0
  {
  }

  /** An owner whose visit finished in the probe was present. */
  predicate Present(d: Desk, v: Visit, w: Visit) {
    w.remaining == 0 && v.remaining > 0 && w.member.Some? ==>
      w.member.value < |d.seats| && 0.0 < d.seats[w.member.value].fraction <= 1.0
  }

  function TouchOffset(d: Desk, v: Visit, w: Visit, used: seq<nat>): Option<nat>
    requires |used| == |d.seats| && Present(d, v, w)
  {
    if w.remaining > 0 then None
    else if v.remaining == 0 then Some(0)
    else if w.member.None? then None
    else
      var o := w.member.value;
      Some(Stretch(used[o] + v.remaining, d.seats[o].fraction))
  }

  /** How long after the segment start the dwell is served, from the business time since entry. */
  function DwellOffset(v: Visit, clock: nat): nat {
    var service := Max(0, clock - v.pause);
    Max(0, v.dwell - service)
  }

  /** The running scan: labor already taken from each member, and the earliest completion so far. */
  datatype Scan = Scan(used: seq<nat>, first: Option<nat>)

  predicate Scannable(d: Desk, s: Slot, t: Slot) {
    && (s.Idle? <==> t.Idle?)
    && (!s.Idle? ==>
          && s.visit.credited <= t.visit.credited
          && Present(d, s.visit, t.visit)
          && (t.visit.member.Some? ==> t.visit.member.value < |d.seats|))
  }

  function Offset(d: Desk, s: Slot, t: Slot, clock: nat, used: seq<nat>): Option<nat>
    requires |used| == |d.seats| && Scannable(d, s, t)
  {
    if s.Idle? then None
    else CompletionOffset(d.len, TouchOffset(d, s.visit, t.visit, used), DwellOffset(s.visit, clock))
  }

  function CompletionOffset(len: nat, touch: Option<nat>, dwell: nat): Option<nat> {
    if touch.Some? && Max(touch.value, dwell) <= len then Some(Max(touch.value, dwell)) else None
  }

  function ScanOne(d: Desk, s: Slot, t: Slot, clock: nat, acc: Scan): (r: Scan)
    requires |acc.used| == |d.seats| && Scannable(d, s, t)
    ensures |r.used| == |d.seats|
  {
    if s.Idle? then acc
    else
      var offset := Offset(d, s, t, clock, acc.used);
      var used := if t.visit.member.None? then acc.used
                  else acc.used[t.visit.member.value :=
                                  acc.used[t.visit.member.value] + (t.visit.credited - s.visit.credited)];
      Scan(used,
           if offset.None? then acc.first
           else if acc.first.Some? && acc.first.value <= offset.value then acc.first
           else offset)
  }

  predicate AllScannable(d: Desk, before: seq<Slot>, after: seq<Slot>) {
    |before| == |after| && forall i :: 0 <= i < |before| ==> Scannable(d, before[i], after[i])
  }

  /** The scan over the first i slots, in rank order. */
  function ScanTo(d: Desk, before: seq<Slot>, after: seq<Slot>, clocks: seq<nat>, i: nat): (r: Scan)
    requires AllScannable(d, before, after) && |clocks| == |before| && i <= |before|
    ensures |r.used| == |d.seats|
  {
    if i == 0 then Scan(NoLoad(d), None)
    else ScanOne(d, before[i - 1], after[i - 1], clocks[i - 1], ScanTo(d, before, after, clocks, i - 1))
  }

  function Boundary(d: Desk, before: seq<Slot>, after: seq<Slot>, clocks: seq<nat>): Option<nat>
    requires AllScannable(d, before, after) && |clocks| == |before|
  {
    ScanTo(d, before, after, clocks, |before|).first
  }

  // ---------- The boundary is the least predicted offset ----------

  function OffsetAt(d: Desk, before: seq<Slot>, after: seq<Slot>, clocks: seq<nat>, i: nat): Option<nat>
    requires AllScannable(d, before, after) && |clocks| == |before| && i < |before|
  {
    Offset(d, before[i], after[i], clocks[i], ScanTo(d, before, after, clocks, i).used)
  }

  /** first is the least offset found among the first n slots. */
  ghost predicate LeastFound(d: Desk, before: seq<Slot>, after: seq<Slot>, clocks: seq<nat>, n: nat, first: Option<nat>)
    requires AllScannable(d, before, after) && |clocks| == |before| && n <= |before|
  {
    && (first.Some? ==> first.value <= d.len
                        && exists i :: 0 <= i < n && OffsetAt(d, before, after, clocks, i) == first)
    && (forall i :: 0 <= i < n && OffsetAt(d, before, after, clocks, i).Some? ==>
          first.Some? && first.value <= OffsetAt(d, before, after, clocks, i).value)
  }

  lemma LeastGrows(d: Desk, before: seq<Slot>, after: seq<Slot>, clocks: seq<nat>, n: nat, prev: Option<nat>, here: Option<nat>)
    requires AllScannable(d, before, after) && |clocks| == |before| && n < |before|
    requires LeastFound(d, before, after, clocks, n, prev)
    requires var offset := OffsetAt(d, before, after, clocks, n);
             here == if offset.None? then prev else if prev.Some? && prev.value <= offset.value then prev else offset
    requires OffsetAt(d, before, after, clocks, n).Some? ==> OffsetAt(d, before, after, clocks, n).value <= d.len
    ensures LeastFound(d, before, after, clocks, n + 1, here)
  {
    if here.Some? {
      if here == prev {
        var i :| 0 <= i < n && OffsetAt(d, before, after, clocks, i) == prev;
        assert OffsetAt(d, before, after, clocks, i) == here;
      } else {
        assert OffsetAt(d, before, after, clocks, n) == here;
      }
    }
  }

  lemma {:induction false} ScanIsLeast(d: Desk, before: seq<Slot>, after: seq<Slot>, clocks: seq<nat>, n: nat)
    requires AllScannable(d, before, after) && |clocks| == |before| && n <= |before|
    ensures LeastFound(d, before, after, clocks, n, ScanTo(d, before, after, clocks, n).first)
  {
    if n > 0 {
      ScanIsLeast(d, before, after, clocks, n - 1);
      LeastGrows(d, before, after, clocks, n - 1, ScanTo(d, before, after, clocks, n - 1).first,
                 ScanTo(d, before, after, clocks, n).first);
    }
  }

  // ---------- Prediction against the reference meaning of completion ----------

  /** A visit is complete when no work is left and its unpaused business time covers its dwell. */
  ghost predicate CompleteAt(s: Slot, clock: nat) {
    !s.Idle? && s.visit.remaining == 0 && Max(0, clock - s.visit.pause) >= s.visit.dwell
  }

  /** The condition under which prediction is exact: a held or pausing visit still has work; any
      other has a pause its business time already covers, or no dwell to serve. */
  ghost predicate Clean(pausing: set<Key>, s: Slot, clock: nat) {
    !s.Idle? ==>
      if s.Held? || s.visit.status in pausing then s.visit.remaining > 0
      else s.visit.dwell == 0 || s.visit.pause <= clock
  }

  ghost predicate DwellServed(v: Visit, clock: nat, n: nat) {
    Max(0, clock + n - v.pause) >= v.dwell
  }

  /** The dwell prediction meets the reference exactly when the pause is covered (or moot). */
  lemma DwellPredictionIff(v: Visit, clock: nat)
    ensures (forall n: nat :: DwellServed(v, clock, n) <==> n >= DwellOffset(v, clock))
            <==> v.dwell == 0 || v.pause <= clock
  {
    if v.dwell > 0 && v.pause > clock {
      assert !DwellServed(v, clock, DwellOffset(v, clock));
    }
  }

  ghost predicate FractionsKnown(d: Desk) {
    forall j :: 0 <= j < |d.seats| ==> 0.0 <= d.seats[j].fraction <= 1.0
  }

  /** Every probe can be scanned: only members who are present finish work. */
  lemma AdvanceScannable(d: Desk, spent: seq<nat>, slots: seq<Slot>)
    requires ValidDesk(d) && FractionsKnown(d) && |spent| == |d.seats| && ValidSlots(d, slots) && HeldKnown(d, slots)
    ensures AllScannable(d, slots, Advance(d, spent, slots).slots)
  {
    OwnersAfterWork(d, spent, slots);
    var after := Advance(d, spent, slots).slots;
    forall i | 0 <= i < |slots| ensures Scannable(d, slots[i], after[i]) {
      SegmentEffect(d, spent, slots, i);
    }
  }

  ghost predicate HeldKnown(d: Desk, slots: seq<Slot>) {
    forall i :: 0 <= i < |slots| && slots[i].Held? && slots[i].visit.member.Some? ==> slots[i].visit.member.value < |d.seats|
  }

  ghost predicate FullOrNone(d: Desk) {
    forall j :: 0 <= j < |d.seats| ==> d.seats[j].fraction == 0.0 || d.seats[j].fraction == 1.0
  }

  /** Labor that slot's owner j gave it. */
  ghost function Given(s: Slot, t: Slot, j: nat): int {
    if !s.Idle? && !t.Idle? && t.visit.member == Some(j) then t.visit.credited - s.visit.credited else 0
  }

  lemma ScanOneUsed(d: Desk, s: Slot, t: Slot, clock: nat, acc: Scan, j: nat)
    requires |acc.used| == |d.seats| && Scannable(d, s, t) && j < |d.seats|
    ensures ScanOne(d, s, t, clock, acc).used[j] == acc.used[j] + Given(s, t, j)
  {
  }

  /** What member j gives one slot is the rise of j's greedy total there. */
  lemma OwnerShare(d: Desk, spent: seq<nat>, slots: seq<Slot>, i: nat, j: nat)
    requires ValidDesk(d) && |spent| == |d.seats| && ValidSlots(d, slots) && i < |slots| && j < |d.seats|
    ensures var owners := Assign(d, spent, slots);
            Given(slots[i], Advance(d, spent, slots).slots[i], j)
            == Min(Budget(d, spent, j), Demand(d, owners[..i + 1], j)) - Min(Budget(d, spent, j), Demand(d, owners[..i], j))
  {
    var owners := Assign(d, spent, slots);
    AssignShape(d, spent, slots);
    AssignExplains(d, spent, slots);
    assert SameButOwner(slots[i], owners[i]);
    SlotEffect(d, spent, owners, i);
    CreditIsRise(d, spent, owners, i, j);
    assert owners[..i + 1][..i] == owners[..i];
  }

  /** The scan's running total is the greedy total of the owners ahead. */
  lemma {:induction false} UsedIsGreedy(d: Desk, spent: seq<nat>, slots: seq<Slot>, after: seq<Slot>, clocks: seq<nat>, i: nat, j: nat)
    requires ValidDesk(d) && |spent| == |d.seats| && ValidSlots(d, slots) && |clocks| == |slots|
    requires after == Advance(d, spent, slots).slots
    requires AllScannable(d, slots, after) && i <= |slots| && j < |d.seats|
    ensures ScanTo(d, slots, after, clocks, i).used[j]
            == Min(Budget(d, spent, j), Demand(d, Assign(d, spent, slots)[..i], j))
  {
    if i > 0 {
      UsedIsGreedy(d, spent, slots, after, clocks, i - 1, j);
      OwnerShare(d, spent, slots, i - 1, j);
      ScanOneUsed(d, slots[i - 1], after[i - 1], clocks[i - 1], ScanTo(d, slots, after, clocks, i - 1), j);
    }
  }

  // ---------- The touch prediction at any fraction ----------

  lemma QuotientIs(a: real, f: real, n: real)
    requires f > 0.0
    ensures a <= n * f <==> a / f <= n
  {
    var q := a / f;
    assert q * f == a;
    if q <= n {
      assert (n - q) * f >= 0.0;
    } else {
      assert (q - n) * f > 0.0;
    }
  }

  /** n microseconds at that fraction hold the labor exactly if n is at least the stretch. */
  lemma StretchLeast(labor: nat, fraction: real, n: nat)
    requires 0.0 < fraction <= 1.0
    ensures labor as real <= n as real * fraction <==> Stretch(labor, fraction) <= n
  {
    QuotientIs(labor as real, fraction, n as real);
    NonNegativeQuotient(labor as real, fraction);
  }

  lemma TouchStretches(d: Desk, v: Visit, w: Visit, used: seq<nat>, j: nat, n: nat, ahead: nat)
    requires |used| == |d.seats| && Present(d, v, w) && j < |d.seats| && used[j] == ahead
    requires w.remaining == 0 < v.remaining && w.member == Some(j)
    ensures var touch := TouchOffset(d, v, w, used);
            touch.Some? && (touch.value <= n <==> (ahead + v.remaining) as real <= n as real * d.seats[j].fraction)
  {
    StretchLeast(ahead + v.remaining, d.seats[j].fraction, n);
  }

  /** The touch of a visit that the probe finishes is predicted at the least offset whose share, at its
      owner's fraction, holds what the owner gives higher-ranked visits and the visit's own work. */
  lemma TouchLeast(d: Desk, spent: seq<nat>, slots: seq<Slot>, after: seq<Slot>, clocks: seq<nat>, i: nat, j: nat, n: nat)
    requires ValidDesk(d) && |spent| == |d.seats| && ValidSlots(d, slots) && |clocks| == |slots| && i < |slots| && j < |d.seats|
    requires after == Advance(d, spent, slots).slots && AllScannable(d, slots, after)
    requires !slots[i].Idle? && !after[i].Idle?
    requires after[i].visit.remaining == 0 < slots[i].visit.remaining && after[i].visit.member == Some(j)
    ensures var touch := TouchOffset(d, slots[i].visit, after[i].visit, ScanTo(d, slots, after, clocks, i).used);
            var ahead := Min(Budget(d, spent, j), Demand(d, Assign(d, spent, slots)[..i], j));
            touch.Some? && (touch.value <= n <==> (ahead + slots[i].visit.remaining) as real <= n as real * d.seats[j].fraction)
  {
    UsedIsGreedy(d, spent, slots, after, clocks, i, j);
    var ahead := Min(Budget(d, spent, j), Demand(d, Assign(d, spent, slots)[..i], j));
    assert Scannable(d, slots[i], after[i]);
    TouchStretches(d, slots[i].visit, after[i].visit, ScanTo(d, slots, after, clocks, i).used, j, n, ahead);
  }

  // ---------- Exactness inside one segment ----------

  /** The slot is complete at n exactly when its predicted offset is at most n. */
  ghost predicate Meets(offset: Option<nat>, part: Slot, clock: nat, n: nat) {
    CompleteAt(part, clock + n) <==> offset.Some? && offset.value <= n
  }

  /** Labor asked of the slot's owner by the slots ranked ahead. */
  ghost function Ahead(d: Desk, owners: seq<Slot>, i: nat): nat
    requires i < |owners| && owners[i].Busy?
  {
    if owners[i].visit.member.Some? then Demand(d, owners[..i], owners[i].visit.member.value) else 0
  }

  ghost function OwnerBudget(d: Desk, spent: seq<nat>, s: Slot): nat
    requires ValidDesk(d) && |spent| == |d.seats| && s.Busy? && ValidSlot(d, s)
  {
    if s.visit.member.Some? then Budget(d, spent, s.visit.member.value) else 0
  }

  /** v became w under this owner: the work ran out exactly if the owner's budget reached that far. */
  ghost predicate Ran(v: Visit, w: Visit, owner: Option<nat>, ahead: nat, budget: nat) {
    && w.member == owner && w.pause == v.pause && w.dwell == v.dwell
    && (owner.None? ==> w.remaining == v.remaining)
    && (owner.Some? ==> (w.remaining == 0 <==> v.remaining == 0 || ahead + v.remaining <= budget))
  }

  /** How a slot's remaining work depends on how much of the segment has passed. */
  lemma RemainingAfter(d: Desk, spent: seq<nat>, slots: seq<Slot>, owners: seq<Slot>, i: nat)
    requires ValidDesk(d) && |spent| == |d.seats| && ValidSlots(d, slots) && i < |slots|
    requires slots[i].Busy? && slots[i].visit.status !in d.pausing && owners == Assign(d, spent, slots)
    ensures owners[i].Busy? && Advance(d, spent, slots).slots[i].Busy?
    ensures Ran(slots[i].visit, Advance(d, spent, slots).slots[i].visit, owners[i].visit.member,
                Ahead(d, owners, i), OwnerBudget(d, spent, owners[i]))
  {
    AssignShape(d, spent, slots);
    AssignExplains(d, spent, slots);
    assert SameButOwner(slots[i], owners[i]);
    SlotEffect(d, spent, owners, i);
  }

  /** A shorter and a longer stretch from the same instant. */
  ghost predicate Shorter(p: Desk, d: Desk) {
    && ValidDesk(p) && ValidDesk(d) && Whole(p) && Whole(d) && SameTeam(p, d) && p.len <= d.len && FullOrNone(d)
  }

  /** Once the touch prediction is right and the pause is covered, so is the completion prediction. */
  lemma OffsetExact(len: nat, n: nat, v: Visit, part: Slot, clock: nat, touch: Option<nat>)
    requires n <= len && part.Busy? && part.visit.pause == v.pause && part.visit.dwell == v.dwell
    requires part.visit.remaining == 0 <==> touch.Some? && touch.value <= n
    requires v.dwell == 0 || v.pause <= clock
    ensures var offset := CompletionOffset(len, touch, DwellOffset(v, clock));
            CompleteAt(part, clock + n) <==> offset.Some? && offset.value <= n
  {
  }

  /** The touch prediction is exactly when the work runs out: w is the probe, x a shorter run. */
  lemma TouchExact(d: Desk, n: nat, v: Visit, w: Visit, x: Visit, used: seq<nat>, owner: Option<nat>, ahead: nat, budget: nat, less: nat)
    requires |used| == |d.seats| && Ran(v, w, owner, ahead, budget) && Ran(v, x, owner, ahead, less)
    requires owner.Some? ==> owner.value < |d.seats| && d.seats[owner.value].fraction == 1.0
    requires owner.Some? ==> used[owner.value] == Min(budget, ahead) && less == Min(n, budget)
    ensures var touch := TouchOffset(d, v, w, used);
            x.remaining == 0 <==> touch.Some? && touch.value <= n
  {
  }

  /** The predicted offset of a clean slot is exactly when it completes. */
  lemma SlotPredicted(p: Desk, d: Desk, spent: seq<nat>, slots: seq<Slot>, after: seq<Slot>, clocks: seq<nat>, i: nat)
    requires Shorter(p, d) && |spent| == |d.seats| && ValidSlots(d, slots) && |clocks| == |slots| && i < |slots|
    requires after == Advance(d, spent, slots).slots && AllScannable(d, slots, after)
    requires Clean(d.pausing, slots[i], clocks[i])
    ensures Meets(OffsetAt(d, slots, after, clocks, i), Advance(p, spent, slots).slots[i], clocks[i], p.len)
  {
    if slots[i].Busy? && slots[i].visit.status !in d.pausing {
      var touch := TouchOffset(d, slots[i].visit, after[i].visit, ScanTo(d, slots, after, clocks, i).used);
      BusyPredicted(p, d, spent, slots, after, clocks, i, touch, Advance(p, spent, slots).slots[i]);
    } else {
      NeverPredicted(p, d, spent, slots, after, clocks, i);
    }
  }

  lemma CleanCovers(pausing: set<Key>, s: Slot, clock: nat)
    requires Clean(pausing, s, clock) && s.Busy? && s.visit.status !in pausing
    ensures s.visit.dwell == 0 || s.visit.pause <= clock
  {
  }

  lemma BusyPredicted(p: Desk, d: Desk, spent: seq<nat>, slots: seq<Slot>, after: seq<Slot>, clocks: seq<nat>, i: nat, touch: Option<nat>, part: Slot)
    requires Shorter(p, d) && |spent| == |d.seats| && ValidSlots(d, slots) && |clocks| == |slots| && i < |slots|
    requires after == Advance(d, spent, slots).slots && AllScannable(d, slots, after)
    requires Clean(d.pausing, slots[i], clocks[i]) && slots[i].Busy? && slots[i].visit.status !in d.pausing
    requires touch == TouchOffset(d, slots[i].visit, after[i].visit, ScanTo(d, slots, after, clocks, i).used)
    requires part == Advance(p, spent, slots).slots[i]
    ensures Meets(CompletionOffset(d.len, touch, DwellOffset(slots[i].visit, clocks[i])), part, clocks[i], p.len)
  {
    CleanCovers(d.pausing, slots[i], clocks[i]);
    TouchPredicted(p, d, spent, slots, after, clocks, i, touch, part);
    OffsetExact(d.len, p.len, slots[i].visit, part, clocks[i], touch);
  }

  lemma NeverPredicted(p: Desk, d: Desk, spent: seq<nat>, slots: seq<Slot>, after: seq<Slot>, clocks: seq<nat>, i: nat)
    requires Shorter(p, d) && |spent| == |d.seats| && ValidSlots(d, slots) && |clocks| == |slots| && i < |slots|
    requires after == Advance(d, spent, slots).slots && AllScannable(d, slots, after)
    requires Clean(d.pausing, slots[i], clocks[i]) && (slots[i].Busy? ==> slots[i].visit.status in d.pausing)
    ensures OffsetAt(d, slots, after, clocks, i).None?
    ensures !CompleteAt(Advance(p, spent, slots).slots[i], clocks[i] + p.len)
  {
    SegmentEffect(p, spent, slots, i);
    SegmentEffect(d, spent, slots, i);
  }

  lemma TouchPredicted(p: Desk, d: Desk, spent: seq<nat>, slots: seq<Slot>, after: seq<Slot>, clocks: seq<nat>, i: nat, touch: Option<nat>, part: Slot)
    requires Shorter(p, d) && |spent| == |d.seats| && ValidSlots(d, slots) && |clocks| == |slots| && i < |slots|
    requires after == Advance(d, spent, slots).slots && AllScannable(d, slots, after)
    requires slots[i].Busy? && slots[i].visit.status !in d.pausing
    requires touch == TouchOffset(d, slots[i].visit, after[i].visit, ScanTo(d, slots, after, clocks, i).used)
    requires part == Advance(p, spent, slots).slots[i]
    ensures part.Busy? && part.visit.pause == slots[i].visit.pause && part.visit.dwell == slots[i].visit.dwell
    ensures part.visit.remaining == 0 <==> touch.Some? && touch.value <= p.len
  {
    var owners, used := Assign(d, spent, slots), ScanTo(d, slots, after, clocks, i).used;
    AssignIgnoresLength(d, p, spent, slots);
    RemainingAfter(p, spent, slots, owners, i);
    RemainingAfter(d, spent, slots, owners, i);
    var owner := owners[i].visit.member;
    SameAhead(p, d, spent, owners, i);
    if owner.Some? {
      OwnerPresent(d, spent, slots, i);
      UsedIsGreedy(d, spent, slots, after, clocks, i, owner.value);
      BudgetOfShorter(p, d, spent, owner.value);
    }
    TouchExact(d, p.len, slots[i].visit, after[i].visit, part.visit, used, owner,
               Ahead(d, owners, i), OwnerBudget(d, spent, owners[i]), OwnerBudget(p, spent, owners[i]));
  }

  lemma SameAhead(p: Desk, d: Desk, spent: seq<nat>, owners: seq<Slot>, i: nat)
    requires Shorter(p, d) && i < |owners| && owners[i].Busy? && ValidSlots(d, owners)
    ensures Ahead(p, owners, i) == Ahead(d, owners, i)
  {
    if owners[i].visit.member.Some? {
      DemandIgnoresLength(d, p, owners[..i], owners[i].visit.member.value);
    }
  }

  /** Whoever owns a visit during a segment is available in it. */
  lemma OwnerPresent(d: Desk, spent: seq<nat>, slots: seq<Slot>, i: nat)
    requires ValidDesk(d) && FullOrNone(d) && |spent| == |d.seats| && ValidSlots(d, slots) && i < |slots|
    requires Assign(d, spent, slots)[i].Busy? && Assign(d, spent, slots)[i].visit.member.Some?
    ensures d.seats[Assign(d, spent, slots)[i].visit.member.value].fraction == 1.0
  {
    OwnersAfterWork(d, spent, slots);
  }

  lemma BudgetOfShorter(p: Desk, d: Desk, spent: seq<nat>, j: nat)
    requires Shorter(p, d) && |spent| == |d.seats| && j < |d.seats|
    ensures d.seats[j].fraction != 0.0 ==> Budget(p, spent, j) == Min(p.len, Budget(d, spent, j))
  {
  }

  /** n microseconds after the clocks were read, some slot is complete. */
  ghost predicate CompleteBy(slots: seq<Slot>, clocks: seq<nat>, n: nat)
    requires |clocks| == |slots|
  {
    exists i :: 0 <= i < |slots| && CompleteAt(slots[i], clocks[i] + n)
  }

  lemma LeastMeets(d: Desk, before: seq<Slot>, after: seq<Slot>, clocks: seq<nat>, first: Option<nat>, part: seq<Slot>, n: nat)
    requires AllScannable(d, before, after) && |clocks| == |before| == |part|
    requires LeastFound(d, before, after, clocks, |before|, first)
    requires forall i :: 0 <= i < |before| ==> Meets(OffsetAt(d, before, after, clocks, i), part[i], clocks[i], n)
    ensures CompleteBy(part, clocks, n) <==> first.Some? && first.value <= n
  {
    if CompleteBy(part, clocks, n) {
      var i :| 0 <= i < |part| && CompleteAt(part[i], clocks[i] + n);
      assert Meets(OffsetAt(d, before, after, clocks, i), part[i], clocks[i], n);
    }
    if first.Some? && first.value <= n {
      var i :| 0 <= i < |before| && OffsetAt(d, before, after, clocks, i) == first;
      assert Meets(OffsetAt(d, before, after, clocks, i), part[i], clocks[i], n);
    }
  }

  /** Exactness: by offset n of the segment some visit is complete if and only if the boundary exists
      and is at most n. */
  lemma BoundaryExact(p: Desk, d: Desk, spent: seq<nat>, slots: seq<Slot>, clocks: seq<nat>)
    requires Shorter(p, d) && |spent| == |d.seats| && ValidSlots(d, slots) && HeldKnown(d, slots) && |clocks| == |slots|
    requires forall i :: 0 <= i < |slots| ==> Clean(d.pausing, slots[i], clocks[i])
    ensures AllScannable(d, slots, Advance(d, spent, slots).slots)
    ensures var boundary := Boundary(d, slots, Advance(d, spent, slots).slots, clocks);
            && (boundary.Some? ==> boundary.value <= d.len)
            && (CompleteBy(Advance(p, spent, slots).slots, clocks, p.len)
                <==> boundary.Some? && boundary.value <= p.len)
  {
    AdvanceScannable(d, spent, slots);
    var after, part := Advance(d, spent, slots).slots, Advance(p, spent, slots).slots;
    ScanIsLeast(d, slots, after, clocks, |slots|);
    forall i | 0 <= i < |slots| ensures Meets(OffsetAt(d, slots, after, clocks, i), part[i], clocks[i], p.len) {
      SlotPredicted(p, d, spent, slots, after, clocks, i);
    }
    LeastMeets(d, slots, after, clocks, Boundary(d, slots, after, clocks), part, p.len);
  }
}
