/** What a whole tick conserves: labor against consumption, the daily capacity, WIP, and queue time
    against business time. Probes leave no trace in any of it. */
module TickTotals {
  import opened BusinessCalendar
  import opened Allocation
  import opened AllocationLaws
  import opened Team
  import opened FirstCompletion
  import opened CommittedEnd

  // ---------- Labor and consumption ----------

  /** All labor consumed on the days from lo up to, not including, hi. */
  ghost function Consumed(bp: Blueprint, book: Book, lo: int, hi: int): nat
    decreases hi - lo
  {
    if hi <= lo then 0 else Consumed(bp, book, lo, hi - 1) + Sum(DaySpent(bp, book, hi - 1))
  }

  lemma {:induction false} PostElsewhere(bp: Blueprint, book: Book, day: int, spent: seq<nat>, lo: int, hi: int)
    requires day < lo || hi <= day
    ensures Consumed(bp, Post(book, day, spent), lo, hi) == Consumed(bp, book, lo, hi)
    decreases hi - lo
  {
    if lo < hi {
      PostElsewhere(bp, book, day, spent, lo, hi - 1);
      OtherDay(bp, book, day, spent, hi - 1);
    }
  }

  lemma OtherDay(bp: Blueprint, book: Book, day: int, spent: seq<nat>, e: int)
    requires e != day
    ensures DaySpent(bp, Post(book, day, spent), e) == DaySpent(bp, book, e)
  {
    forall j | 0 <= j < |bp.members| ensures Spent(Post(book, day, spent), j, e) == Spent(book, j, e) {
      PostSpent(book, day, spent, j, e);
    }
  }

  lemma ThatDay(bp: Blueprint, book: Book, day: int, spent: seq<nat>)
    requires |spent| == |bp.members|
    ensures DaySpent(bp, Post(book, day, spent), day) == spent
  {
    forall j | 0 <= j < |bp.members| ensures Spent(Post(book, day, spent), j, day) == spent[j] {
      PostSpent(book, day, spent, j, day);
    }
  }

  lemma {:induction false} PostCounts(bp: Blueprint, book: Book, day: int, spent: seq<nat>, lo: int, hi: int)
    requires lo <= day < hi && |spent| == |bp.members|
    ensures Consumed(bp, Post(book, day, spent), lo, hi) == Consumed(bp, book, lo, hi) - Sum(DaySpent(bp, book, day)) + Sum(spent)
    decreases hi - lo
  {
    if day == hi - 1 {
      PostElsewhere(bp, book, day, spent, lo, hi - 1);
      ThatDay(bp, book, day, spent);
    } else {
      PostCounts(bp, book, day, spent, lo, hi - 1);
      OtherDay(bp, book, day, spent, hi - 1);
    }
  }

  lemma StepConserves(bp: Blueprint, overlays: seq<Overlay>, lane: Lane, g: Segment, lo: int, hi: int)
    requires ValidWindows(bp, overlays) && g.start <= g.end && Staffed(bp, lane.slots) && lo <= g.day < hi
    ensures var r := StepSegment(bp, overlays, lane, g);
            Consumed(bp, r.book, lo, hi) - Consumed(bp, lane.book, lo, hi) == Labor(r.slots) - Labor(lane.slots)
  {
    var d, spent := DeskFor(bp, overlays, g), DaySpent(bp, lane.book, g.day);
    LaborConserved(d, spent, lane.slots);
    PostCounts(bp, lane.book, g.day, Advance(d, spent, lane.slots).spent, lo, hi);
  }

  ghost predicate DaysWithin(segs: seq<Segment>, lo: int, hi: int) {
    forall k :: 0 <= k < |segs| ==> lo <= segs[k].day < hi
  }

  /** In a tick, the rise in credited labor is the rise in consumption. */
  lemma {:induction false} WalkConserves(bp: Blueprint, overlays: seq<Overlay>, lane: Lane, segs: seq<Segment>, e: int, lo: int, hi: int)
    requires ValidWindows(bp, overlays) && Staffed(bp, lane.slots) && Forward(segs) && DaysWithin(segs, lo, hi)
    ensures var r := Walk(bp, overlays, lane, segs, e).0;
            Consumed(bp, r.book, lo, hi) - Consumed(bp, lane.book, lo, hi) == Labor(r.slots) - Labor(lane.slots)
    decreases |segs|
  {
    if segs != [] {
      var boundary := SegmentBoundary(bp, overlays, lane, segs[0]);
      if boundary.Some? {
        StepConserves(bp, overlays, lane, Cut(segs[0], boundary.value), lo, hi);
      } else {
        StepConserves(bp, overlays, lane, segs[0], lo, hi);
        WalkConserves(bp, overlays, OneSegment(bp, overlays, lane, segs[0]).0, segs[1..], e, lo, hi);
      }
    }
  }

  // ---------- Daily capacity ----------

  lemma StepCapacity(bp: Blueprint, overlays: seq<Overlay>, lane: Lane, g: Segment, j: nat, day: int)
    requires ValidWindows(bp, overlays) && g.start <= g.end && Staffed(bp, lane.slots) && j < |bp.members|
    ensures Spent(StepSegment(bp, overlays, lane, g).book, j, day) <= Max(Spent(lane.book, j, day), bp.members[j].capacity)
  {
    var d, spent := DeskFor(bp, overlays, g), DaySpent(bp, lane.book, g.day);
    PostSpent(lane.book, g.day, Advance(d, spent, lane.slots).spent, j, day);
    CeilingRespected(d, spent, lane.slots, j);
  }

  /** A tick never takes a member's day past the configured capacity. */
  lemma {:induction false} WalkCapacity(bp: Blueprint, overlays: seq<Overlay>, lane: Lane, segs: seq<Segment>, e: int, j: nat, day: int)
    requires ValidWindows(bp, overlays) && Staffed(bp, lane.slots) && Forward(segs) && j < |bp.members|
    ensures Spent(Walk(bp, overlays, lane, segs, e).0.book, j, day) <= Max(Spent(lane.book, j, day), bp.members[j].capacity)
    decreases |segs|
  {
    if segs != [] {
      var boundary := SegmentBoundary(bp, overlays, lane, segs[0]);
      if boundary.Some? {
        StepCapacity(bp, overlays, lane, Cut(segs[0], boundary.value), j, day);
      } else {
        StepCapacity(bp, overlays, lane, segs[0], j, day);
        WalkCapacity(bp, overlays, OneSegment(bp, overlays, lane, segs[0]).0, segs[1..], e, j, day);
      }
    }
  }

  lemma {:induction false} WalkKeepsRows(bp: Blueprint, overlays: seq<Overlay>, lane: Lane, segs: seq<Segment>, e: int)
    requires ValidWindows(bp, overlays) && Staffed(bp, lane.slots) && Forward(segs)
    ensures lane.book.Keys <= Walk(bp, overlays, lane, segs, e).0.book.Keys
    decreases |segs|
  {
    if segs != [] && OneSegment(bp, overlays, lane, segs[0]).1.None? {
      WalkKeepsRows(bp, overlays, OneSegment(bp, overlays, lane, segs[0]).0, segs[1..], e);
    }
  }

  // ---------- WIP ----------

  /** Whatever ownership a tick starts with, if any business time passes, every member ends it within
      their WIP limit. */
  lemma {:induction false} WalkWip(bp: Blueprint, overlays: seq<Overlay>, lane: Lane, segs: seq<Segment>, e: int, j: nat)
    requires ValidWindows(bp, overlays) && Staffed(bp, lane.slots) && Forward(segs) && j < |bp.members| && segs != []
    ensures Owned(Walk(bp, overlays, lane, segs, e).0.slots, j) <= bp.members[j].wip
    decreases |segs|
  {
    var boundary := SegmentBoundary(bp, overlays, lane, segs[0]);
    var g := if boundary.Some? then Cut(segs[0], boundary.value) else segs[0];
    WipRespected(DeskFor(bp, overlays, g), DaySpent(bp, lane.book, g.day), lane.slots, j);
    if boundary.None? && segs[1..] != [] {
      WalkWip(bp, overlays, StepSegment(bp, overlays, lane, segs[0]), segs[1..], e, j);
    }
  }

  // ---------- Queue time ----------

  /** The time slot i was recorded as queueing for one reason. */
  ghost function QueuedFor(rows: seq<seq<Option<Cause>>>, i: nat, reason: Reason): nat {
    if rows == [] then 0
    else
      var row := rows[|rows| - 1];
      QueuedFor(rows[..|rows| - 1], i, reason)
      + if i < |row| && row[i].Some? && row[i].value.reason == reason then row[i].value.delta else 0
  }

  /** All the time slot i was recorded as queueing. */
  ghost function Queued(rows: seq<seq<Option<Cause>>>, i: nat): nat {
    QueuedFor(rows, i, NoCapableMember) + QueuedFor(rows, i, Unavailable) + QueuedFor(rows, i, DailyCapacity)
    + QueuedFor(rows, i, WipLimit) + QueuedFor(rows, i, Contention)
  }

  ghost function QueueOf(s: Slot): nat {
    if s.Idle? then 0 else s.visit.queue
  }

  lemma QueuedRow(rows: seq<seq<Option<Cause>>>, row: seq<Option<Cause>>, i: nat)
    requires i < |row|
    ensures Queued(rows + [row], i) == Queued(rows, i) + if row[i].Some? then row[i].value.delta else 0
  {
    assert (rows + [row])[..|rows|] == rows;
  }

  lemma StepQueue(bp: Blueprint, overlays: seq<Overlay>, lane: Lane, g: Segment, i: nat)
    requires ValidWindows(bp, overlays) && g.start <= g.end && Staffed(bp, lane.slots) && i < |lane.slots|
    ensures var r := StepSegment(bp, overlays, lane, g);
            QueueOf(r.slots[i]) - QueueOf(lane.slots[i]) == Queued(r.causes, i) - Queued(lane.causes, i)
  {
    var d, spent := DeskFor(bp, overlays, g), DaySpent(bp, lane.book, g.day);
    SegmentEffect(d, spent, lane.slots, i);
    QueuedRow(lane.causes, Advance(d, spent, lane.slots).causes, i);
  }

  /** Over a tick the recorded queue causes sum to the rise of each visit's queue clock. */
  lemma {:induction false} WalkQueue(bp: Blueprint, overlays: seq<Overlay>, lane: Lane, segs: seq<Segment>, e: int, i: nat)
    requires ValidWindows(bp, overlays) && Staffed(bp, lane.slots) && Forward(segs) && i < |lane.slots|
    ensures var r := Walk(bp, overlays, lane, segs, e).0;
            QueueOf(r.slots[i]) - QueueOf(lane.slots[i]) == Queued(r.causes, i) - Queued(lane.causes, i)
    decreases |segs|
  {
    if segs != [] {
      var boundary := SegmentBoundary(bp, overlays, lane, segs[0]);
      if boundary.Some? {
        StepQueue(bp, overlays, lane, Cut(segs[0], boundary.value), i);
      } else {
        StepQueue(bp, overlays, lane, segs[0], i);
        WalkQueue(bp, overlays, OneSegment(bp, overlays, lane, segs[0]).0, segs[1..], e, i);
      }
    }
  }

  /** Credited labor plus queueing of a busy slot. */
  ghost function Served(s: Slot): nat {
    if s.Idle? then 0 else s.visit.credited + s.visit.queue
  }

  /** From a to b, n microseconds of business time went into labor or queueing while work was left. */
  ghost predicate Fills(a: Slot, b: Slot, n: nat) {
    && a.Busy? && b.Busy? && b.visit.status == a.visit.status && b.visit.remaining <= a.visit.remaining
    && (b.visit.remaining > 0 ==> Served(b) - Served(a) == n)
  }

  lemma StepServed(bp: Blueprint, overlays: seq<Overlay>, lane: Lane, g: Segment, i: nat)
    requires ValidWindows(bp, overlays) && g.start <= g.end && Staffed(bp, lane.slots) && i < |lane.slots|
    requires lane.slots[i].Busy? && lane.slots[i].visit.status !in PausingStatuses(bp)
    ensures Fills(lane.slots[i], StepSegment(bp, overlays, lane, g).slots[i], g.end - g.start)
  {
    SegmentEffect(DeskFor(bp, overlays, g), DaySpent(bp, lane.book, g.day), lane.slots, i);
  }

  /** The same, between two points of a walk. */
  ghost predicate ServedBetween(bp: Blueprint, i: nat, a: Lane, t: int, b: Lane, u: int) {
    && t <= u
    && (Staffed(bp, a.slots) && i < |a.slots| && a.slots[i].Busy? && a.slots[i].visit.status !in PausingStatuses(bp) ==>
          Staffed(bp, b.slots) && i < |b.slots| && Fills(a.slots[i], b.slots[i], Count(bp.calendar, t, u)))
  }

  lemma ServedOn(bp: Blueprint, i: nat, a: Lane, t: int, b: Lane, u: int, d: Lane, v: int)
    requires ServedBetween(bp, i, a, t, b, u) && ServedBetween(bp, i, b, u, d, v)
    ensures ServedBetween(bp, i, a, t, d, v)
  {
    CountAdds(bp.calendar, t, u, v);
  }

  lemma ServedCut(bp: Blueprint, overlays: seq<Overlay>, i: nat, a: Lane, g: Segment, n: nat)
    requires ValidWindows(bp, overlays) && FullSegment(bp.calendar, g) && n <= g.end - g.start
    ensures ServedBetween(bp, i, a, g.start, StepTo(bp, overlays, a, Cut(g, n)), g.start + n)
  {
    if Staffed(bp, a.slots) && i < |a.slots| && a.slots[i].Busy? && a.slots[i].visit.status !in PausingStatuses(bp) {
      StepServed(bp, overlays, a, Cut(g, n), i);
      ClockInside(bp.calendar, g, g.start, g.start + n);
    }
  }

  ghost function ServedRelation(bp: Blueprint, i: nat): Relation {
    (a, t, b, u) => ServedBetween(bp, i, a, t, b, u)
  }

  lemma ServedKept(bp: Blueprint, overlays: seq<Overlay>, i: nat)
    requires ValidWindows(bp, overlays)
    ensures Kept(TickMachine(bp, overlays), bp.calendar, ServedRelation(bp, i))
  {
    var m, R := TickMachine(bp, overlays), ServedRelation(bp, i);
    forall a, t, b, u, d, v ensures Chains(R, a, t, b, u, d, v) {
      if R(a, t, b, u) && R(b, u, d, v) {
        ServedOn(bp, i, a, t, b, u, d, v);
      }
    }
    forall a, g, n: nat ensures CutKeeps(m, bp.calendar, R, a, g, n) {
      if FullSegment(bp.calendar, g) && n <= g.end - g.start {
        ServedCut(bp, overlays, i, a, g, n);
      }
    }
    forall a, g ensures StopsWithin(m, a, g) {
      TickStops(bp, overlays, a, g);
    }
  }

  /** While a visit has work left, its labor and its queueing fill the tick's business time exactly. */
  lemma WalkServed(bp: Blueprint, overlays: seq<Overlay>, lane: Lane, segs: seq<Segment>, from: int, e: int, i: nat)
    requires ValidWindows(bp, overlays) && Staffed(bp, lane.slots) && Forward(segs) && i < |lane.slots|
    requires Chained(bp.calendar, segs, from, e)
    requires lane.slots[i].Busy? && lane.slots[i].visit.status !in PausingStatuses(bp)
    ensures var r := Walk(bp, overlays, lane, segs, e); Fills(lane.slots[i], r.0.slots[i], Count(bp.calendar, from, r.1))
  {
    ServedKept(bp, overlays, i);
    WalkKeeps(TickMachine(bp, overlays), bp.calendar, ServedRelation(bp, i), lane, segs, from, e);
    WalkOfTick(bp, overlays, lane, segs, e);
    var r := WalkOf(TickMachine(bp, overlays), lane, segs, e);
    assert ServedRelation(bp, i)(lane, from, r.0, r.1);
  }
}
