/** Cutting a stretch of time into business segments: one per working day, split wherever some
    member's availability starts or ends. */
module Segments {
  import opened BusinessCalendar
  import opened Team

  // ---------- Sorted instants ----------

  ghost predicate Increasing(r: seq<int>) {
    forall k, l :: 0 <= k < l < |r| ==> r[k] < r[l]
  }

  /** x put in its place among increasing instants, once. */
  function Insert(x: int, r: seq<int>): seq<int> {
    if r == [] then [x]
    else if x < r[0] then [x] + r
    else if x == r[0] then r
    else [r[0]] + Insert(x, r[1..])
  }

  lemma {:induction false} InsertHolds(x: int, r: seq<int>, lo: int, hi: int)
    requires Increasing(r) && lo < x < hi && forall k :: 0 <= k < |r| ==> lo < r[k] < hi
    ensures Increasing(Insert(x, r)) && x in Insert(x, r) && forall y :: y in r ==> y in Insert(x, r)
    ensures forall k :: 0 <= k < |Insert(x, r)| ==> lo < Insert(x, r)[k] < hi
  {
    if r != [] && x > r[0] {
      assert forall k :: 0 <= k < |r[1..]| ==> r[0] < r[1..][k];
      InsertHolds(x, r[1..], r[0], hi);
      assert r == [r[0]] + r[1..];
    }
  }

  /** All availability windows of the team. */
  function TeamWindows(bp: Blueprint, overlays: seq<Overlay>, n: nat): seq<Window>
    requires n <= |bp.members|
  {
    if n == 0 then [] else TeamWindows(bp, overlays, n - 1) + MemberWindows(bp, overlays, n - 1)
  }

  lemma {:induction false} TeamWindowsHold(bp: Blueprint, overlays: seq<Overlay>, n: nat, j: nat, k: nat)
    requires j < n <= |bp.members| && k < |MemberWindows(bp, overlays, j)|
    ensures MemberWindows(bp, overlays, j)[k] in TeamWindows(bp, overlays, n)
  {
    if j < n - 1 {
      TeamWindowsHold(bp, overlays, n - 1, j, k);
    }
  }

  ghost predicate IsChange(ws: seq<Window>, x: int) {
    exists k :: 0 <= k < |ws| && (ws[k].starts == x || ws[k].ends == x)
  }

  function InsertInside(x: int, s: int, e: int, r: seq<int>): seq<int> {
    if s < x < e then Insert(x, r) else r
  }

  /** The availability changes strictly inside (s, e), in order. */
  function ChangesInside(ws: seq<Window>, s: int, e: int): seq<int> {
    if ws == [] then []
    else
      var last := ws[|ws| - 1];
      InsertInside(last.starts, s, e, InsertInside(last.ends, s, e, ChangesInside(ws[..|ws| - 1], s, e)))
  }

  ghost predicate Inside(r: seq<int>, s: int, e: int) {
    Increasing(r) && forall k :: 0 <= k < |r| ==> s < r[k] < e
  }

  lemma InsertInsideHolds(x: int, s: int, e: int, r: seq<int>)
    requires Inside(r, s, e)
    ensures Inside(InsertInside(x, s, e, r), s, e)
    ensures s < x < e ==> x in InsertInside(x, s, e, r)
    ensures forall y :: y in r ==> y in InsertInside(x, s, e, r)
  {
    if s < x < e {
      InsertHolds(x, r, s, e);
    }
  }

  lemma {:induction false} ChangesInsideHold(ws: seq<Window>, s: int, e: int)
    ensures Inside(ChangesInside(ws, s, e), s, e)
    ensures forall x :: IsChange(ws, x) && s < x < e ==> x in ChangesInside(ws, s, e)
  {
    if ws != [] {
      var n := |ws| - 1;
      ChangesInsideHold(ws[..n], s, e);
      var r0 := ChangesInside(ws[..n], s, e);
      var r1 := InsertInside(ws[n].ends, s, e, r0);
      InsertInsideHolds(ws[n].ends, s, e, r0);
      InsertInsideHolds(ws[n].starts, s, e, r1);
      forall x | IsChange(ws, x) && s < x < e ensures x in ChangesInside(ws, s, e) {
        if x != ws[n].ends && x != ws[n].starts {
          var k :| 0 <= k < |ws| && (ws[k].starts == x || ws[k].ends == x);
          assert ws[..n][k] == ws[k];
          assert IsChange(ws[..n], x);
        }
      }
    }
  }

  /** s, the changes strictly inside (s, e), and e, in order. */
  function Boundaries(ws: seq<Window>, s: int, e: int): (r: seq<int>)
    ensures |r| >= 2 && r[0] == s && r[|r| - 1] == e
  {
    [s] + ChangesInside(ws, s, e) + [e]
  }

  lemma BoundariesHold(ws: seq<Window>, s: int, e: int)
    requires s < e
    ensures Increasing(Boundaries(ws, s, e))
    ensures forall x :: IsChange(ws, x) && s < x < e ==> x in Boundaries(ws, s, e)
  {
    ChangesInsideHold(ws, s, e);
  }

  function Pieces(day: int, points: seq<int>): (r: seq<Segment>)
    ensures |r| == if |points| == 0 then 0 else |points| - 1
    ensures forall k :: 0 <= k < |r| ==> r[k] == Segment(day, points[k], points[k + 1])
  {
    if |points| <= 1 then []
    else
      var n := |points| - 1;
      Pieces(day, points[..n]) + [Segment(day, points[n - 1], points[n])]
  }

  function Later(a: int, b: int): int { if a >= b then a else b }

  function Earlier(a: int, b: int): int { if a <= b then a else b }

  /** The segments one local day contributes to [s, e). */
  function DaySegments(c: Calendar, ws: seq<Window>, s: int, e: int, day: int): seq<Segment> {
    var w := c.work(day);
    if w.None? then []
    else
      var from, to := Later(s, w.value.start), Earlier(e, w.value.end);
      if from < to then Pieces(day, Boundaries(ws, from, to)) else []
  }

  /** The segments of local days first up to, not including, day. */
  function SegmentsUpTo(c: Calendar, ws: seq<Window>, s: int, e: int, first: int, day: int): seq<Segment>
    requires first <= day
    decreases day - first
  {
    if day == first then []
    else SegmentsUpTo(c, ws, s, e, first, day - 1) + DaySegments(c, ws, s, e, day - 1)
  }

  function SegmentsOf(bp: Blueprint, overlays: seq<Overlay>, s: int, e: int): seq<Segment> {
    if s >= e then []
    else
      var c := bp.calendar;
      var first, final := c.date(s), c.date(e - 1);
      if first > final then []
      else SegmentsUpTo(c, TeamWindows(bp, overlays, |bp.members|), s, e, first, final + 1)
  }

  /** The day-by-day loop. */
  method BusinessSegments(bp: Blueprint, overlays: seq<Overlay>, s: int, e: int) returns (r: seq<Segment>)
    requires s <= e
    ensures r == SegmentsOf(bp, overlays, s, e)
  {
    if s == e {
      return [];
    }
    var c := bp.calendar;
    var ws := TeamWindows(bp, overlays, |bp.members|);
    var first, final := c.date(s), c.date(e - 1);
    var day := first;
    r := [];
    while day <= final
      invariant first <= day && (day == first || day <= final + 1)
      invariant r == SegmentsUpTo(c, ws, s, e, first, day)
      decreases final - day
    {
      r := r + DaySegments(c, ws, s, e, day);
      day := day + 1;
    }
  }

  // ---------- What the segments are ----------

  /** How much of segment g lies before t. */
  function Part(g: Segment, t: int): nat {
    if t <= g.start then 0 else if t < g.end then t - g.start else if g.start <= g.end then g.end - g.start else 0
  }

  /** How much segment time lies before t. */
  ghost function TimeBefore(segs: seq<Segment>, t: int): nat {
    if segs == [] then 0 else Part(segs[0], t) + TimeBefore(segs[1..], t)
  }

  lemma {:induction false} TimeAppend(a: seq<Segment>, b: seq<Segment>, t: int)
    ensures TimeBefore(a + b, t) == TimeBefore(a, t) + TimeBefore(b, t)
  {
    if a == [] {
      assert a + b == b;
    } else {
      assert (a + b)[1..] == a[1..] + b;
      TimeAppend(a[1..], b, t);
    }
  }

  /** Ordered, disjoint and non-empty, all inside [lo, hi]. */
  ghost predicate Ordered(segs: seq<Segment>, lo: int, hi: int) {
    && (forall k :: 0 <= k < |segs| ==> lo <= segs[k].start < segs[k].end <= hi)
    && (forall k, l :: 0 <= k < l < |segs| ==> segs[k].end <= segs[l].start)
  }

  lemma {:induction false} PiecesTime(day: int, points: seq<int>, t: int)
    requires |points| > 0 && Increasing(points)
    ensures TimeBefore(Pieces(day, points), t) == Part(Segment(day, points[0], points[|points| - 1]), t)
  {
    var n := |points| - 1;
    if n > 0 {
      PiecesTime(day, points[..n], t);
      var last := [Segment(day, points[n - 1], points[n])];
      TimeAppend(Pieces(day, points[..n]), last, t);
      assert TimeBefore(last, t) == Part(last[0], t) + TimeBefore(last[1..], t);
    }
  }

  /** Up to any t, a day's segments hold exactly that day's working time. */
  lemma DayTime(c: Calendar, ws: seq<Window>, s: int, e: int, day: int, t: int)
    requires Valid(c) && s <= t <= e
    ensures TimeBefore(DaySegments(c, ws, s, e, day), t) == CountDays(c, s, t, day, day + 1)
  {
    CountOneDay(c, s, t, day);
    var w := c.work(day);
    if w.Some? {
      var from, to := Later(s, w.value.start), Earlier(e, w.value.end);
      if from < to {
        BoundariesHold(ws, from, to);
        PiecesTime(day, Boundaries(ws, from, to), t);
      }
    }
  }

  lemma {:induction false} UpToTime(c: Calendar, ws: seq<Window>, s: int, e: int, first: int, day: int, t: int)
    requires Valid(c) && s <= t <= e && first <= day
    ensures TimeBefore(SegmentsUpTo(c, ws, s, e, first, day), t) == CountDays(c, s, t, first, day)
    decreases day - first
  {
    if day == first {
      CountDaysEmpty(c, s, t, first);
    } else {
      UpToTime(c, ws, s, e, first, day - 1, t);
      DayTime(c, ws, s, e, day - 1, t);
      TimeAppend(SegmentsUpTo(c, ws, s, e, first, day - 1), DaySegments(c, ws, s, e, day - 1), t);
      CountDaysJoin(c, s, t, first, day - 1, day);
    }
  }

  /** Partition: before every instant t, the segments hold exactly the business time elapsed. */
  lemma SegmentsPartition(bp: Blueprint, overlays: seq<Overlay>, s: int, e: int, t: int)
    requires Valid(bp.calendar) && s <= t <= e
    ensures TimeBefore(SegmentsOf(bp, overlays, s, e), t) == Count(bp.calendar, s, t)
  {
    if s < e {
      var c := bp.calendar;
      var first, final := c.date(s), c.date(e - 1);
      UpToTime(c, TeamWindows(bp, overlays, |bp.members|), s, e, first, final + 1, t);
      CountDaysAll(c, s, t, first, final + 1);
    }
  }

  /** Inside [s, e), inside its own day's working time, with no availability change strictly inside. */
  ghost predicate GoodSegment(c: Calendar, ws: seq<Window>, s: int, e: int, g: Segment) {
    && s <= g.start < g.end <= e
    && c.work(g.day).Some? && c.work(g.day).value.start <= g.start && g.end <= c.work(g.day).value.end
    && (forall x :: IsChange(ws, x) ==> !(g.start < x < g.end))
  }

  /** Good segments of days lo up to, not including, hi, in order. */
  ghost predicate AllGood(c: Calendar, ws: seq<Window>, s: int, e: int, lo: int, hi: int, r: seq<Segment>) {
    && (forall k :: 0 <= k < |r| ==> lo <= r[k].day < hi && GoodSegment(c, ws, s, e, r[k]))
    && (forall k, l :: 0 <= k < l < |r| ==> r[k].end <= r[l].start)
  }

  /** Between neighbouring boundaries nothing changes. */
  lemma NothingBetween(ws: seq<Window>, from: int, to: int, k: nat, x: int)
    requires from < to && k + 1 < |Boundaries(ws, from, to)| && IsChange(ws, x)
    ensures var p := Boundaries(ws, from, to); from <= p[k] < p[k + 1] <= to && !(p[k] < x < p[k + 1])
  {
    BoundariesHold(ws, from, to);
    var p := Boundaries(ws, from, to);
    if from < x < to {
      var l :| 0 <= l < |p| && p[l] == x;
    }
  }

  lemma PieceGood(c: Calendar, ws: seq<Window>, s: int, e: int, day: int, from: int, to: int, k: nat)
    requires s <= from < to <= e && c.work(day).Some?
    requires c.work(day).value.start <= from && to <= c.work(day).value.end
    requires k + 1 < |Boundaries(ws, from, to)|
    ensures var p := Boundaries(ws, from, to); GoodSegment(c, ws, s, e, Segment(day, p[k], p[k + 1]))
  {
    BoundariesHold(ws, from, to);
    var p := Boundaries(ws, from, to);
    forall x | IsChange(ws, x) ensures !(p[k] < x < p[k + 1]) {
      NothingBetween(ws, from, to, k, x);
    }
  }

  lemma PiecesOrdered(day: int, points: seq<int>, k: nat, l: nat)
    requires Increasing(points) && k < l < |Pieces(day, points)|
    ensures Pieces(day, points)[k].end <= Pieces(day, points)[l].start
  {
    assert k + 1 < l ==> points[k + 1] < points[l];
  }

  lemma PiecesGood(c: Calendar, ws: seq<Window>, s: int, e: int, day: int, from: int, to: int)
    requires s <= from < to <= e && c.work(day).Some?
    requires c.work(day).value.start <= from && to <= c.work(day).value.end
    ensures AllGood(c, ws, s, e, day, day + 1, Pieces(day, Boundaries(ws, from, to)))
  {
    BoundariesHold(ws, from, to);
    var points := Boundaries(ws, from, to);
    var r := Pieces(day, points);
    forall k | 0 <= k < |r| ensures day <= r[k].day < day + 1 && GoodSegment(c, ws, s, e, r[k]) {
      PieceGood(c, ws, s, e, day, from, to, k);
    }
    forall k, l | 0 <= k < l < |r| ensures r[k].end <= r[l].start {
      PiecesOrdered(day, points, k, l);
    }
  }

  lemma DaySegmentsGood(c: Calendar, ws: seq<Window>, s: int, e: int, day: int)
    ensures AllGood(c, ws, s, e, day, day + 1, DaySegments(c, ws, s, e, day))
  {
    var w := c.work(day);
    if w.Some? {
      var from, to := Later(s, w.value.start), Earlier(e, w.value.end);
      if from < to {
        PiecesGood(c, ws, s, e, day, from, to);
      }
    }
  }

  lemma DaysInOrder(c: Calendar, ws: seq<Window>, s: int, e: int, g: Segment, h: Segment)
    requires Valid(c) && GoodSegment(c, ws, s, e, g) && GoodSegment(c, ws, s, e, h) && g.day < h.day
    ensures g.end <= h.start
  {
    WorkingInside(c, g.day, g.end - 1);
    WorkingInside(c, h.day, h.start);
  }

  lemma AllGoodJoin(c: Calendar, ws: seq<Window>, s: int, e: int, lo: int, mid: int, hi: int, a: seq<Segment>, b: seq<Segment>)
    requires Valid(c) && lo <= mid <= hi
    requires AllGood(c, ws, s, e, lo, mid, a) && AllGood(c, ws, s, e, mid, hi, b)
    ensures AllGood(c, ws, s, e, lo, hi, a + b)
  {
    forall k, l | 0 <= k < |a| && 0 <= l < |b| ensures a[k].end <= b[l].start {
      DaysInOrder(c, ws, s, e, a[k], b[l]);
    }
  }

  lemma {:induction false} UpToGood(c: Calendar, ws: seq<Window>, s: int, e: int, first: int, day: int)
    requires Valid(c) && first <= day
    ensures AllGood(c, ws, s, e, first, day, SegmentsUpTo(c, ws, s, e, first, day))
    decreases day - first
  {
    if day > first {
      UpToGood(c, ws, s, e, first, day - 1);
      DaySegmentsGood(c, ws, s, e, day - 1);
      AllGoodJoin(c, ws, s, e, first, day - 1, day, SegmentsUpTo(c, ws, s, e, first, day - 1), DaySegments(c, ws, s, e, day - 1));
    }
  }

  lemma GoodAreOrdered(c: Calendar, ws: seq<Window>, s: int, e: int, lo: int, hi: int, r: seq<Segment>)
    requires AllGood(c, ws, s, e, lo, hi, r)
    ensures Ordered(r, s, e)
  {
    forall k | 0 <= k < |r| ensures s <= r[k].start < r[k].end <= e {
      assert GoodSegment(c, ws, s, e, r[k]);
    }
  }

  /** Every business segment is good, and they come in order without overlap. */
  lemma SegmentsGood(bp: Blueprint, overlays: seq<Overlay>, s: int, e: int)
    requires Valid(bp.calendar) && s <= e
    ensures var segs := SegmentsOf(bp, overlays, s, e);
            && Ordered(segs, s, e)
            && forall k :: 0 <= k < |segs| ==>
                 GoodSegment(bp.calendar, TeamWindows(bp, overlays, |bp.members|), s, e, segs[k])
                 && bp.calendar.date(s) <= segs[k].day <= bp.calendar.date(e - 1)
  {
    if s < e {
      var c := bp.calendar;
      var ws := TeamWindows(bp, overlays, |bp.members|);
      var lo, hi := c.date(s), c.date(e - 1) + 1;
      var segs := SegmentsOf(bp, overlays, s, e);
      assert segs == SegmentsUpTo(c, ws, s, e, lo, hi);
      UpToGood(c, ws, s, e, lo, hi);
      GoodAreOrdered(c, ws, s, e, lo, hi, segs);
    }
  }

  // ---------- Constant availability ----------

  lemma {:induction false} SteadyWindows(ws: seq<Window>, capacity: nat, s: int, t: int)
    requires s <= t && forall k :: 0 <= k < |ws| ==> !(s < ws[k].starts <= t) && !(s < ws[k].ends <= t)
    ensures Fraction(ws, t) == Fraction(ws, s) && Ceiling(capacity, ws, t) == Ceiling(capacity, ws, s)
  {
    if ws != [] {
      SteadyWindows(ws[..|ws| - 1], capacity, s, t);
    }
  }

  /** A member's fraction and ceiling never change inside a segment. */
  lemma SteadyInside(bp: Blueprint, overlays: seq<Overlay>, s: int, e: int, k: nat, j: nat, t: int)
    requires Valid(bp.calendar) && s <= e && k < |SegmentsOf(bp, overlays, s, e)| && j < |bp.members|
    requires var g := SegmentsOf(bp, overlays, s, e)[k]; g.start <= t < g.end
    ensures var g, ws := SegmentsOf(bp, overlays, s, e)[k], MemberWindows(bp, overlays, j);
            && Fraction(ws, t) == Fraction(ws, g.start)
            && Ceiling(bp.members[j].capacity, ws, t) == Ceiling(bp.members[j].capacity, ws, g.start)
  {
    SegmentsGood(bp, overlays, s, e);
    var g, ws, all := SegmentsOf(bp, overlays, s, e)[k], MemberWindows(bp, overlays, j), TeamWindows(bp, overlays, |bp.members|);
    forall i | 0 <= i < |ws| ensures !(g.start < ws[i].starts <= t) && !(g.start < ws[i].ends <= t) {
      TeamWindowsHold(bp, overlays, |bp.members|, j, i);
      var l :| 0 <= l < |all| && all[l] == ws[i];
      assert IsChange(all, all[l].starts) && IsChange(all, all[l].ends);
    }
    SteadyWindows(ws, bp.members[j].capacity, g.start, t);
  }
}
