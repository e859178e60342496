/** Cutting a stretch of time short: its business segments are the longer stretch's, cut at the same
    instant, and so is the reference state inside it. */
module Cutting {
  import opened BusinessCalendar
  import opened Team
  import opened Segments
  import opened FirstCompletion
  import opened CommittedEnd

  // ---------- Availability changes before an instant ----------

  lemma LastIsGreatest(a: seq<int>, x: int)
    requires Increasing(a) && x in a
    ensures x <= a[|a| - 1]
  {
  }

  /** The instants before m, of an increasing sequence. */
  function Below(r: seq<int>, m: int): seq<int> {
    if r == [] || r[0] >= m then [] else [r[0]] + Below(r[1..], m)
  }

  lemma {:induction false} InsertBelow(x: int, r: seq<int>, m: int)
    requires Increasing(r)
    ensures Below(Insert(x, r), m) == if x < m then Insert(x, Below(r, m)) else Below(r, m)
  {
    if r != [] && x > r[0] {
      InsertBelow(x, r[1..], m);
      assert Insert(x, r) == [r[0]] + Insert(x, r[1..]);
    }
  }

  lemma InsideBelow(x: int, s: int, m: int, e: int, r: seq<int>)
    requires Increasing(r) && s < m <= e
    ensures Below(InsertInside(x, s, e, r), m) == InsertInside(x, s, m, Below(r, m))
  {
    InsertBelow(x, r, m);
  }

  /** Cutting the stretch at m keeps the changes before m. */
  lemma {:induction false} ChangesBelow(ws: seq<Window>, s: int, m: int, e: int)
    requires s < m <= e
    ensures Below(ChangesInside(ws, s, e), m) == ChangesInside(ws, s, m)
  {
    if ws != [] {
      var n := |ws| - 1;
      ChangesBelow(ws[..n], s, m, e);
      ChangesInsideHold(ws[..n], s, e);
      var r0 := ChangesInside(ws[..n], s, e);
      InsertInsideHolds(ws[n].ends, s, e, r0);
      InsideBelow(ws[n].ends, s, m, e, r0);
      InsideBelow(ws[n].starts, s, m, e, InsertInside(ws[n].ends, s, e, r0));
    }
  }

  lemma {:induction false} BelowAll(r: seq<int>, m: int)
    requires forall k :: 0 <= k < |r| ==> r[k] < m
    ensures Below(r, m) == r
  {
    if r != [] {
      assert forall k :: 0 <= k < |r[1..]| ==> r[1..][k] == r[k + 1];
      BelowAll(r[1..], m);
    }
  }

  lemma {:induction false} BelowDrop(r: seq<int>, x: int, m: int)
    requires x >= m
    ensures Below(r + [x], m) == Below(r, m)
  {
    if r == [] {
      assert r + [x] == [x];
    } else {
      assert (r + [x])[1..] == r[1..] + [x];
      BelowDrop(r[1..], x, m);
    }
  }

  // ---------- Cutting points and pieces ----------

  /** The points before m, and m itself once they reach it. */
  function Clip(points: seq<int>, m: int): seq<int> {
    if |points| <= 1 then points
    else
      var n := |points| - 1;
      if points[n - 1] >= m then Clip(points[..n], m) else points[..n] + [if points[n] < m then points[n] else m]
  }

  lemma {:induction false} ClipPoints(s: int, r: seq<int>, e: int, m: int)
    requires Increasing(r) && s < m <= e && forall k :: 0 <= k < |r| ==> s < r[k] < e
    ensures Clip([s] + r + [e], m) == [s] + Below(r, m) + [m]
    decreases |r|
  {
    if r == [] {
      assert [s] + r + [e] == [s, e] && [s, e][..1] == [s];
    } else {
      var init, x := r[..|r| - 1], r[|r| - 1];
      assert r == init + [x];
      assert ([s] + r + [e])[..|r| + 1] == [s] + init + [x];
      if x >= m {
        ClipPoints(s, init, x, m);
        BelowDrop(init, x, m);
      } else {
        forall k | 0 <= k < |r| ensures r[k] < m {
          LastIsGreatest(r, r[k]);
        }
        BelowAll(r, m);
      }
    }
  }

  lemma BoundariesClip(ws: seq<Window>, s: int, m: int, e: int)
    requires s < m <= e
    ensures Boundaries(ws, s, m) == Clip(Boundaries(ws, s, e), m)
  {
    ChangesInsideHold(ws, s, e);
    ChangesBelow(ws, s, m, e);
    ClipPoints(s, ChangesInside(ws, s, e), e, m);
  }

  /** The segments that start before m, the last of them cut at m. */
  function Upto(segs: seq<Segment>, m: int): seq<Segment> {
    if segs == [] then []
    else
      var n := |segs| - 1;
      var rest := Upto(segs[..n], m);
      if segs[n].start >= m then rest else rest + [segs[n].(end := Earlier(segs[n].end, m))]
  }

  lemma {:induction false} UptoJoin(a: seq<Segment>, b: seq<Segment>, m: int)
    ensures Upto(a + b, m) == Upto(a, m) + Upto(b, m)
  {
    if b == [] {
      assert a + b == a;
    } else {
      assert (a + b)[..|a + b| - 1] == a + b[..|b| - 1];
      UptoJoin(a, b[..|b| - 1], m);
    }
  }

  lemma {:induction false} UptoAll(segs: seq<Segment>, m: int)
    requires forall k :: 0 <= k < |segs| ==> segs[k].end <= m && segs[k].start < m
    ensures Upto(segs, m) == segs
  {
    if segs != [] {
      var init, last := segs[..|segs| - 1], segs[|segs| - 1];
      assert forall k :: 0 <= k < |init| ==> init[k] == segs[k];
      UptoAll(init, m);
      assert last.(end := Earlier(last.end, m)) == last;
      assert segs == init + [last];
    }
  }

  lemma {:induction false} UptoNone(segs: seq<Segment>, m: int)
    requires forall k :: 0 <= k < |segs| ==> segs[k].start >= m
    ensures Upto(segs, m) == []
  {
    if segs != [] {
      UptoNone(segs[..|segs| - 1], m);
    }
  }

  lemma {:induction false} PiecesClip(day: int, points: seq<int>, m: int)
    requires Increasing(points) && |points| >= 2 && points[0] < m <= points[|points| - 1]
    ensures Upto(Pieces(day, points), m) == Pieces(day, Clip(points, m))
  {
    var n := |points| - 1;
    if points[n - 1] >= m {
      LastPiece(Pieces(day, points[..n]), Segment(day, points[n - 1], points[n]), m);
      PiecesClip(day, points[..n], m);
    } else {
      assert points == points[..n] + [points[n]];
      PiecesCut(day, points[..n], points[n], m);
    }
  }

  lemma PiecesCut(day: int, points: seq<int>, x: int, m: int)
    requires Increasing(points) && points != [] && points[|points| - 1] < m <= x
    ensures Upto(Pieces(day, points + [x]), m) == Pieces(day, points + [m])
  {
    PiecesEnd(day, points, x);
    PiecesEnd(day, points, m);
    LastPiece(Pieces(day, points), Segment(day, points[|points| - 1], x), m);
    PiecesBefore(day, points, m);
    UptoAll(Pieces(day, points), m);
  }

  lemma LastPiece(before: seq<Segment>, g: Segment, m: int)
    ensures Upto(before + [g], m) == if g.start >= m then Upto(before, m) else Upto(before, m) + [g.(end := Earlier(g.end, m))]
  {
    assert (before + [g])[..|before|] == before;
  }

  lemma PiecesEnd(day: int, points: seq<int>, m: int)
    requires points != []
    ensures Pieces(day, points + [m]) == Pieces(day, points) + [Segment(day, points[|points| - 1], m)]
  {
    assert (points + [m])[..|points|] == points;
  }

  lemma PiecesBefore(day: int, points: seq<int>, m: int)
    requires Increasing(points) && points != [] && points[|points| - 1] < m
    ensures forall k :: 0 <= k < |Pieces(day, points)| ==> Pieces(day, points)[k].start < Pieces(day, points)[k].end <= m
  {
    var r := Pieces(day, points);
    forall k | 0 <= k < |r| ensures r[k].start < r[k].end <= m {
      assert r[k] == Segment(day, points[k], points[k + 1]);
      LastIsGreatest(points, points[k + 1]);
    }
  }

  // ---------- Cutting days and stretches ----------

  lemma DaySegmentsAre(c: Calendar, ws: seq<Window>, s: int, e: int, day: int)
    requires c.work(day).Some?
    ensures var from, to := Later(s, c.work(day).value.start), Earlier(e, c.work(day).value.end);
            DaySegments(c, ws, s, e, day) == if from < to then Pieces(day, Boundaries(ws, from, to)) else []
  {
  }

  /** Cutting the stretch at m cuts each day's segments at m. */
  lemma DayUpto(c: Calendar, ws: seq<Window>, s: int, m: int, e: int, day: int)
    requires m <= e
    ensures DaySegments(c, ws, s, m, day) == Upto(DaySegments(c, ws, s, e, day), m)
  {
    var w := c.work(day);
    if w.Some? {
      DaySegmentsAre(c, ws, s, m, day);
      DaySegmentsAre(c, ws, s, e, day);
      PiecesUpto(ws, day, Later(s, w.value.start), w.value.end, m, e);
    }
  }

  lemma PiecesUpto(ws: seq<Window>, day: int, from: int, end: int, m: int, e: int)
    requires m <= e
    ensures var short := if from < Earlier(m, end) then Pieces(day, Boundaries(ws, from, Earlier(m, end))) else [];
            var long := if from < Earlier(e, end) then Pieces(day, Boundaries(ws, from, Earlier(e, end))) else [];
            short == Upto(long, m)
  {
    var to := Earlier(e, end);
    if from < m < to {
      InsideUpto(ws, day, from, m, to);
    } else if from < to {
      OutsideUpto(ws, day, from, to, m);
    }
  }

  lemma InsideUpto(ws: seq<Window>, day: int, from: int, m: int, to: int)
    requires from < m < to
    ensures Pieces(day, Boundaries(ws, from, m)) == Upto(Pieces(day, Boundaries(ws, from, to)), m)
  {
    BoundariesClip(ws, from, m, to);
    BoundariesHold(ws, from, to);
    PiecesClip(day, Boundaries(ws, from, to), m);
  }

  lemma OutsideUpto(ws: seq<Window>, day: int, from: int, to: int, m: int)
    requires from < to && (m <= from || to <= m)
    ensures Upto(Pieces(day, Boundaries(ws, from, to)), m) == if m <= from then [] else Pieces(day, Boundaries(ws, from, to))
  {
    var segs := Pieces(day, Boundaries(ws, from, to));
    forall k | 0 <= k < |segs| ensures from <= segs[k].start < segs[k].end <= to {
      PieceWithin(ws, day, from, to, k);
    }
    if m <= from {
      UptoNone(segs, m);
    } else {
      UptoAll(segs, m);
    }
  }

  lemma PieceWithin(ws: seq<Window>, day: int, from: int, to: int, k: nat)
    requires from < to && k < |Pieces(day, Boundaries(ws, from, to))|
    ensures var g := Pieces(day, Boundaries(ws, from, to))[k]; from <= g.start < g.end <= to
  {
    BoundariesHold(ws, from, to);
    var p := Boundaries(ws, from, to);
    assert Pieces(day, p)[k] == Segment(day, p[k], p[k + 1]);
  }

  lemma {:induction false} DaysUpto(c: Calendar, ws: seq<Window>, s: int, m: int, e: int, first: int, day: int)
    requires m <= e && first <= day
    ensures SegmentsUpTo(c, ws, s, m, first, day) == Upto(SegmentsUpTo(c, ws, s, e, first, day), m)
    decreases day - first
  {
    if day > first {
      DaysUpto(c, ws, s, m, e, first, day - 1);
      DayUpto(c, ws, s, m, e, day - 1);
      UptoJoin(SegmentsUpTo(c, ws, s, e, first, day - 1), DaySegments(c, ws, s, e, day - 1), m);
    }
  }

  /** A day later than the stretch contributes nothing to it. */
  lemma LateDay(c: Calendar, ws: seq<Window>, s: int, e: int, day: int)
    requires Valid(c) && c.date(e - 1) < day
    ensures DaySegments(c, ws, s, e, day) == []
  {
    if c.work(day).Some? {
      var u := c.work(day).value.start;
      assert c.date(u) == day;
      assert u <= e - 1 ==> c.date(u) <= c.date(e - 1);
    }
  }

  /** No day from mid on contributes anything. */
  ghost predicate NothingFrom(c: Calendar, ws: seq<Window>, s: int, e: int, mid: int) {
    forall day :: day >= mid ==> DaySegments(c, ws, s, e, day) == []
  }

  lemma {:induction false} NoLaterDays(c: Calendar, ws: seq<Window>, s: int, e: int, first: int, mid: int, day: int)
    requires first <= mid <= day && NothingFrom(c, ws, s, e, mid)
    ensures SegmentsUpTo(c, ws, s, e, first, day) == SegmentsUpTo(c, ws, s, e, first, mid)
    decreases day - mid
  {
    if mid < day {
      NoLaterDays(c, ws, s, e, first, mid, day - 1);
      assert DaySegments(c, ws, s, e, day - 1) == [];
    }
  }

  /** The business segments of a shorter stretch are those of the longer one, cut at its end. */
  lemma SegmentsUpto(bp: Blueprint, overlays: seq<Overlay>, s: int, m: int, e: int)
    requires Valid(bp.calendar) && s <= m <= e
    ensures SegmentsOf(bp, overlays, s, m) == Upto(SegmentsOf(bp, overlays, s, e), m)
  {
    var segs := SegmentsOf(bp, overlays, s, e);
    if s == m {
      SegmentsGood(bp, overlays, s, e);
      UptoNone(segs, m);
    } else {
      StretchUpto(bp.calendar, TeamWindows(bp, overlays, |bp.members|), s, m, e);
    }
  }

  lemma StretchUpto(c: Calendar, ws: seq<Window>, s: int, m: int, e: int)
    requires Valid(c) && s < m <= e
    ensures c.date(s) <= c.date(m - 1) <= c.date(e - 1)
    ensures SegmentsUpTo(c, ws, s, m, c.date(s), c.date(m - 1) + 1) == Upto(SegmentsUpTo(c, ws, s, e, c.date(s), c.date(e - 1) + 1), m)
  {
    var first, mid, final := c.date(s), c.date(m - 1) + 1, c.date(e - 1) + 1;
    DaysUpto(c, ws, s, m, e, first, final);
    forall day | day >= mid ensures DaySegments(c, ws, s, m, day) == [] {
      LateDay(c, ws, s, m, day);
    }
    NoLaterDays(c, ws, s, m, first, mid, final);
  }

  // ---------- The reference state inside the shorter stretch ----------

  lemma {:induction false} UptoFirst(segs: seq<Segment>, m: int)
    requires segs != [] && segs[0].start < m
    ensures Upto(segs, m) == [segs[0].(end := Earlier(segs[0].end, m))] + Upto(segs[1..], m)
  {
    assert segs == [segs[0]] + segs[1..];
    UptoJoin([segs[0]], segs[1..], m);
    assert [segs[0]][..0] == [];
  }

  lemma {:induction false} UptoForward(segs: seq<Segment>, m: int)
    requires Forward(segs)
    ensures Forward(Upto(segs, m))
  {
    if segs != [] {
      UptoForward(segs[..|segs| - 1], m);
    }
  }

  lemma {:induction false} AtOfUpto(mach: Machine, lane: Lane, segs: seq<Segment>, s: int, e: int, m: int, t: int)
    requires Ordered(segs, s, e) && t <= m
    ensures AtOf(mach, lane, Upto(segs, m), t) == AtOf(mach, lane, segs, t)
    decreases |segs|
  {
    if segs != [] && segs[0].start >= m {
      UptoNone(segs, m);
    } else if segs != [] {
      var rest := segs[1..];
      assert forall k :: 0 <= k < |rest| ==> rest[k] == segs[k + 1];
      UptoFirst(segs, m);
      if t >= segs[0].end {
        AtOfUpto(mach, mach.next(lane, segs[0]), rest, s, e, m, t);
      } else if t == m {
        UptoNone(rest, m);
      }
    }
  }

  /** Up to m, the longer and the shorter stretch pass through the same states. */
  lemma AtUpto(bp: Blueprint, overlays: seq<Overlay>, lane: Lane, segs: seq<Segment>, s: int, e: int, m: int, t: int)
    requires ValidWindows(bp, overlays) && Staffed(bp, lane.slots) && Ordered(segs, s, e) && t <= m
    ensures Forward(segs) && Forward(Upto(segs, m))
    ensures At(bp, overlays, lane, Upto(segs, m), t) == At(bp, overlays, lane, segs, t)
  {
    UptoForward(segs, m);
    AtOfUpto(TickMachine(bp, overlays), lane, segs, s, e, m, t);
    AtOfTick(bp, overlays, lane, segs, t);
    AtOfTick(bp, overlays, lane, Upto(segs, m), t);
  }
}
