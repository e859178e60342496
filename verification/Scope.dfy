/** Sprint planning: how many points a sprint takes on, and which items that selects. */
module Scope {
  import opened AllocationLaws
  import opened Team

  // ---------- The capacity target ----------

  /** A drawn unit in [0, 1) picks one of n steps, rounding down. */
  function Drawn(unit: real, n: int): int {
    (unit * n as real).Floor
  }

  /** The drawn target, between the configured minimum and maximum. */
  function Target(bp: Blueprint, unit: real): int {
    bp.minPoints + Drawn(unit, bp.maxPoints - bp.minPoints + 1)
  }

  lemma Scaled(unit: real, n: real, p: real)
    requires 0.0 <= unit < 1.0 && n >= 1.0 && p == unit * n
    ensures 0.0 <= p < n
  {
    assert (1.0 - unit) * n > 0.0;
    assert (1.0 - unit) * n == n - p;
  }

  lemma FloorWithin(p: real, n: int)
    requires 0.0 <= p < n as real
    ensures 0 <= p.Floor < n
  {
  }

  lemma DrawnWithin(unit: real, n: int)
    requires 0.0 <= unit < 1.0 && n >= 1
    ensures 0 <= Drawn(unit, n) < n
  {
    var p := unit * n as real;
    Scaled(unit, n as real, p);
    FloorWithin(p, n);
  }

  /** For every draw in [0, 1) the target lies between the minimum and the maximum. */
  lemma TargetBounds(bp: Blueprint, unit: real)
    requires bp.minPoints <= bp.maxPoints && 0.0 <= unit < 1.0
    ensures bp.minPoints <= Target(bp, unit) <= bp.maxPoints
  {
    DrawnWithin(unit, bp.maxPoints - bp.minPoints + 1);
  }

  /** The draw falls in the step the target names: the range is cut into equal steps, one a point. */
  lemma TargetExact(bp: Blueprint, unit: real, target: int)
    requires bp.minPoints <= bp.maxPoints && 0.0 <= unit < 1.0
    ensures target == Target(bp, unit) <==>
            var steps := bp.maxPoints - bp.minPoints + 1;
            (target - bp.minPoints) as real <= unit * steps as real < (target - bp.minPoints + 1) as real
  {
    FloorIs(unit * (bp.maxPoints - bp.minPoints + 1) as real, target - bp.minPoints);
  }

  lemma FloorIs(p: real, n: int)
    ensures n == p.Floor <==> n as real <= p < (n + 1) as real
  {
    if n as real <= p < (n + 1) as real {
      assert p.Floor as real <= p < (p.Floor + 1) as real;
    }
  }

  // ---------- Greedy fill ----------

  /** Filling stops at an item that would take enough points past the target. */
  predicate Stops(min: nat, target: int, used: nat, points: nat) {
    used >= min && used + points > target
  }

  /** Bootstrap and activation: every item in rank order, from position i, until filling stops. */
  function SelectFrom(items: seq<Item>, min: nat, target: int, i: nat, used: nat): seq<nat>
    requires i <= |items|
    decreases |items| - i
  {
    if i == |items| || Stops(min, target, used, items[i].points) then []
    else [i] + SelectFrom(items, min, target, i + 1, used + items[i].points)
  }

  /** Rollover: backlog items only, in rank order, on top of the points carried over. */
  function BacklogFrom(items: seq<Item>, min: nat, target: int, i: nat, used: nat): seq<nat>
    requires i <= |items|
    decreases |items| - i
  {
    if i == |items| then []
    else if !items[i].life.Backlog? then BacklogFrom(items, min, target, i + 1, used)
    else if Stops(min, target, used, items[i].points) then []
    else [i] + BacklogFrom(items, min, target, i + 1, used + items[i].points)
  }

  method SelectScope(items: seq<Item>, min: nat, target: int) returns (selected: seq<nat>)
    ensures selected == SelectFrom(items, min, target, 0, 0)
  {
    selected := [];
    var used: nat := 0;
    for i := 0 to |items|
      invariant SelectFrom(items, min, target, 0, 0) == selected + SelectFrom(items, min, target, i, used)
    {
      if Stops(min, target, used, items[i].points) {
        return;
      }
      selected, used := selected + [i], used + items[i].points;
    }
  }

  method RankedBacklog(items: seq<Item>, min: nat, target: int, carried: nat) returns (selected: seq<nat>)
    ensures selected == BacklogFrom(items, min, target, 0, carried)
  {
    selected := [];
    var used: nat := carried;
    for i := 0 to |items|
      invariant BacklogFrom(items, min, target, 0, carried) == selected + BacklogFrom(items, min, target, i, used)
    {
      if items[i].life.Backlog? {
        if Stops(min, target, used, items[i].points) {
          return;
        }
        selected, used := selected + [i], used + items[i].points;
      }
    }
  }

  // ---------- What the fill selects ----------

  /** The backlog in rank order, from position i. */
  function BacklogOf(items: seq<Item>, i: nat): (r: seq<nat>)
    requires i <= |items|
    ensures forall k :: 0 <= k < |r| ==> i <= r[k] < |items| && items[r[k]].life.Backlog?
    decreases |items| - i
  {
    if i == |items| then []
    else if items[i].life.Backlog? then [i] + BacklogOf(items, i + 1) else BacklogOf(items, i + 1)
  }

  ghost predicate Rising(ids: seq<nat>) {
    forall k, l :: 0 <= k < l < |ids| ==> ids[k] < ids[l]
  }

  /** In rank order, hence without repetition. */
  lemma {:induction false} BacklogRises(items: seq<Item>, i: nat)
    requires i <= |items|
    ensures Rising(BacklogOf(items, i))
    decreases |items| - i
  {
    if i < |items| {
      BacklogRises(items, i + 1);
      if items[i].life.Backlog? {
        RisingFront(i, BacklogOf(items, i + 1));
      }
    }
  }

  lemma RisingFront(x: nat, rest: seq<nat>)
    requires Rising(rest) && forall k :: 0 <= k < |rest| ==> x < rest[k]
    ensures Rising([x] + rest)
  {
    var all := [x] + rest;
    forall k, l | 0 <= k < l < |all| ensures all[k] < all[l] {
      assert all[l] == rest[l - 1];
      assert k > 0 ==> all[k] == rest[k - 1];
    }
  }

  /** Nothing of the backlog is missing. */
  lemma {:induction false} BacklogComplete(items: seq<Item>, i: nat, x: nat)
    requires i <= x < |items| && items[x].life.Backlog?
    ensures x in BacklogOf(items, i)
    decreases x - i
  {
    if i < x {
      BacklogComplete(items, i + 1, x);
      assert items[i].life.Backlog? ==> BacklogOf(items, i) == [i] + BacklogOf(items, i + 1);
    }
  }

  /** The story points of these items. */
  function PointsAt(items: seq<Item>, ids: seq<nat>): (r: seq<nat>)
    requires forall k :: 0 <= k < |ids| ==> ids[k] < |items|
    ensures |r| == |ids| && forall k :: 0 <= k < |r| ==> r[k] == items[ids[k]].points
  {
    seq(|ids|, k requires 0 <= k < |ids| => items[ids[k]].points)
  }

  /** How many of a queue's items fit on top of `used` points. */
  function Fill(points: seq<nat>, min: nat, target: int, used: nat): (n: nat)
    ensures n <= |points|
  {
    if points == [] || Stops(min, target, used, points[0]) then 0
    else 1 + Fill(points[1..], min, target, used + points[0])
  }

  ghost predicate StopsAt(points: seq<nat>, min: nat, target: int, used: nat, k: nat)
    requires k < |points|
  {
    var before := used + Sum(points[..k]);
    before >= min && before + points[k] > target
  }

  /** Filling stops at n: everything before n was let in, and n, if there is one, was not. */
  ghost predicate FillsTo(points: seq<nat>, min: nat, target: int, used: nat, n: nat) {
    && n <= |points|
    && (forall k :: 0 <= k < n ==> !StopsAt(points, min, target, used, k))
    && (n < |points| ==> StopsAt(points, min, target, used, n))
  }

  /** There is only one such place. */
  lemma FillUnique(points: seq<nat>, min: nat, target: int, used: nat, n: nat, m: nat)
    requires FillsTo(points, min, target, used, n) && FillsTo(points, min, target, used, m)
    ensures n == m
  {
  }

  lemma {:induction false} SumFront(x: nat, s: seq<nat>)
    ensures Sum([x] + s) == x + Sum(s)
  {
    if s == [] {
      assert [x] + s == [x] && [x][..0] == [];
    } else {
      var n := |s| - 1;
      SumFront(x, s[..n]);
      assert ([x] + s)[..n + 1] == [x] + s[..n];
    }
  }

  lemma StopsLater(points: seq<nat>, min: nat, target: int, used: nat, k: nat)
    requires k + 1 < |points|
    ensures StopsAt(points, min, target, used, k + 1) <==> StopsAt(points[1..], min, target, used + points[0], k)
  {
    SumFront(points[0], points[1..][..k]);
    assert points[..k + 1] == [points[0]] + points[1..][..k];
  }

  lemma {:induction false} FillIsTo(points: seq<nat>, min: nat, target: int, used: nat)
    ensures FillsTo(points, min, target, used, Fill(points, min, target, used))
  {
    if points != [] {
      assert points[..0] == [];
      if !Stops(min, target, used, points[0]) {
        FillIsTo(points[1..], min, target, used + points[0]);
        FillsLater(points, min, target, used, Fill(points[1..], min, target, used + points[0]));
      }
    }
  }

  lemma FillsLater(points: seq<nat>, min: nat, target: int, used: nat, n: nat)
    requires points != [] && !StopsAt(points, min, target, used, 0)
    requires FillsTo(points[1..], min, target, used + points[0], n)
    ensures FillsTo(points, min, target, used, n + 1)
  {
    forall k | 0 <= k < n + 1 ensures !StopsAt(points, min, target, used, k) {
      if k > 0 {
        StopsLater(points, min, target, used, k - 1);
      }
    }
    if n + 1 < |points| {
      StopsLater(points, min, target, used, n);
    }
  }

  lemma {:induction false} BacklogIsPrefix(items: seq<Item>, min: nat, target: int, i: nat, used: nat, queue: seq<nat>, points: seq<nat>)
    requires i <= |items| && queue == BacklogOf(items, i) && points == PointsAt(items, queue)
    ensures BacklogFrom(items, min, target, i, used) == queue[..Fill(points, min, target, used)]
    decreases |items| - i
  {
    if i < |items| {
      var rest := BacklogOf(items, i + 1);
      if !items[i].life.Backlog? {
        BacklogIsPrefix(items, min, target, i + 1, used, rest, points);
      } else if !Stops(min, target, used, items[i].points) {
        PointsOfRest(items, i, rest);
        BacklogIsPrefix(items, min, target, i + 1, used + items[i].points, rest, points[1..]);
        TakesFirst(items, min, target, i, used, rest, points);
      } else {
        PointsOfRest(items, i, rest);
      }
    }
  }

  /** One more item fits, and the rest of the queue is filled as before. */
  lemma TakesFirst(items: seq<Item>, min: nat, target: int, i: nat, used: nat, rest: seq<nat>, points: seq<nat>)
    requires i < |items| && items[i].life.Backlog? && !Stops(min, target, used, items[i].points)
    requires |points| == 1 + |rest| && points[0] == items[i].points
    requires BacklogFrom(items, min, target, i + 1, used + items[i].points) == rest[..Fill(points[1..], min, target, used + points[0])]
    ensures BacklogFrom(items, min, target, i, used) == ([i] + rest)[..Fill(points, min, target, used)]
  {
    FrontOfQueue(i, rest, BacklogFrom(items, min, target, i + 1, used + items[i].points),
                 Fill(points[1..], min, target, used + points[0]));
  }

  lemma PointsOfRest(items: seq<Item>, i: nat, rest: seq<nat>)
    requires i < |items| && forall k :: 0 <= k < |rest| ==> rest[k] < |items|
    ensures PointsAt(items, [i] + rest)[0] == items[i].points && PointsAt(items, [i] + rest)[1..] == PointsAt(items, rest)
  {
  }

  lemma FrontOfQueue(i: nat, rest: seq<nat>, taken: seq<nat>, n: nat)
    requires n <= |rest| && taken == rest[..n]
    ensures [i] + taken == ([i] + rest)[..1 + n]
  {
  }

  lemma {:induction false} SelectIsPrefix(items: seq<Item>, points: seq<nat>, min: nat, target: int, i: nat, used: nat)
    requires i <= |items| && points == seq(|items| - i, k requires 0 <= k < |items| - i => items[i + k].points)
    ensures var r := SelectFrom(items, min, target, i, used);
            |r| == Fill(points, min, target, used) && forall k :: 0 <= k < |r| ==> r[k] == i + k
    decreases |items| - i
  {
    if i < |items| {
      var rest := seq(|items| - i - 1, k requires 0 <= k < |items| - i - 1 => items[i + 1 + k].points);
      assert points[1..] == rest;
      SelectIsPrefix(items, rest, min, target, i + 1, used + items[i].points);
    }
  }

  /** Rollover takes a rank prefix of the backlog, up to the one place where filling stops. */
  lemma BacklogFills(items: seq<Item>, min: nat, target: int, carried: nat)
    ensures var r, queue := BacklogFrom(items, min, target, 0, carried), BacklogOf(items, 0);
            r <= queue && FillsTo(PointsAt(items, queue), min, target, carried, |r|)
  {
    BacklogIsPrefix(items, min, target, 0, carried, BacklogOf(items, 0), PointsAt(items, BacklogOf(items, 0)));
    FillIsTo(PointsAt(items, BacklogOf(items, 0)), min, target, carried);
  }

  /** Bootstrap takes the first items of the board, up to the one place where filling stops. */
  lemma SelectFills(items: seq<Item>, min: nat, target: int)
    ensures var r := SelectFrom(items, min, target, 0, 0);
            && |r| <= |items| && (forall k :: 0 <= k < |r| ==> r[k] == k)
            && FillsTo(seq(|items|, k requires 0 <= k < |items| => items[k].points), min, target, 0, |r|)
  {
    var points := seq(|items|, k requires 0 <= k < |items| => items[k].points);
    assert points == seq(|items| - 0, k requires 0 <= k < |items| - 0 => items[0 + k].points);
    SelectIsPrefix(items, points, min, target, 0, 0);
    FillIsTo(points, min, target, 0);
  }

  /** Rollover never takes a sprint past its target, unless it still needed the last item to reach the
      minimum. */
  lemma FillWithinTarget(points: seq<nat>, min: nat, target: int, used: nat, n: nat)
    requires FillsTo(points, min, target, used, n) && n > 0
    ensures used + Sum(points[..n]) <= target || used + Sum(points[..n - 1]) < min
  {
    assert !StopsAt(points, min, target, used, n - 1);
    assert points[..n][..n - 1] == points[..n - 1];
  }

  /** The items a sequence of positions names. */
  function Pick(items: seq<Item>, ids: seq<nat>): (r: seq<Item>)
    requires forall k :: 0 <= k < |ids| ==> ids[k] < |items|
    ensures |r| == |ids| && forall k :: 0 <= k < |r| ==> r[k] == items[ids[k]]
  {
    seq(|ids|, k requires 0 <= k < |ids| => items[ids[k]])
  }

  /** With nothing carried over, rollover selects exactly what bootstrap selection selects from the
      backlog alone. */
  lemma RolloverIsBootstrap(items: seq<Item>, min: nat, target: int)
    ensures var queue := BacklogOf(items, 0);
            var selected := SelectFrom(Pick(items, queue), min, target, 0, 0);
            && (forall k :: 0 <= k < |selected| ==> selected[k] < |queue|)
            && BacklogFrom(items, min, target, 0, 0) == seq(|selected|, k requires 0 <= k < |selected| => queue[selected[k]])
  {
    var queue := BacklogOf(items, 0);
    var alone := Pick(items, queue);
    BacklogFills(items, min, target, 0);
    SelectFills(alone, min, target);
    assert PointsAt(items, queue) == seq(|alone|, k requires 0 <= k < |alone| => alone[k].points);
    FillUnique(PointsAt(items, queue), min, target, 0, |BacklogFrom(items, min, target, 0, 0)|,
               |SelectFrom(alone, min, target, 0, 0)|);
  }
}
