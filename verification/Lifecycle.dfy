/** Crossing a sprint boundary: activating the planned sprint, or rolling the running one over. */
module Lifecycle {
  import opened BusinessCalendar
  import opened AllocationLaws
  import opened Team
  import opened Commands
  import opened Routes
  import opened Scope
  import opened RunInvariant

  // ---------- Taking items into a sprint ----------

  ghost predicate KindsKnown(bp: Blueprint, items: seq<Item>) {
    forall i :: 0 <= i < |items| ==> items[i].kind in bp.routes && |bp.routes[items[i].kind]| > 0
  }

  function Activated(bp: Blueprint, draws: Draws, items: seq<Item>, ids: seq<nat>, t: int): (r: seq<Item>)
    requires KindsKnown(bp, items)
    ensures |r| == |items|
  {
    seq(|items|, i requires 0 <= i < |items| => if i in ids then Activate(bp, draws, i, items[i], t).item else items[i])
  }

  predicate Opens(bp: Blueprint, draws: Draws, items: seq<Item>, i: nat, t: int)
    requires KindsKnown(bp, items) && i < |items|
  {
    Activate(bp, draws, i, items[i], t).visit.Some?
  }

  function Opened(bp: Blueprint, draws: Draws, items: seq<Item>, ids: seq<nat>, t: int): Visits
    requires KindsKnown(bp, items)
  {
    map i: nat | i < |items| && i in ids && Opens(bp, draws, items, i, t)
      :: (i, 0) := Activate(bp, draws, i, items[i], t).visit.value
  }

  /** One claim on the visit counter of every item that opens a visit. */
  function VisitClaims(bp: Blueprint, draws: Draws, s: State, ids: seq<nat>, t: int): seq<Claim>
    requires KindsKnown(bp, s.items) && forall k :: 0 <= k < |ids| ==> ids[k] < |s.items|
  {
    if ids == [] then []
    else
      var n := |ids| - 1;
      VisitClaims(bp, draws, s, ids[..n], t)
      + if Opens(bp, draws, s.items, ids[n], t) then [Claim(VisitOrdinal(ids[n]), Next(s, VisitOrdinal(ids[n])), 1)] else []
  }

  // ---------- Scope ----------

  function Entries(k: nat, ids: seq<nat>, t: int): map<(nat, nat), ScopeEntry> {
    map i: nat | i in ids :: (k, i) := ScopeEntry(t, None)
  }

  function CloseScope(scope: map<(nat, nat), ScopeEntry>, k: nat, t: int): map<(nat, nat), ScopeEntry> {
    map key | key in scope :: if key.0 == k && scope[key].removed.None? then scope[key].(removed := Some(t)) else scope[key]
  }

  predicate Carried(s: State, k: nat, i: nat)
    requires i < |s.items|
  {
    (k, i) in s.scope && s.scope[(k, i)].removed.None? && s.items[i].life.Active?
  }

  /** The sprint's unfinished items. */
  function Carryover(s: State, k: nat, i: nat): (r: seq<nat>)
    requires i <= |s.items|
    ensures forall x :: 0 <= x < |r| ==> i <= r[x] < |s.items| && Carried(s, k, r[x])
    decreases |s.items| - i
  {
    if i == |s.items| then []
    else if Carried(s, k, i) then [i] + Carryover(s, k, i + 1) else Carryover(s, k, i + 1)
  }

  // ---------- The two transitions ----------

  /** The planned sprint k starts with these items. */
  function StartWith(bp: Blueprint, draws: Draws, s: State, k: nat, t: int, ids: seq<nat>): Outcome
    requires KindsKnown(bp, s.items) && k in s.sprints && forall x :: 0 <= x < |ids| ==> ids[x] < |s.items|
  {
    Outcome(s.(items := Activated(bp, draws, s.items, ids, t),
               visits := s.visits + Opened(bp, draws, s.items, ids, t),
               sprints := s.sprints[k := s.sprints[k].(phase := Running)],
               scope := s.scope + Entries(k, ids, t)),
            VisitClaims(bp, draws, s, ids, t), [])
  }

  function ActivateSprint(bp: Blueprint, draws: Draws, s: State, k: nat, t: int): Outcome
    requires KindsKnown(bp, s.items) && k in s.sprints
  {
    SelectFills(s.items, bp.minPoints, Target(bp, draws.target(k)));
    StartWith(bp, draws, s, k, t, SelectFrom(s.items, bp.minPoints, Target(bp, draws.target(k)), 0, 0))
  }

  function RolloverBacklog(bp: Blueprint, draws: Draws, s: State, k: nat): (r: seq<nat>)
    ensures forall x :: 0 <= x < |r| ==> r[x] < |s.items| && s.items[r[x]].life.Backlog?
  {
    var target := Target(bp, draws.target(Next(s, SprintOrdinal)));
    var carried := Sum(PointsAt(s.items, Carryover(s, k, 0)));
    BacklogFills(s.items, bp.minPoints, target, carried);
    BacklogFrom(s.items, bp.minPoints, target, 0, carried)
  }

  /** The running sprint k gives way to its successor, which takes over `carry` and these items. */
  function RollWith(bp: Blueprint, draws: Draws, s: State, k: nat, t: int, carry: seq<nat>, ids: seq<nat>): Outcome
    requires KindsKnown(bp, s.items) && k in s.sprints && forall x :: 0 <= x < |ids| ==> ids[x] < |s.items|
  {
    var next := Next(s, SprintOrdinal);
    var successor := Sprint(next, Running,
                            CadenceBoundary(bp.calendar, bp.anchor, bp.cadenceDays, next),
                            CadenceBoundary(bp.calendar, bp.anchor, bp.cadenceDays, next + 1));
    Outcome(s.(items := Activated(bp, draws, s.items, ids, t),
               visits := s.visits + Opened(bp, draws, s.items, ids, t),
               sprints := s.sprints[k := s.sprints[k].(phase := Completed)][next := successor],
               scope := CloseScope(s.scope, k, t) + Entries(next, carry + ids, t)),
            [Claim(SprintOrdinal, next, 1)] + VisitClaims(bp, draws, s, ids, t), [])
  }

  function RollSprint(bp: Blueprint, draws: Draws, s: State, k: nat, t: int): Outcome
    requires KindsKnown(bp, s.items) && k in s.sprints
  {
    RollWith(bp, draws, s, k, t, Carryover(s, k, 0), RolloverBacklog(bp, draws, s, k))
  }

  /** The first sprint from ordinal k, below n, that meets p. */
  function FindSprint(sprints: map<nat, Sprint>, p: Sprint -> bool, k: nat, n: nat): (r: Option<nat>)
    ensures r.Some? ==> r.value in sprints && p(sprints[r.value]) && k <= r.value < n
    ensures r.None? ==> forall i :: k <= i < n && i in sprints ==> !p(sprints[i])
    decreases n - k
  {
    if k >= n then None
    else if k in sprints && p(sprints[k]) then Some(k)
    else FindSprint(sprints, p, k + 1, n)
  }

  function CrossBoundary(bp: Blueprint, draws: Draws, s: State, t: int): Option<Outcome>
    requires KindsKnown(bp, s.items)
  {
    var planned := FindSprint(s.sprints, (sprint: Sprint) => sprint.phase.Planned? && sprint.start == t, 0, Next(s, SprintOrdinal));
    if planned.Some? then Some(ActivateSprint(bp, draws, s, planned.value, t))
    else
      var running := FindSprint(s.sprints, (sprint: Sprint) => sprint.phase.Running? && sprint.end == t, 0, Next(s, SprintOrdinal));
      if running.Some? then Some(RollSprint(bp, draws, s, running.value, t)) else None
  }

  // ---------- The transitions, with their selection loops ----------

  method StartSprint(bp: Blueprint, draws: Draws, s: State, k: nat, t: int) returns (o: Outcome)
    requires KindsKnown(bp, s.items) && k in s.sprints
    ensures o == ActivateSprint(bp, draws, s, k, t)
  {
    var ids := SelectScope(s.items, bp.minPoints, Target(bp, draws.target(k)));
    SelectFills(s.items, bp.minPoints, Target(bp, draws.target(k)));
    o := StartWith(bp, draws, s, k, t, ids);
  }

  method RollOver(bp: Blueprint, draws: Draws, s: State, k: nat, t: int) returns (o: Outcome)
    requires KindsKnown(bp, s.items) && k in s.sprints
    ensures o == RollSprint(bp, draws, s, k, t)
  {
    var carry := Carryover(s, k, 0);
    var carried, target := Sum(PointsAt(s.items, carry)), Target(bp, draws.target(Next(s, SprintOrdinal)));
    var ids := RankedBacklog(s.items, bp.minPoints, target, carried);
    assert ids == RolloverBacklog(bp, draws, s, k);
    o := RollWith(bp, draws, s, k, t, carry, ids);
  }

  method Cross(bp: Blueprint, draws: Draws, s: State, t: int) returns (o: Option<Outcome>)
    requires KindsKnown(bp, s.items)
    ensures o == CrossBoundary(bp, draws, s, t)
  {
    var planned := FindSprint(s.sprints, (sprint: Sprint) => sprint.phase.Planned? && sprint.start == t, 0, Next(s, SprintOrdinal));
    if planned.Some? {
      var started := StartSprint(bp, draws, s, planned.value, t);
      return Some(started);
    }
    var running := FindSprint(s.sprints, (sprint: Sprint) => sprint.phase.Running? && sprint.end == t, 0, Next(s, SprintOrdinal));
    if running.None? {
      return None;
    }
    var rolled := RollOver(bp, draws, s, running.value, t);
    return Some(rolled);
  }

  // ---------- Visits and counters after planning ----------

  /** The ids are distinct backlog items. */
  ghost predicate Plannable(s: State, ids: seq<nat>) {
    && (forall k :: 0 <= k < |ids| ==> ids[k] < |s.items| && s.items[ids[k]].life.Backlog?)
    && (forall k, l :: 0 <= k < l < |ids| ==> ids[k] != ids[l])
  }

  /** The claim an opened visit makes on its item's counter. */
  ghost predicate OpensClaim(bp: Blueprint, draws: Draws, s: State, ids: seq<nat>, t: int, claim: Claim)
    requires KindsKnown(bp, s.items)
  {
    && claim.counter.VisitOrdinal? && claim.counter.item in ids && claim.counter.item < |s.items|
    && Opens(bp, draws, s.items, claim.counter.item, t)
    && claim.expected == Next(s, claim.counter) && claim.count == 1
  }

  ghost predicate Claims(claims: seq<Claim>, counter: Counter) {
    exists c :: 0 <= c < |claims| && claims[c].counter == counter
  }

  /** The claims are exactly those of the items that open a visit, each once. */
  ghost predicate ClaimsFor(bp: Blueprint, draws: Draws, s: State, ids: seq<nat>, t: int, claims: seq<Claim>)
    requires KindsKnown(bp, s.items) && Plannable(s, ids)
  {
    && (forall c :: 0 <= c < |claims| ==> OpensClaim(bp, draws, s, ids, t, claims[c]))
    && (forall k :: 0 <= k < |ids| && Opens(bp, draws, s.items, ids[k], t) ==> Claims(claims, VisitOrdinal(ids[k])))
    && UniqueCounters(claims)
  }

  lemma {:induction false} VisitClaimsFor(bp: Blueprint, draws: Draws, s: State, ids: seq<nat>, t: int)
    requires KindsKnown(bp, s.items) && Plannable(s, ids)
    ensures ClaimsFor(bp, draws, s, ids, t, VisitClaims(bp, draws, s, ids, t))
  {
    if ids != [] {
      var n := |ids| - 1;
      var before := VisitClaims(bp, draws, s, ids[..n], t);
      VisitClaimsFor(bp, draws, s, ids[..n], t);
      if Opens(bp, draws, s.items, ids[n], t) {
        ClaimsGrow(bp, draws, s, ids, t, before, [Claim(VisitOrdinal(ids[n]), Next(s, VisitOrdinal(ids[n])), 1)]);
      } else {
        ClaimsGrow(bp, draws, s, ids, t, before, []);
      }
    }
  }

  lemma ClaimsGrow(bp: Blueprint, draws: Draws, s: State, ids: seq<nat>, t: int, before: seq<Claim>, last: seq<Claim>)
    requires KindsKnown(bp, s.items) && Plannable(s, ids) && ids != [] && ClaimsFor(bp, draws, s, ids[..|ids| - 1], t, before)
    requires var i := ids[|ids| - 1];
             last == if Opens(bp, draws, s.items, i, t) then [Claim(VisitOrdinal(i), Next(s, VisitOrdinal(i)), 1)] else []
    ensures ClaimsFor(bp, draws, s, ids, t, before + last)
  {
    var n := |ids| - 1;
    var claims := before + last;
    forall c | 0 <= c < |claims| ensures OpensClaim(bp, draws, s, ids, t, claims[c]) {
      if c < |before| {
        assert OpensClaim(bp, draws, s, ids[..n], t, before[c]);
      }
    }
    forall k | 0 <= k < |ids| && Opens(bp, draws, s.items, ids[k], t) ensures Claims(claims, VisitOrdinal(ids[k])) {
      if k < n {
        assert ids[..n][k] == ids[k];
        ClaimsKept(before, last, VisitOrdinal(ids[k]));
      } else {
        assert claims[|before|].counter == VisitOrdinal(ids[k]);
      }
    }
    NewCounterUnique(bp, draws, s, ids, t, before, last);
  }

  lemma ClaimsKept(before: seq<Claim>, last: seq<Claim>, counter: Counter)
    requires Claims(before, counter)
    ensures Claims(before + last, counter)
  {
    var c :| 0 <= c < |before| && before[c].counter == counter;
    assert (before + last)[c].counter == counter;
  }

  lemma NewCounterUnique(bp: Blueprint, draws: Draws, s: State, ids: seq<nat>, t: int, before: seq<Claim>, last: seq<Claim>)
    requires KindsKnown(bp, s.items) && Plannable(s, ids) && ids != [] && ClaimsFor(bp, draws, s, ids[..|ids| - 1], t, before)
    requires |last| <= 1 && forall c :: 0 <= c < |last| ==> last[c].counter == VisitOrdinal(ids[|ids| - 1])
    ensures UniqueCounters(before + last)
  {
    forall c | 0 <= c < |before| ensures before[c].counter != VisitOrdinal(ids[|ids| - 1]) {
      assert OpensClaim(bp, draws, s, ids[..|ids| - 1], t, before[c]);
    }
  }

  /** How far planning moves an item's visit counter. */
  ghost function Rise(bp: Blueprint, draws: Draws, s: State, ids: seq<nat>, t: int, i: nat): nat
    requires KindsKnown(bp, s.items) && i < |s.items|
  {
    if i in ids && Opens(bp, draws, s.items, i, t) then 1 else 0
  }

  lemma ActivateOk(bp: Blueprint, draws: Draws, t: int, visits: Visits, more: Visits, item: Item, i: nat)
    requires ValidRoutes(bp) && ItemOk(bp, visits, item, i, 0) && item.life.Backlog?
    requires |bp.routes[item.kind]| > 0
    requires var move := Activate(bp, draws, i, item, t);
             forall k: nat :: ((i, k) in more <==> k == 0 && move.visit.Some?)
                              && ((i, k) in more ==> more[(i, k)] == move.visit.value)
    ensures var move := Activate(bp, draws, i, item, t);
            ItemOk(bp, more, move.item, i, if move.visit.Some? then 1 else 0)
  {
    var move := Activate(bp, draws, i, item, t);
    var steps := bp.routes[item.kind];
    var first := NextTimed(bp, steps, 0);
    if first.Some? {
      assert steps[first.value].status == move.item.status && Timed(bp, steps[first.value]);
      assert VisitOk(bp, move.item, i, 1, 0, move.visit.value);
    }
  }

  lemma PlannedVisits(bp: Blueprint, draws: Draws, s: State, ids: seq<nat>, t: int, i: nat, k: nat)
    requires KindsKnown(bp, s.items)
    ensures var added := Opened(bp, draws, s.items, ids, t);
            && ((i, k) in added <==> k == 0 && i < |s.items| && i in ids && Opens(bp, draws, s.items, i, t))
            && ((i, k) in added ==> added[(i, k)] == Activate(bp, draws, i, s.items[i], t).visit.value)
  {
  }

  lemma PlanItem(bp: Blueprint, draws: Draws, t: int, s: State, ids: seq<nat>, i: nat)
    requires ValidRoutes(bp) && KindsKnown(bp, s.items) && ItemsOk(bp, s) && i < |s.items|
    requires Plannable(s, ids) && VisitOrdinal(i) in s.counters
    ensures ItemOk(bp, s.visits + Opened(bp, draws, s.items, ids, t), Activated(bp, draws, s.items, ids, t)[i], i,
                   s.counters[VisitOrdinal(i)] + Rise(bp, draws, s, ids, t, i))
  {
    var added := Opened(bp, draws, s.items, ids, t);
    assert ItemHolds(bp, s, i);
    forall k: nat
      ensures (i, k) in added <==> k == 0 && i in ids && Opens(bp, draws, s.items, i, t)
      ensures (i, k) in added ==> added[(i, k)] == Activate(bp, draws, i, s.items[i], t).visit.value
    {
      PlannedVisits(bp, draws, s, ids, t, i, k);
    }
    if i in ids {
      ActivateOk(bp, draws, t, s.visits, s.visits + added, s.items[i], i);
    } else {
      Untouched(i, s.visits, added);
      ItemSame(bp, s.visits, s.visits + added, s.items[i], i, s.counters[VisitOrdinal(i)]);
    }
  }

  lemma Untouched(i: nat, visits: Visits, added: Visits)
    requires forall k: nat :: (i, k) !in added
    ensures SameFor(i, visits, visits + added)
  {
  }
}
