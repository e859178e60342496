/** Crossing a boundary keeps the run invariant, produces an acceptable command, and carries exactly
    the unfinished work over. */
module LifecycleLaws {
  import opened Team
  import opened Commands
  import opened Routes
  import opened RunInvariant
  import opened Lifecycle

  lemma KindsFromInvariant(bp: Blueprint, s: State)
    requires ValidRoutes(bp) && ItemsOk(bp, s)
    ensures KindsKnown(bp, s.items)
  {
    forall i | 0 <= i < |s.items| ensures s.items[i].kind in bp.routes && |bp.routes[s.items[i].kind]| > 0 {
      assert ItemHolds(bp, s, i);
      assert ValidRoute(bp, bp.routes[s.items[i].kind]);
    }
  }

  lemma CountersKnown(bp: Blueprint, s: State)
    requires ItemsOk(bp, s)
    ensures forall i: nat :: i < |s.items| ==> VisitOrdinal(i) in s.counters
  {
    forall i: nat | i < |s.items| ensures VisitOrdinal(i) in s.counters {
      assert ItemHolds(bp, s, i);
    }
  }

  // ---------- Counters ----------

  /** Planning claims, possibly after one claim on the sprint counter. */
  ghost predicate PlanClaims(bp: Blueprint, draws: Draws, s: State, ids: seq<nat>, t: int, claims: seq<Claim>, rolls: bool)
    requires KindsKnown(bp, s.items) && Plannable(s, ids)
  {
    if rolls then
      |claims| > 0 && claims[0] == Claim(SprintOrdinal, Next(s, SprintOrdinal), 1) && ClaimsFor(bp, draws, s, ids, t, claims[1..])
    else ClaimsFor(bp, draws, s, ids, t, claims)
  }

  lemma PlanClaimsUnique(bp: Blueprint, draws: Draws, s: State, ids: seq<nat>, t: int, claims: seq<Claim>, rolls: bool)
    requires KindsKnown(bp, s.items) && Plannable(s, ids) && PlanClaims(bp, draws, s, ids, t, claims, rolls)
    ensures UniqueCounters(claims)
  {
    if rolls {
      forall a, b | 0 <= a < b < |claims| ensures claims[a].counter != claims[b].counter {
        assert claims[b] == claims[1..][b - 1];
        if a > 0 {
          assert claims[a] == claims[1..][a - 1];
        }
      }
    }
  }

  /** Every claim is the sprint's or an opened visit's. */
  lemma PlanClaimIs(bp: Blueprint, draws: Draws, s: State, ids: seq<nat>, t: int, claims: seq<Claim>, rolls: bool, c: nat)
    requires KindsKnown(bp, s.items) && Plannable(s, ids) && PlanClaims(bp, draws, s, ids, t, claims, rolls)
    requires c < |claims|
    ensures claims[c].expected == Next(s, claims[c].counter) && claims[c].count == 1
    ensures if rolls && c == 0 then claims[c].counter == SprintOrdinal
            else claims[c].counter.VisitOrdinal? && claims[c].counter.item in ids
                 && Opens(bp, draws, s.items, claims[c].counter.item, t)
  {
    if rolls && c > 0 {
      assert OpensClaim(bp, draws, s, ids, t, claims[1..][c - 1]);
    } else if !rolls {
      assert OpensClaim(bp, draws, s, ids, t, claims[c]);
    }
  }

  lemma PlanClaimExists(bp: Blueprint, draws: Draws, s: State, ids: seq<nat>, t: int, claims: seq<Claim>, rolls: bool, i: nat) returns (c: nat)
    requires KindsKnown(bp, s.items) && Plannable(s, ids) && PlanClaims(bp, draws, s, ids, t, claims, rolls)
    requires i in ids && Opens(bp, draws, s.items, i, t)
    ensures c < |claims| && claims[c].counter == VisitOrdinal(i)
  {
    var k :| 0 <= k < |ids| && ids[k] == i;
    if rolls {
      var rest := claims[1..];
      assert Claims(rest, VisitOrdinal(ids[k]));
      c :| 0 <= c < |rest| && rest[c].counter == VisitOrdinal(i);
      c := c + 1;
    } else {
      assert Claims(claims, VisitOrdinal(ids[k]));
      c :| 0 <= c < |claims| && claims[c].counter == VisitOrdinal(i);
    }
  }

  /** How planning moves each counter. */
  lemma PlanCounters(bp: Blueprint, draws: Draws, s: State, ids: seq<nat>, t: int, claims: seq<Claim>, rolls: bool)
    requires KindsKnown(bp, s.items) && Plannable(s, ids) && PlanClaims(bp, draws, s, ids, t, claims, rolls)
    requires SprintOrdinal in s.counters && forall i: nat :: i < |s.items| ==> VisitOrdinal(i) in s.counters
    ensures CountersSeen(s.counters, claims)
    ensures var after := AdvanceCounters(s.counters, claims);
            && after.Keys == s.counters.Keys
            && after[SprintOrdinal] == s.counters[SprintOrdinal] + (if rolls then 1 else 0)
            && forall i: nat :: i < |s.items| ==>
                 after[VisitOrdinal(i)] == s.counters[VisitOrdinal(i)] + Rise(bp, draws, s, ids, t, i)
  {
    PlanClaimsUnique(bp, draws, s, ids, t, claims, rolls);
    forall c | 0 <= c < |claims|
      ensures claims[c].counter in s.counters && s.counters[claims[c].counter] == claims[c].expected
    {
      PlanClaimIs(bp, draws, s, ids, t, claims, rolls, c);
    }
    CounterKeys(s.counters, claims);
    SprintCounterAfter(bp, draws, s, ids, t, claims, rolls);
    forall i: nat | i < |s.items|
      ensures AdvanceCounters(s.counters, claims)[VisitOrdinal(i)] == s.counters[VisitOrdinal(i)] + Rise(bp, draws, s, ids, t, i)
    {
      VisitCounterAfter(bp, draws, s, ids, t, claims, rolls, i);
    }
  }

  lemma SprintCounterAfter(bp: Blueprint, draws: Draws, s: State, ids: seq<nat>, t: int, claims: seq<Claim>, rolls: bool)
    requires KindsKnown(bp, s.items) && Plannable(s, ids) && PlanClaims(bp, draws, s, ids, t, claims, rolls)
    requires UniqueCounters(claims) && SprintOrdinal in s.counters
    ensures SprintOrdinal in AdvanceCounters(s.counters, claims)
    ensures AdvanceCounters(s.counters, claims)[SprintOrdinal] == s.counters[SprintOrdinal] + (if rolls then 1 else 0)
  {
    CounterAfter(s.counters, claims, SprintOrdinal);
    forall c | 0 <= c < |claims| && !(rolls && c == 0) ensures claims[c].counter != SprintOrdinal {
      PlanClaimIs(bp, draws, s, ids, t, claims, rolls, c);
    }
    if rolls {
      assert claims[0].counter == SprintOrdinal;
    }
  }

  lemma VisitCounterAfter(bp: Blueprint, draws: Draws, s: State, ids: seq<nat>, t: int, claims: seq<Claim>, rolls: bool, i: nat)
    requires KindsKnown(bp, s.items) && Plannable(s, ids) && PlanClaims(bp, draws, s, ids, t, claims, rolls)
    requires UniqueCounters(claims) && i < |s.items| && VisitOrdinal(i) in s.counters
    ensures VisitOrdinal(i) in AdvanceCounters(s.counters, claims)
    ensures AdvanceCounters(s.counters, claims)[VisitOrdinal(i)] == s.counters[VisitOrdinal(i)] + Rise(bp, draws, s, ids, t, i)
  {
    CounterAfter(s.counters, claims, VisitOrdinal(i));
    if i in ids && Opens(bp, draws, s.items, i, t) {
      var c := PlanClaimExists(bp, draws, s, ids, t, claims, rolls, i);
      PlanClaimIs(bp, draws, s, ids, t, claims, rolls, c);
    } else {
      forall c | 0 <= c < |claims| ensures claims[c].counter != VisitOrdinal(i) {
        PlanClaimIs(bp, draws, s, ids, t, claims, rolls, c);
      }
    }
  }

  // ---------- Any planning step ----------

  /** o takes ids into a sprint; it rolls a sprint over exactly when it claims a sprint ordinal. */
  ghost predicate Plans(bp: Blueprint, draws: Draws, s: State, ids: seq<nat>, t: int, o: Outcome, rolls: bool)
    requires KindsKnown(bp, s.items) && Plannable(s, ids)
  {
    && o.after == s.(items := Activated(bp, draws, s.items, ids, t),
                     visits := s.visits + Opened(bp, draws, s.items, ids, t),
                     sprints := o.after.sprints, scope := o.after.scope)
    && PlanClaims(bp, draws, s, ids, t, o.claims, rolls) && o.naturals == []
    && s.sprints.Keys <= o.after.sprints.Keys && s.scope.Keys <= o.after.scope.Keys
    && (rolls ==> var k := Next(s, SprintOrdinal);
                  k in o.after.sprints && k !in s.sprints && o.after.sprints[k].ordinal == k)
  }

  lemma PlanAccepted(bp: Blueprint, draws: Draws, s: State, ids: seq<nat>, t: int, o: Outcome, rolls: bool)
    requires ValidRoutes(bp) && ItemsOk(bp, s) && KindsKnown(bp, s.items) && Plannable(s, ids)
    requires Plans(bp, draws, s, ids, t, o, rolls) && SprintOrdinal in s.counters
    ensures Accepted(s, o)
  {
    CountersKnown(bp, s);
    PlanCounters(bp, draws, s, ids, t, o.claims, rolls);
    PlanGrows(bp, draws, s, ids, t, o, rolls);
    PlanValid(bp, draws, s, ids, t, o, rolls, CommandFor(s, o).writes);
  }

  lemma PlanGrows(bp: Blueprint, draws: Draws, s: State, ids: seq<nat>, t: int, o: Outcome, rolls: bool)
    requires KindsKnown(bp, s.items) && Plannable(s, ids) && Plans(bp, draws, s, ids, t, o, rolls)
    ensures Grows(s, o.after)
  {
  }

  lemma PlanValid(bp: Blueprint, draws: Draws, s: State, ids: seq<nat>, t: int, o: Outcome, rolls: bool, w: WriteSet)
    requires ValidRoutes(bp) && ItemsOk(bp, s) && KindsKnown(bp, s.items) && Plannable(s, ids)
    requires Plans(bp, draws, s, ids, t, o, rolls) && Grows(s, o.after) && w == CommandFor(s, o).writes
    ensures ValidClaims(w, o.claims, o.naturals)
  {
    var claims := o.claims;
    PlanClaimsUnique(bp, draws, s, ids, t, claims, rolls);
    forall c | 0 <= c < |claims|
      ensures claims[c].count == 1 && !claims[c].counter.Occurrence? && Written(w, claims[c].counter, claims[c].expected)
    {
      PlanClaimIs(bp, draws, s, ids, t, claims, rolls, c);
      PlanWritten(bp, draws, s, ids, t, o, rolls, c);
    }
    SingleClaimsValid(w, claims);
  }

  lemma SingleClaimsValid(w: WriteSet, claims: seq<Claim>)
    requires UniqueCounters(claims)
    requires forall c :: 0 <= c < |claims| ==>
               claims[c].count == 1 && !claims[c].counter.Occurrence? && Written(w, claims[c].counter, claims[c].expected)
    ensures ValidClaims(w, claims, [])
  {
    forall c, k: nat | 0 <= c < |claims| && claims[c].expected <= k < claims[c].expected + claims[c].count
      ensures Written(w, claims[c].counter, k)
    {
      assert k == claims[c].expected;
    }
  }

  lemma PlanWritten(bp: Blueprint, draws: Draws, s: State, ids: seq<nat>, t: int, o: Outcome, rolls: bool, c: nat)
    requires ValidRoutes(bp) && ItemsOk(bp, s) && KindsKnown(bp, s.items) && Plannable(s, ids)
    requires Plans(bp, draws, s, ids, t, o, rolls) && c < |o.claims|
    ensures Grows(s, o.after) && Written(CommandFor(s, o).writes, o.claims[c].counter, o.claims[c].expected) && o.claims[c].count == 1
  {
    PlanClaimIs(bp, draws, s, ids, t, o.claims, rolls, c);
    if !(rolls && c == 0) {
      var i := o.claims[c].counter.item;
      var k :| 0 <= k < |ids| && ids[k] == i;
      assert ItemHolds(bp, s, i);
      PlannedVisits(bp, draws, s, ids, t, i, 0);
    }
  }

  lemma PlanKeepsItems(bp: Blueprint, draws: Draws, s: State, ids: seq<nat>, t: int, o: Outcome, rolls: bool)
    requires ValidRoutes(bp) && ItemsOk(bp, s) && KindsKnown(bp, s.items) && Plannable(s, ids)
    requires Plans(bp, draws, s, ids, t, o, rolls) && SprintOrdinal in s.counters
    ensures ItemsOk(bp, Committed(s, o))
  {
    CountersKnown(bp, s);
    PlanCounters(bp, draws, s, ids, t, o.claims, rolls);
    forall i: nat | i < |s.items| ensures ItemHolds(bp, Committed(s, o), i) {
      PlanKeepsItem(bp, draws, s, ids, t, o, rolls, i);
    }
    PlannedKeys(bp, draws, s, ids, t);
  }

  lemma PlanKeepsItem(bp: Blueprint, draws: Draws, s: State, ids: seq<nat>, t: int, o: Outcome, rolls: bool, i: nat)
    requires ValidRoutes(bp) && ItemsOk(bp, s) && KindsKnown(bp, s.items) && Plannable(s, ids) && i < |s.items|
    requires Plans(bp, draws, s, ids, t, o, rolls) && VisitOrdinal(i) in s.counters
    requires VisitOrdinal(i) in AdvanceCounters(s.counters, o.claims)
    requires AdvanceCounters(s.counters, o.claims)[VisitOrdinal(i)] == s.counters[VisitOrdinal(i)] + Rise(bp, draws, s, ids, t, i)
    ensures ItemHolds(bp, Committed(s, o), i)
  {
    PlanItem(bp, draws, t, s, ids, i);
    HoldsFrom(bp, Committed(s, o), i, s.visits + Opened(bp, draws, s.items, ids, t), Activated(bp, draws, s.items, ids, t)[i],
              s.counters[VisitOrdinal(i)] + Rise(bp, draws, s, ids, t, i));
  }

  lemma HoldsFrom(bp: Blueprint, s: State, i: nat, visits: Visits, item: Item, n: nat)
    requires i < |s.items| && s.visits == visits && s.items[i] == item
    requires VisitOrdinal(i) in s.counters && s.counters[VisitOrdinal(i)] == n && ItemOk(bp, visits, item, i, n)
    ensures ItemHolds(bp, s, i)
  {
  }

  lemma PlannedKeys(bp: Blueprint, draws: Draws, s: State, ids: seq<nat>, t: int)
    requires ItemsOk(bp, s) && KindsKnown(bp, s.items)
    ensures forall i: nat, k: nat :: (i, k) in s.visits + Opened(bp, draws, s.items, ids, t) ==> i < |s.items|
  {
    forall i: nat, k: nat | (i, k) in s.visits + Opened(bp, draws, s.items, ids, t) ensures i < |s.items| {
      PlannedVisits(bp, draws, s, ids, t, i, k);
    }
  }
}
