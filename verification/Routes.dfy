/** Workflow routes: which step a visit is at, which timed step comes next, and the visits that
    activation and transition open. */
module Routes {
  import opened BusinessCalendar
  import opened Allocation
  import opened Team

  /** Sampled durations and risk outcomes, as the seeded draws give them. */
  datatype Draws = Draws(
    touch: (nat, nat, Key) -> nat, dwell: (nat, nat, Key) -> nat, target: nat -> real,
    cancels: (State, nat) -> bool, depends: (State, nat) -> bool, absence: (State, nat) -> nat)

  /** Sampled units lie in [0, 1). */
  ghost predicate ValidDraws(draws: Draws) {
    forall k :: 0.0 <= draws.target(k) < 1.0
  }

  predicate Timed(bp: Blueprint, step: Step) {
    step.status in bp.statuses && bp.statuses[step.status].consumes && step.activity.Some?
  }

  /** The first timed step at or after position p. */
  function NextTimed(bp: Blueprint, steps: seq<Step>, p: nat): (r: Option<nat>)
    ensures r.Some? ==> p <= r.value < |steps| && Timed(bp, steps[r.value])
    ensures forall k :: p <= k < (if r.Some? then r.value else |steps|) ==> !Timed(bp, steps[k])
    decreases |steps| - p
  {
    if p >= |steps| then None
    else if Timed(bp, steps[p]) then Some(p)
    else NextTimed(bp, steps, p + 1)
  }

  /** The first step with this status. */
  function Position(steps: seq<Step>, status: Key, p: nat): (r: Option<nat>)
    ensures r.Some? ==> p <= r.value < |steps| && steps[r.value].status == status
    ensures forall k :: p <= k < (if r.Some? then r.value else |steps|) ==> steps[k].status != status
    decreases |steps| - p
  {
    if p >= |steps| then None
    else if steps[p].status == status then Some(p)
    else Position(steps, status, p + 1)
  }

  /** The first member with the activity. */
  function FirstCapable(bp: Blueprint, activity: Key, j: nat): (r: Option<nat>)
    ensures r.Some? ==> j <= r.value < |bp.members| && activity in bp.members[r.value].skill
    ensures forall k :: j <= k < (if r.Some? then r.value else |bp.members|) ==> activity !in bp.members[k].skill
    decreases |bp.members| - j
  {
    if j >= |bp.members| then None
    else if activity in bp.members[j].skill then Some(j)
    else FirstCapable(bp, activity, j + 1)
  }

  /** Routes have steps and end in an untimed one; every required activity has a capable member. */
  ghost predicate ValidRoutes(bp: Blueprint) {
    forall kind :: kind in bp.routes ==> ValidRoute(bp, bp.routes[kind])
  }

  ghost predicate ValidRoute(bp: Blueprint, steps: seq<Step>) {
    && |steps| >= 2
    && !Timed(bp, steps[|steps| - 1])
    && forall p :: 0 <= p < |steps| && steps[p].activity.Some? ==> FirstCapable(bp, steps[p].activity.value, 0).Some?
  }

  function NewVisit(draws: Draws, i: nat, ordinal: nat, step: Step, member: Option<nat>, t: int): Visit
    requires step.activity.Some?
  {
    var required := draws.touch(i, ordinal, step.status);
    Visit(i, ordinal, true, step.status, step.activity.value, member, t, None,
          required, 0, required, 0, 0, 0, draws.dwell(i, ordinal, step.status))
  }

  /** What happens to an item: its new row, and the visit that opens, if any. */
  datatype Move = Move(item: Item, visit: Option<Visit>)

  /** Taking an item into a sprint opens its first timed step, with its first capable member; an item
      without timed steps is done at once. */
  function Activate(bp: Blueprint, draws: Draws, i: nat, item: Item, t: int): Move
    requires item.kind in bp.routes && |bp.routes[item.kind]| > 0
  {
    var steps := bp.routes[item.kind];
    var first := NextTimed(bp, steps, 0);
    if first.None? then Move(item.(life := Done, status := steps[|steps| - 1].status), None)
    else
      var step := steps[first.value];
      Move(item.(life := Active, status := step.status),
           Some(NewVisit(draws, i, 0, step, FirstCapable(bp, step.activity.value, 0), t)))
  }

  /** Leaving a step opens the next timed step, unowned; without one the item is done, in the last
      step of its route. */
  function Leave(bp: Blueprint, draws: Draws, i: nat, ordinal: nat, item: Item, status: Key, t: int): Move
    requires item.kind in bp.routes && Position(bp.routes[item.kind], status, 0).Some?
  {
    var steps := bp.routes[item.kind];
    var next := NextTimed(bp, steps, Position(steps, status, 0).value + 1);
    if next.None? then Move(item.(life := Done, status := steps[|steps| - 1].status), None)
    else
      Move(item.(status := steps[next.value].status), Some(NewVisit(draws, i, ordinal, steps[next.value], None, t)))
  }

  // ---------- Timed steps still ahead ----------

  /** Timed steps at or after position p. */
  function TimedAhead(bp: Blueprint, steps: seq<Step>, p: nat): nat
    decreases |steps| - p
  {
    if p >= |steps| then 0 else TimedAhead(bp, steps, p + 1) + if Timed(bp, steps[p]) then 1 else 0
  }

  lemma {:induction false} SkipsUntimed(bp: Blueprint, steps: seq<Step>, p: nat)
    ensures var next := NextTimed(bp, steps, p);
            TimedAhead(bp, steps, p) == if next.None? then 0 else TimedAhead(bp, steps, next.value)
    decreases |steps| - p
  {
    if p < |steps| && !Timed(bp, steps[p]) {
      SkipsUntimed(bp, steps, p + 1);
    }
  }

  /** No timed step repeats the status of an earlier step. */
  ghost predicate DistinctStatuses(bp: Blueprint, steps: seq<Step>) {
    forall q :: 0 <= q < |steps| && Timed(bp, steps[q]) ==> Position(steps, steps[q].status, 0) == Some(q)
  }

  lemma {:induction false} PositionFound(steps: seq<Step>, p: nat, q: nat)
    requires p <= q < |steps|
    ensures var r := Position(steps, steps[q].status, p); r.Some? && p <= r.value <= q
    decreases |steps| - p
  {
    if steps[p].status != steps[q].status {
      PositionFound(steps, p + 1, q);
    }
  }

  /** Leaving a timed step leaves one timed step fewer ahead. */
  lemma LeavingProgresses(bp: Blueprint, steps: seq<Step>, p: nat)
    requires DistinctStatuses(bp, steps) && p < |steps| && Timed(bp, steps[p])
    ensures Position(steps, steps[p].status, 0) == Some(p)
    ensures var next := NextTimed(bp, steps, p + 1);
            TimedAhead(bp, steps, p) == 1 + if next.Some? then TimedAhead(bp, steps, next.value) else 0
  {
    SkipsUntimed(bp, steps, p + 1);
  }

  // ---------- When a route comes to an end ----------

  /** The timed status an item is in after n completions, if it is not done by then. */
  function StatusAfter(bp: Blueprint, steps: seq<Step>, status: Key, n: nat): Option<Key>
    decreases n
  {
    if n == 0 then Some(status)
    else
      var p := Position(steps, status, 0);
      var next := if p.Some? then NextTimed(bp, steps, p.value + 1) else None;
      if next.None? then None else StatusAfter(bp, steps, steps[next.value].status, n - 1)
  }

  lemma {:induction false} EndsWithin(bp: Blueprint, steps: seq<Step>, p: nat)
    requires DistinctStatuses(bp, steps) && p < |steps| && Timed(bp, steps[p])
    ensures StatusAfter(bp, steps, steps[p].status, TimedAhead(bp, steps, p)).None?
    decreases |steps| - p
  {
    LeavingProgresses(bp, steps, p);
    var next := NextTimed(bp, steps, p + 1);
    if next.Some? {
      EndsWithin(bp, steps, next.value);
    }
  }

  lemma {:induction false} NeverEnds(bp: Blueprint, steps: seq<Step>, q: nat, status: Key, n: nat)
    requires q < |steps| && Timed(bp, steps[q]) && Position(steps, steps[q].status, 0) != Some(q)
    requires Position(steps, status, 0).Some? && Position(steps, status, 0).value < q
    ensures StatusAfter(bp, steps, status, n).Some?
    decreases n
  {
    if n > 0 {
      var next := NextTimed(bp, steps, Position(steps, status, 0).value + 1);
      assert next.Some? && next.value <= q;
      PositionFound(steps, 0, next.value);
      NeverEnds(bp, steps, q, steps[next.value].status, n - 1);
    }
  }

  ghost predicate ComesToEnd(bp: Blueprint, steps: seq<Step>, status: Key) {
    exists n: nat :: StatusAfter(bp, steps, status, n).None?
  }

  /** An item that starts on a route is done after finitely many completions exactly when no timed step
      repeats the status of an earlier step. */
  lemma RouteEndsIff(bp: Blueprint, steps: seq<Step>)
    requires NextTimed(bp, steps, 0).Some?
    ensures ComesToEnd(bp, steps, steps[NextTimed(bp, steps, 0).value].status) <==> DistinctStatuses(bp, steps)
  {
    var f := NextTimed(bp, steps, 0).value;
    if DistinctStatuses(bp, steps) {
      EndsWithin(bp, steps, f);
    } else {
      var q :| 0 <= q < |steps| && Timed(bp, steps[q]) && Position(steps, steps[q].status, 0) != Some(q);
      PositionFound(steps, 0, q);
      PositionFound(steps, 0, f);
      assert f <= q;
      forall n: nat ensures StatusAfter(bp, steps, steps[f].status, n).Some? {
        NeverEnds(bp, steps, q, steps[f].status, n);
      }
    }
  }
}
