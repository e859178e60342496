/** Concrete teams on which the code does not do what it is for. */
module Counterexamples {
  import opened BusinessCalendar
  import opened Days
  import opened Team
  import opened Routes
  import opened RunInvariant
  import opened Bootstrap
  import opened Steps
  import opened Histories
  import opened Scheduler
  import opened Loops

  // ---------- A team ----------

  /** One long day, worked from instant 0 for a thousand microseconds. */
  function OneLongDay(): Calendar {
    EqualDays(1000, 0, d => if d == 0 then Some(Interval(0, 1000)) else None, 1000)
  }

  lemma OneLongDayValid()
    ensures Valid(OneLongDay()) && ValidClock(OneLongDay()) && Working(OneLongDay(), 0)
  {
    EqualDaysValid(1000, 0, OneLongDay().work, 1000);
  }

  /** One member, two working statuses and a final one, no risk rules, one point a sprint, one-day sprints
      from instant 0. */
  function OneMemberTeam(route: seq<Step>): Blueprint {
    Blueprint(OneLongDay(), [Member(100, 1, map[0 := 1.0], [])],
              map[0 := Status(true, false), 1 := Status(true, false), 2 := Status(false, false)],
              map[0 := route], [], 1, 1, 0, 1)
  }

  ghost predicate PlainRoute(route: seq<Step>) {
    && |route| >= 2 && route[|route| - 1] == Step(2, None)
    && forall p :: 0 <= p < |route| && route[p].activity.Some? ==> route[p].activity == Some(0)
  }

  lemma OneMemberRoute(route: seq<Step>)
    requires PlainRoute(route)
    ensures ValidRoutes(OneMemberTeam(route))
  {
    var bp := OneMemberTeam(route);
    assert FirstCapable(bp, 0, 0) == Some(0);
    assert ValidRoute(bp, route);
  }

  lemma OneMemberValid(route: seq<Step>)
    requires PlainRoute(route)
    ensures ValidBlueprint(OneMemberTeam(route)) && ValidWindows(OneMemberTeam(route), [])
  {
    OneLongDayValid();
    OneMemberRoute(route);
  }

  lemma FirstSprint(route: seq<Step>)
    ensures Contains(OneMemberTeam(route), 0, 0)
  {
  }

  // ---------- A route that repeats a status ----------

  /** Development, review, development again, done. */
  function ReworkRoute(): seq<Step> {
    [Step(0, Some(0)), Step(1, Some(0)), Step(0, Some(0)), Step(2, None)]
  }

  lemma ReworkRepeats()
    ensures PlainRoute(ReworkRoute()) && OneMemberTeam(ReworkRoute()).routes[0] == ReworkRoute()
    ensures Timed(OneMemberTeam(ReworkRoute()), ReworkRoute()[2]) && Position(ReworkRoute(), ReworkRoute()[2].status, 0) == Some(0)
  {
  }

  lemma ReworkMayLoop()
    ensures MayLoop(OneMemberTeam(ReworkRoute()), 0, 2, 0, 0)
  {
    ReworkRepeats();
    OneMemberValid(ReworkRoute());
    OneLongDayValid();
    FirstSprint(ReworkRoute());
  }

  lemma StartsAndLoops(bp: Blueprint, q: nat) returns (s: State)
    requires MayLoop(bp, 0, q, 0, 0)
    ensures !AlwaysEnds(bp) && Reachable(bp, s) && Sound(bp, s) && s.cursor == 0
    ensures ValidDraws(StillDraws(bp)) && !LoopEnds(bp, StillDraws(bp), s, 1)
    ensures forall n: nat :: Repeat(TickTo(bp, StillDraws(bp), 1), s, n).cursor == 0
  {
    RepeatingRouteLoops(bp, 0, q, 0, 0);
    StillDrawsValid(bp, 0);
    StartsLooping(bp, 0, q, 0, 0);
    StartsReachable(bp, 0, q, 0, 0);
    s := LoopStart(bp, 0, 0, 0);
    NeverCatchesUp(bp, StillDraws(bp), s, 0, 0, q, 1);
  }

  /** A team whose route repeats a status, and whose work takes no time, can start in a state from which
      every tick is committed and none moves the cursor. */
  lemma ReworkNeverCatchesUp() returns (s: State)
    ensures var bp := OneMemberTeam(ReworkRoute());
            && ValidBlueprint(bp) && !AlwaysEnds(bp)
            && Reachable(bp, s) && Sound(bp, s) && s.cursor == 0
            && ValidDraws(StillDraws(bp)) && !LoopEnds(bp, StillDraws(bp), s, 1)
            && forall n: nat :: Repeat(TickTo(bp, StillDraws(bp), 1), s, n).cursor == 0
  {
    ReworkMayLoop();
    s := StartsAndLoops(OneMemberTeam(ReworkRoute()), 2);
  }
}
