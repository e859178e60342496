/** The live scheduler on one team: the tick service, catching up, and resuming after a restart. */
module Scheduler {
  import opened BusinessCalendar
  import opened Allocation
  import opened Team
  import opened FirstCompletion
  import opened Commands
  import opened Routes
  import opened RunInvariant
  import opened Lifecycle
  import opened SprintRun
  import opened RiskLaws
  import opened Tick
  import opened Finish
  import opened Steps
  import opened Progress

  // ---------- Closing visits, as the loop does it ----------

  ghost function FinishedTo(bp: Blueprint, draws: Draws, working: State, slots: seq<Slot>, end: int, n: nat): Visits
    requires Placed(bp, working.items, slots)
  {
    map i: nat | i < n && i < |slots| && !slots[i].Idle?
      :: (i, slots[i].visit.ordinal) := ClosingAt(bp, draws, working, slots, end, i).visit
  }

  ghost function OpenedTo(bp: Blueprint, draws: Draws, working: State, slots: seq<Slot>, end: int, n: nat): Visits
    requires Placed(bp, working.items, slots)
  {
    map i: nat | i < n && i < |slots| && OpensNext(bp, draws, working, slots, end, i)
      :: (i, Next(working, VisitOrdinal(i))) := ClosingAt(bp, draws, working, slots, end, i).next.value
  }

  method CloseOne(bp: Blueprint, draws: Draws, i: nat, ordinal: nat, item: Item, slot: Slot, end: int) returns (c: Closing)
    requires Valid(bp.calendar) && bp.calendar.date(end) <= bp.calendar.horizon && !slot.Idle?
    requires slot.visit.remaining == 0 ==> slot.visit.entered <= end
    requires item.kind in bp.routes && Position(bp.routes[item.kind], slot.visit.status, 0).Some?
    ensures c == Close(bp, draws, i, ordinal, item, slot, end)
  {
    var v := slot.visit;
    var done := false;
    if v.remaining == 0 {
      var clock := ReadClock(bp.calendar, slot, end);
      done := Max(0, clock - v.pause) >= v.dwell;
    }
    if done {
      var move := Leave(bp, draws, i, ordinal, item, v.status, end);
      c := Closing(move.item, v.(open := false, closed := Some(end)), move.visit);
    } else {
      c := Closing(item, v, None);
    }
  }

  lemma FinishedNext(bp: Blueprint, draws: Draws, working: State, slots: seq<Slot>, end: int, i: nat)
    requires Placed(bp, working.items, slots) && i < |slots|
    ensures FinishedTo(bp, draws, working, slots, end, i + 1) ==
            if slots[i].Idle? then FinishedTo(bp, draws, working, slots, end, i)
            else FinishedTo(bp, draws, working, slots, end, i)[(i, slots[i].visit.ordinal) := ClosingAt(bp, draws, working, slots, end, i).visit]
  {
  }

  lemma OpenedNext(bp: Blueprint, draws: Draws, working: State, slots: seq<Slot>, end: int, i: nat)
    requires Placed(bp, working.items, slots) && i < |slots|
    ensures OpenedTo(bp, draws, working, slots, end, i + 1) ==
            if !OpensNext(bp, draws, working, slots, end, i) then OpenedTo(bp, draws, working, slots, end, i)
            else OpenedTo(bp, draws, working, slots, end, i)
                   [(i, Next(working, VisitOrdinal(i))) := ClosingAt(bp, draws, working, slots, end, i).next.value]
  {
    if !OpensNext(bp, draws, working, slots, end, i) {
      NoneOpened(bp, draws, working, slots, end, i);
    }
  }

  lemma NoneOpened(bp: Blueprint, draws: Draws, working: State, slots: seq<Slot>, end: int, i: nat)
    requires Placed(bp, working.items, slots) && i < |slots| && !OpensNext(bp, draws, working, slots, end, i)
    ensures OpenedTo(bp, draws, working, slots, end, i + 1) == OpenedTo(bp, draws, working, slots, end, i)
  {
  }

  lemma AllFinished(bp: Blueprint, draws: Draws, working: State, slots: seq<Slot>, end: int)
    requires Placed(bp, working.items, slots)
    ensures FinishedTo(bp, draws, working, slots, end, |slots|) == FinishVisits(bp, draws, working, slots, end)
    ensures OpenedTo(bp, draws, working, slots, end, |slots|) == NextVisits(bp, draws, working, slots, end)
  {
  }

  lemma FinishedIs(bp: Blueprint, draws: Draws, a: Attempted, items: seq<Item>, closed: Visits, next: Visits, claims: seq<Claim>)
    requires var working, slots := a.risks.working, a.lane.slots;
             && Placed(bp, working.items, slots)
             && items == FinishItems(bp, draws, working, slots, a.end)[..|slots|]
             && closed == FinishedTo(bp, draws, working, slots, a.end, |slots|)
             && next == OpenedTo(bp, draws, working, slots, a.end, |slots|)
             && claims == NextClaims(bp, draws, working, slots, a.end, |slots|)
    ensures FinishTick(bp, draws, a)
            == Outcome(a.risks.working.(cursor := a.end, items := items, visits := a.risks.working.visits + closed + next, book := a.lane.book),
                       a.risks.claims + claims, a.risks.naturals)
  {
    AllFinished(bp, draws, a.risks.working, a.lane.slots, a.end);
  }

  /** The loop over visits: close what is complete, open what follows, leave the rest. A clock that cannot
      be read fails the whole tick, so it makes no difference at which visit. */
  method FinishAll(bp: Blueprint, draws: Draws, a: Attempted) returns (r: Reading<Outcome>)
    requires Valid(bp.calendar) && bp.calendar.date(a.end) <= bp.calendar.horizon
    requires Placed(bp, a.risks.working.items, a.lane.slots)
    ensures r == if FinishReadable(a.lane.slots, a.end) then Read(FinishTick(bp, draws, a)) else Backwards
  {
    var working, slots := a.risks.working, a.lane.slots;
    if !FinishReadable(slots, a.end) {
      return Backwards;
    }
    var items: seq<Item>, closed: Visits, next: Visits, claims: seq<Claim> := [], map[], map[], [];
    for i := 0 to |slots|
      invariant items == FinishItems(bp, draws, working, slots, a.end)[..i]
      invariant closed == FinishedTo(bp, draws, working, slots, a.end, i)
      invariant next == OpenedTo(bp, draws, working, slots, a.end, i)
      invariant claims == NextClaims(bp, draws, working, slots, a.end, i)
    {
      FinishedNext(bp, draws, working, slots, a.end, i);
      OpenedNext(bp, draws, working, slots, a.end, i);
      if slots[i].Idle? {
        items := items + [working.items[i]];
      } else {
        var c := CloseOne(bp, draws, i, Next(working, VisitOrdinal(i)), working.items[i], slots[i], a.end);
        items := items + [c.item];
        closed := closed[(i, slots[i].visit.ordinal) := c.visit];
        if c.next.Some? {
          next := next[(i, Next(working, VisitOrdinal(i))) := c.next.value];
          claims := claims + [Claim(VisitOrdinal(i), Next(working, VisitOrdinal(i)), 1)];
        }
      }
    }
    FinishedIs(bp, draws, a, items, closed, next, claims);
    r := Read(Outcome(working.(cursor := a.end, items := items, visits := working.visits + closed + next, book := a.lane.book),
                      a.risks.claims + claims, a.risks.naturals));
  }

  // ---------- The persisted state ----------

  /** One team's persisted state behind the unit of work. */
  class TeamStore {
    var state: State

    constructor (initial: State)
      ensures state == initial
    {
      state := initial;
    }

    /** Apply a command if it is current and valid; refuse it, changing nothing, if it is not. */
    method Apply(cmd: Command) returns (r: Result<State>)
      modifies this
      ensures r == Commit(old(state), cmd)
      ensures state == if r.Ok? then r.value else old(state)
    {
      r := Commit(state, cmd);
      if r.Ok? {
        state := r.value;
      }
    }
  }

  /** One tick of the service: load, calculate, commit; a tick that fails commits nothing. */
  method TickTeam(bp: Blueprint, draws: Draws, store: TeamStore, requested: int, ghost now: int) returns (ok: bool)
    requires ValidBlueprint(bp) && Standing(bp, store.state, now) && store.state.cursor <= requested
    requires bp.calendar.date(requested) <= bp.calendar.horizon
    modifies store
    ensures StepReady(bp, old(store.state)) && (ok <==> StepReadable(bp, draws, old(store.state), requested))
    ensures store.state == if ok then Committed(old(store.state), StepFrom(bp, draws, old(store.state), requested)) else old(store.state)
  {
    var s := store.state;
    StandingParts(bp, s, now);
    if StepReadable(bp, draws, s, requested) {
      StepStands(bp, draws, s, now, requested);
    }
    var crossing := Cross(bp, draws, s, s.cursor);
    if crossing.Some? {
      var _ := store.Apply(CommandFor(s, crossing.value));
      return true;
    }
    var o := AdvanceTeam(bp, draws, s, requested);
    if o.Backwards? {
      return false;
    }
    var _ := store.Apply(CommandFor(s, o.value));
    return true;
  }

  method AdvanceTeam(bp: Blueprint, draws: Draws, s: State, requested: int) returns (r: Reading<Outcome>)
    requires StepReady(bp, s) && s.cursor <= requested && CrossBoundary(bp, draws, s, s.cursor).None?
    requires bp.calendar.date(requested) <= bp.calendar.horizon
    ensures r == if StepReadable(bp, draws, s, requested) then Read(StepFrom(bp, draws, s, requested)) else Backwards
  {
    EffectiveEndBounds(bp, s, requested);
    var e := FindEnd(bp, s, requested);
    WithinHorizon(bp.calendar, e, requested);
    var a := RiskAwareAdvance(bp, draws, s, e);
    if a.Backwards? {
      return Backwards;
    }
    WithinHorizon(bp.calendar, a.value.end, e);
    AdvanceFromIs(bp, draws, s, requested, a.value);
    r := FinishAll(bp, draws, a.value);
  }

  lemma WithinHorizon(c: Calendar, t: int, u: int)
    requires Valid(c) && t <= u && c.date(u) <= c.horizon
    ensures c.date(t) <= c.horizon
  {
  }

  lemma AdvanceFromIs(bp: Blueprint, draws: Draws, s: State, requested: int, a: Attempted)
    requires StepReady(bp, s) && s.cursor <= requested
    requires s.cursor <= EffectiveEnd(bp, s, requested) && NotPast(bp, s, EffectiveEnd(bp, s, requested))
    requires a == Stable(bp, draws, s, EffectiveEnd(bp, s, requested))
    ensures a == AdvanceFrom(bp, draws, s, requested) && Placed(bp, a.risks.working.items, a.lane.slots)
  {
  }

  // ---------- Which boundary is due ----------

  function BoundaryFor(sprint: Sprint): Option<int> {
    match sprint.phase
    case Planned => Some(sprint.start)
    case Running => Some(sprint.end)
    case Completed => None
  }

  /** The least boundary in [lo, hi] of the sprints below ordinal n. */
  function EarliestDue(sprints: map<nat, Sprint>, lo: int, hi: int, n: nat): Option<int> {
    if n == 0 then None
    else
      var rest := EarliestDue(sprints, lo, hi, n - 1);
      var here := if n - 1 in sprints then BoundaryFor(sprints[n - 1]) else None;
      if here.Some? && lo <= here.value <= hi && (rest.None? || here.value < rest.value) then here else rest
  }

  function DueBoundary(s: State, asOf: int): Option<int> {
    EarliestDue(s.sprints, s.cursor, asOf, Next(s, SprintOrdinal))
  }

  lemma {:induction false} NoneDueBelow(bp: Blueprint, sprints: map<nat, Sprint>, first: nat, m: nat, lo: int, hi: int, n: nat)
    requires Tiled(bp, sprints, first, m) && n <= m
    ensures EarliestDue(sprints, lo, hi, n).None?
  {
    if n > 0 {
      NoneDueBelow(bp, sprints, first, m, lo, hi, n - 1);
    }
  }

  /** Only the open sprint's boundary can be due. */
  lemma DueBoundaryIs(bp: Blueprint, now: int, s: State, first: nat, asOf: int)
    requires SprintsOk(bp, now, s, first)
    ensures DueBoundary(s, asOf) == if s.cursor <= NextBoundary(s) <= asOf then Some(NextBoundary(s)) else None
  {
    NoneDueBelow(bp, s.sprints, first, OpenOrdinal(s), s.cursor, asOf, OpenOrdinal(s));
    assert Next(s, SprintOrdinal) == OpenOrdinal(s) + 1;
  }

  predicate CaughtUp(s: State, asOf: int) {
    s.cursor >= asOf && DueBoundary(s, asOf).None?
  }

  // ---------- Catching up ----------

  /** Whether a boundary is due at the cursor. */
  ghost function DueHere(s: State): nat {
    if AtBoundary(s) then 1 else 0
  }

  /** What a tick leads to comes after its state: caught up, or with (time left, boundary due, timed steps
      left) less. */
  ghost predicate Progresses(bp: Blueprint, s: State, after: State, asOf: int) {
    || CaughtUp(after, asOf) || after.cursor > s.cursor
    || (after.cursor == s.cursor && DueHere(after) < DueHere(s))
    || (after.cursor == s.cursor && DueHere(after) == DueHere(s) && Unfinished(bp, after.items) < Unfinished(bp, s.items))
  }

  /** After any tick that neither fails nor catches up, (time left, boundary due, timed steps left) is
      less, in the middle of a restart as well. */
  lemma TickProgresses(bp: Blueprint, draws: Draws, s: State, now: int, asOf: int)
    requires StepReady(bp, s) && RoutesDistinct(bp) && Standing(bp, s, now) && s.cursor <= asOf && StepReadable(bp, draws, s, asOf)
    ensures var after := Committed(s, StepFrom(bp, draws, s, asOf));
            && Standing(bp, after, Max(now, after.cursor)) && s.cursor <= after.cursor <= asOf
            && Progresses(bp, s, after, asOf)
  {
    StepStands(bp, draws, s, now, asOf);
    if AtBoundary(s) {
      BoundaryCrossed(bp, draws, s, now, asOf);
    } else {
      AdvanceProgresses(bp, draws, s, now, asOf);
    }
  }

  /** A tick at a boundary crosses it without moving, and the next one is later. */
  lemma BoundaryCrossed(bp: Blueprint, draws: Draws, s: State, now: int, asOf: int)
    requires StepReady(bp, s) && Standing(bp, s, now) && s.cursor <= asOf && AtBoundary(s)
    ensures var after := Committed(s, StepFrom(bp, draws, s, asOf)); after.cursor == s.cursor && !AtBoundary(after)
  {
    var first: nat :| Invariant(bp, now, s, first) && s.cursor <= now <= NextBoundary(s);
    CrossingMoves(bp, draws, now, s, first, now);
    CrossingTouchesNothing(bp, draws, now, s, first, now);
  }

  lemma AdvanceProgresses(bp: Blueprint, draws: Draws, s: State, now: int, asOf: int)
    requires StepReady(bp, s) && RoutesDistinct(bp) && Standing(bp, s, now) && s.cursor <= asOf && !AtBoundary(s)
    requires var after := Committed(s, StepFrom(bp, draws, s, asOf)); Standing(bp, after, Max(now, after.cursor)) && after.cursor <= asOf
    ensures var after := Committed(s, StepFrom(bp, draws, s, asOf));
            after.cursor == s.cursor ==>
              DueHere(after) == DueHere(s)
              && (CaughtUp(after, asOf) || Unfinished(bp, after.items) < Unfinished(bp, s.items))
  {
    var after := Committed(s, StepFrom(bp, draws, s, asOf));
    SameBoundary(bp, draws, s, now, asOf);
    if after.cursor == s.cursor {
      if s.cursor < asOf {
        StuckTickProgresses(bp, draws, s, now, asOf);
      } else {
        EndReached(bp, after, Max(now, after.cursor), asOf);
      }
    }
  }

  /** At the requested instant, with no boundary there, the team has caught up. */
  lemma EndReached(bp: Blueprint, s: State, now: int, asOf: int)
    requires ValidBlueprint(bp) && Standing(bp, s, now) && s.cursor == asOf && !AtBoundary(s)
    ensures CaughtUp(s, asOf)
  {
    CaughtUpMeans(bp, s, now, asOf);
  }

  /** An advance leaves the open sprint and its boundary alone. */
  lemma SameBoundary(bp: Blueprint, draws: Draws, s: State, now: int, asOf: int)
    requires StepReady(bp, s) && Standing(bp, s, now) && s.cursor <= asOf && !AtBoundary(s)
    ensures var after := Committed(s, StepFrom(bp, draws, s, asOf));
            && OpenOrdinal(s) in s.sprints && OpenOrdinal(after) in after.sprints && NextBoundary(after) == NextBoundary(s)
            && (after.cursor == s.cursor ==> !AtBoundary(after))
  {
    StandingParts(bp, s, now);
    NoCrossing(bp, draws, s, now);
    StepAdvances(bp, draws, s, asOf);
    SprintsStay(bp, draws, s, AdvanceFrom(bp, draws, s, asOf));
  }

  // ---------- The loop as repeated ticks ----------

  ghost function Repeat(next: State -> State, s: State, n: nat): State {
    if n == 0 then s else next(Repeat(next, s, n - 1))
  }

  /** A tick asked to go on to asOf does not fail. */
  ghost predicate CanTick(bp: Blueprint, draws: Draws, s: State, asOf: int) {
    StepReady(bp, s) && s.cursor <= asOf && StepReadable(bp, draws, s, asOf)
  }

  /** The catch-up loop's step: one tick, asked to go on to asOf; one that fails changes nothing. */
  ghost function TickTo(bp: Blueprint, draws: Draws, asOf: int): State -> State {
    (s: State) => if CanTick(bp, draws, s, asOf) then Committed(s, StepFrom(bp, draws, s, asOf)) else s
  }

  /** These many ticks were made, none failed, and none but the last left the team caught up. */
  ghost predicate Ran(bp: Blueprint, draws: Draws, s: State, asOf: int, ticks: nat) {
    forall k: nat :: k < ticks ==>
      CanTick(bp, draws, Repeat(TickTo(bp, draws, asOf), s, k), asOf)
      && (k > 0 ==> !CaughtUp(Repeat(TickTo(bp, draws, asOf), s, k), asOf))
  }

  lemma RanNext(bp: Blueprint, draws: Draws, s: State, asOf: int, ticks: nat, now: State)
    requires Ran(bp, draws, s, asOf, ticks) && now == Repeat(TickTo(bp, draws, asOf), s, ticks)
    requires CanTick(bp, draws, now, asOf) && (ticks > 0 ==> !CaughtUp(now, asOf))
    ensures Ran(bp, draws, s, asOf, ticks + 1)
    ensures Repeat(TickTo(bp, draws, asOf), s, ticks + 1) == Committed(now, StepFrom(bp, draws, now, asOf))
  {
  }

  /** The catch-up loop, from any state polling may find, one that a broken-off restart left included: it
      makes one tick after another and ends at the first that leaves the team at asOf with no boundary due, or
      at one that fails; from a sound state no tick fails. */
  method CatchUp(bp: Blueprint, draws: Draws, store: TeamStore, asOf: int, ghost now: int) returns (ok: bool, ghost later: int, ghost ticks: nat)
    requires ValidBlueprint(bp) && RoutesDistinct(bp) && Standing(bp, store.state, now) && store.state.cursor <= asOf
    requires bp.calendar.date(asOf) <= bp.calendar.horizon
    modifies store
    ensures Standing(bp, store.state, later) && old(store.state.cursor) <= store.state.cursor <= asOf
    ensures store.state == Repeat(TickTo(bp, draws, asOf), old(store.state), ticks) && Ran(bp, draws, old(store.state), asOf, ticks)
    ensures ok ==> ticks > 0 && store.state.cursor == asOf && OpenOrdinal(store.state) in store.state.sprints && NextBoundary(store.state) > asOf
    ensures !ok ==> StepReady(bp, store.state) && !StepReadable(bp, draws, store.state, asOf)
    ensures Sound(bp, old(store.state)) ==> ok && Sound(bp, store.state)
  {
    later, ticks := now, 0;
    ghost var start := store.state;
    while true
      invariant Standing(bp, store.state, later) && start.cursor <= store.state.cursor <= asOf
      invariant store.state == Repeat(TickTo(bp, draws, asOf), start, ticks) && Ran(bp, draws, start, asOf, ticks)
      invariant ticks > 0 ==> !CaughtUp(store.state, asOf)
      invariant Sound(bp, start) ==> Sound(bp, store.state)
      decreases asOf - store.state.cursor, DueHere(store.state), Unfinished(bp, store.state.items)
    {
      var before := store.state;
      StandingParts(bp, before, later);
      StaysSound(bp, draws, before, asOf);
      ok := TickTeam(bp, draws, store, asOf, later);
      if !ok {
        return;
      }
      TickProgresses(bp, draws, before, later, asOf);
      RanNext(bp, draws, start, asOf, ticks, before);
      later, ticks := Max(later, store.state.cursor), ticks + 1;
      if CaughtUp(store.state, asOf) {
        CaughtUpMeans(bp, store.state, later, asOf);
        return;
      }
    }
  }

  /** Sound states stay sound, and no tick from them fails. */
  lemma StaysSound(bp: Blueprint, draws: Draws, s: State, asOf: int)
    requires StepReady(bp, s) && s.cursor <= asOf
    ensures Sound(bp, s) ==> StepReadable(bp, draws, s, asOf) && Sound(bp, Committed(s, StepFrom(bp, draws, s, asOf)))
  {
    if Sound(bp, s) {
      SoundReadable(bp, draws, s, asOf);
      TickStepSound(bp, draws, s, asOf);
    }
  }

  lemma CaughtUpMeans(bp: Blueprint, s: State, now: int, asOf: int)
    requires ValidBlueprint(bp) && Standing(bp, s, now) && s.cursor <= asOf
    ensures OpenOrdinal(s) in s.sprints && (CaughtUp(s, asOf) <==> s.cursor == asOf && NextBoundary(s) > asOf)
  {
    var first: nat :| Invariant(bp, now, s, first) && s.cursor <= now <= NextBoundary(s);
    DueBoundaryIs(bp, now, s, first, asOf);
  }
}
