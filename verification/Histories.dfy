/** Whole histories of a team, from its first state through ticks and restarts, whole or broken off. */
module Histories {
  import opened Team
  import opened Commands
  import opened Routes
  import opened RunInvariant
  import opened Lifecycle
  import opened SprintRun
  import opened Scope
  import opened Bootstrap
  import opened Steps
  import opened Decisions
  import opened WaitRuns
  import opened Restart

  /** A committed tick; a restart after downtime with some number of crossings; a restart broken off after
      some of its commits. Ticks and restarts that fail commit nothing more and are no events. */
  datatype Event =
    | Ticked(draws: Draws, requested: int)
    | Restarted(draws: Draws, asOf: int, crossed: nat)
    | Interrupted(draws: Draws, asOf: int, crossed: nat)

  ghost predicate Happens(bp: Blueprint, s: State, event: Event, t: State) {
    && ValidDraws(event.draws)
    && match event
       case Ticked(draws, requested) =>
         StepReady(bp, s) && s.cursor <= requested && StepReadable(bp, draws, s, requested)
         && t == Committed(s, StepFrom(bp, draws, s, requested))
       case Restarted(draws, asOf, crossed) => s.cursor < asOf && Resumes(bp, draws, s, asOf, crossed, t)
       case Interrupted(draws, asOf, crossed) =>
         s.cursor < asOf && AllDue(bp, draws, s, asOf, crossed) && t == LeftAfter(bp, draws, s, crossed)
  }

  /** The state a run starts in, for some backlog, instant and draws. */
  ghost predicate Begins(bp: Blueprint, s: State) {
    exists draws, backlog, k: nat :: BeginsWith(bp, s, draws, backlog, k)
  }

  ghost predicate BeginsWith(bp: Blueprint, s: State, draws: Draws, backlog: seq<Item>, k: nat) {
    ValidDraws(draws) && Fresh(bp, backlog) && KindsKnown(bp, backlog) && Contains(bp, k, s.cursor) && s == InitialState(bp, draws, backlog, s.cursor, k)
  }

  ghost predicate IsHistory(bp: Blueprint, states: seq<State>, events: seq<Event>) {
    && ValidBlueprint(bp) && ValidWindows(bp, []) && |states| == |events| + 1 && Begins(bp, states[0])
    && forall k :: 0 <= k < |events| ==> Happens(bp, states[k], events[k], states[k + 1])
  }

  ghost predicate Reachable(bp: Blueprint, s: State) {
    exists states, events :: IsHistory(bp, states, events) && states[|states| - 1] == s
  }

  /** Every run's first state is reachable. */
  lemma FirstReachable(bp: Blueprint, s: State, draws: Draws, backlog: seq<Item>, k: nat)
    requires ValidBlueprint(bp) && ValidWindows(bp, []) && BeginsWith(bp, s, draws, backlog, k)
    ensures Reachable(bp, s) && Sound(bp, s)
  {
    BeginsSound(bp, s);
    FirstHistory(bp, [s]);
    HistoryReaches(bp, [s], []);
  }

  lemma FirstHistory(bp: Blueprint, states: seq<State>)
    requires ValidBlueprint(bp) && ValidWindows(bp, []) && |states| == 1 && Begins(bp, states[0])
    ensures IsHistory(bp, states, [])
  {
  }

  lemma HistoryReaches(bp: Blueprint, states: seq<State>, events: seq<Event>)
    requires IsHistory(bp, states, events)
    ensures Reachable(bp, states[|states| - 1])
  {
  }

  /** One more event, and its state is reachable too. */
  lemma NextReachable(bp: Blueprint, s: State, event: Event, t: State)
    requires Reachable(bp, s) && Happens(bp, s, event, t)
    ensures Reachable(bp, t)
  {
    var states, events :| IsHistory(bp, states, events) && states[|states| - 1] == s;
    LongerHistory(bp, states, events, event, t, states + [t], events + [event]);
    HistoryReaches(bp, states + [t], events + [event]);
  }

  lemma LongerHistory(bp: Blueprint, states: seq<State>, events: seq<Event>, event: Event, t: State, more: seq<State>, all: seq<Event>)
    requires IsHistory(bp, states, events) && Happens(bp, states[|states| - 1], event, t)
    requires more == states + [t] && all == events + [event]
    ensures IsHistory(bp, more, all)
  {
    LongerChain((s: State, e: Event, u: State) => Happens(bp, s, e, u), states, events, event, t);
  }

  lemma LongerChain(happens: (State, Event, State) -> bool, states: seq<State>, events: seq<Event>, event: Event, t: State)
    requires |states| == |events| + 1 && forall k :: 0 <= k < |events| ==> happens(states[k], events[k], states[k + 1])
    requires happens(states[|states| - 1], event, t)
    ensures var more, all := states + [t], events + [event];
            forall k :: 0 <= k < |all| ==> happens(more[k], all[k], more[k + 1])
  {
  }

  /** What every event keeps holds in every state from which on it holds in the first. */
  lemma {:induction false} KeptAlong(keep: State -> bool, states: seq<State>, k: nat)
    requires k < |states| && keep(states[0]) && forall j :: 0 < j < |states| && keep(states[j - 1]) ==> keep(states[j])
    ensures keep(states[k])
    decreases k
  {
    if k > 0 {
      KeptAlong(keep, states, k - 1);
    }
  }

  lemma EventAt(bp: Blueprint, states: seq<State>, events: seq<Event>, j: nat)
    requires IsHistory(bp, states, events) && 0 < j < |states|
    ensures Happens(bp, states[j - 1], events[j - 1], states[j])
  {
    assert Happens(bp, states[j - 1], events[j - 1], states[(j - 1) + 1]);
  }

  lemma BeginsSound(bp: Blueprint, s: State)
    requires ValidBlueprint(bp) && ValidWindows(bp, []) && Begins(bp, s)
    ensures Sound(bp, s) && AllWaited(bp, s)
  {
    var draws, backlog, k: nat :| BeginsWith(bp, s, draws, backlog, k);
    InitialInvariant(bp, draws, backlog, s.cursor, k);
    assert Invariant(bp, s.cursor, s, k);
    InitialWaited(bp, draws, backlog, s.cursor, k);
  }

  /** No visit has waited before the run begins. */
  lemma InitialWaited(bp: Blueprint, draws: Draws, backlog: seq<Item>, t: int, k: nat)
    requires KindsKnown(bp, backlog)
    ensures AllWaited(bp, InitialState(bp, draws, backlog, t, k))
  {
    var s := InitialState(bp, draws, backlog, t, k);
    forall key | key in s.visits ensures s.visits[key].entered == t && s.visits[key].pause == 0 {
      var ids := SelectFrom(backlog, bp.minPoints, Target(bp, draws.target(k)), 0, 0);
      OpenedFresh(bp, draws, backlog, ids, t, key.0, key.1);
    }
  }

  lemma OpenedFresh(bp: Blueprint, draws: Draws, items: seq<Item>, ids: seq<nat>, t: int, i: nat, k: nat)
    requires KindsKnown(bp, items) && (i, k) in Opened(bp, draws, items, ids, t)
    ensures Opened(bp, draws, items, ids, t)[(i, k)].entered == t && Opened(bp, draws, items, ids, t)[(i, k)].pause == 0
  {
  }

  ghost predicate Stands(bp: Blueprint, s: State) {
    exists now :: Standing(bp, s, now)
  }

  /** Every event from a standing state leads to a standing state, and time only moves forward. */
  lemma HappensStands(bp: Blueprint, s: State, event: Event, t: State)
    requires ValidBlueprint(bp) && Stands(bp, s) && Happens(bp, s, event, t)
    ensures Stands(bp, t) && s.cursor <= t.cursor
  {
    var now :| Standing(bp, s, now);
    match event {
      case Ticked(draws, requested) => StepStands(bp, draws, s, now, requested);
      case Restarted(draws, asOf, crossed) => ResumesStands(bp, draws, s, now, asOf, crossed, t);
      case Interrupted(draws, asOf, crossed) => var later := LeftStands(bp, draws, s, now, asOf, crossed);
    }
  }

  /** Every event but a broken-off restart leads from a sound state to a sound state. */
  lemma HappensSound(bp: Blueprint, s: State, event: Event, t: State)
    requires ValidBlueprint(bp) && Sound(bp, s) && Happens(bp, s, event, t) && !event.Interrupted?
    ensures Sound(bp, t)
  {
    SoundStands(bp, s);
    match event {
      case Ticked(draws, requested) => TickStepSound(bp, draws, s, requested);
      case Restarted(draws, asOf, crossed) => ResumesStands(bp, draws, s, s.cursor, asOf, crossed, t);
    }
  }

  lemma BeginsStands(bp: Blueprint, s: State)
    requires ValidBlueprint(bp) && ValidWindows(bp, []) && Begins(bp, s)
    ensures Stands(bp, s)
  {
    BeginsSound(bp, s);
    SoundStands(bp, s);
  }

  /** Every state of every history is a standing one. */
  lemma HistoryStands(bp: Blueprint, states: seq<State>, events: seq<Event>, k: nat)
    requires IsHistory(bp, states, events) && k < |states|
    ensures Stands(bp, states[k])
  {
    BeginsStands(bp, states[0]);
    forall j | 0 < j < |states| && Stands(bp, states[j - 1]) ensures Stands(bp, states[j]) {
      EventAt(bp, states, events, j);
      HappensStands(bp, states[j - 1], events[j - 1], states[j]);
    }
    KeptAlong((s: State) => Stands(bp, s), states, k);
  }

  /** As long as no restart is broken off, every state is sound. */
  lemma HistorySound(bp: Blueprint, states: seq<State>, events: seq<Event>, k: nat)
    requires IsHistory(bp, states, events) && k < |states| && forall j :: 0 <= j < k ==> !events[j].Interrupted?
    ensures Sound(bp, states[k])
  {
    BeginsSound(bp, states[0]);
    var first := states[..k + 1];
    forall j | 0 < j < |first| && Sound(bp, first[j - 1]) ensures Sound(bp, first[j]) {
      EventAt(bp, states, events, j);
      HappensSound(bp, states[j - 1], events[j - 1], states[j]);
    }
    KeptAlong((s: State) => Sound(bp, s), first, k);
  }

  lemma TickWaited(bp: Blueprint, s: State, event: Event, t: State)
    requires ValidBlueprint(bp) && Sound(bp, s) && Happens(bp, s, event, t) && event.Ticked? && AllWaited(bp, s)
    ensures AllWaited(bp, t)
  {
    SoundStands(bp, s);
    var r := Decisions.Ticked(s, event.draws, event.requested, t, StepFrom(bp, event.draws, s, event.requested).naturals);
    assert IsTick(bp, r);
    TickWaits(bp, r);
    WaitedOn(bp, s, t);
  }

  /** As long as there is no restart, every open visit of every state has waited exactly as long as its
      dependency and the clock say. */
  lemma HistoryWaits(bp: Blueprint, states: seq<State>, events: seq<Event>, k: nat)
    requires IsHistory(bp, states, events) && k < |states| && forall j :: 0 <= j < k ==> events[j].Ticked?
    ensures AllWaited(bp, states[k])
  {
    BeginsSound(bp, states[0]);
    var first := states[..k + 1];
    forall j | 0 < j < |first| && Sound(bp, first[j - 1]) && AllWaited(bp, first[j - 1])
      ensures Sound(bp, first[j]) && AllWaited(bp, first[j])
    {
      EventAt(bp, states, events, j);
      HappensSound(bp, states[j - 1], events[j - 1], states[j]);
      TickWaited(bp, states[j - 1], events[j - 1], states[j]);
    }
    KeptAlong((s: State) => Sound(bp, s) && AllWaited(bp, s), first, k);
  }

  /** What holds of one state, in plain terms. */
  ghost predicate InOrder(bp: Blueprint, s: State) {
    && (forall i: nat :: i < |s.items| ==>
          (s.items[i].life.Active? <==> exists k: nat :: OpenAt(s, i, k))
          && (s.items[i].life.Backlog? ==> forall k: nat :: (i, k) !in s.visits)
          && VisitOrdinal(i) in s.counters && forall k: nat :: (i, k) in s.visits <==> k < s.counters[VisitOrdinal(i)])
    && (forall i: nat, k: nat, l: nat :: OpenAt(s, i, k) && OpenAt(s, i, l) ==> k == l)
    && (forall i: nat, k: nat :: OpenAt(s, i, k) ==>
          i < |s.items| && s.visits[(i, k)].status == s.items[i].status && s.visits[(i, k)].elapsed == s.visits[(i, k)].credited)
    && (forall i: nat, k: nat, l: nat :: InScope(s.scope, k, i) && InScope(s.scope, l, i) ==> k == l)
    && OpenOrdinal(s) in s.sprints && s.cursor <= NextBoundary(s)
    && (forall k: nat :: k in s.sprints ==>
          (s.sprints[k].phase.Completed? <==> k != OpenOrdinal(s)) && s.sprints[k].start < s.sprints[k].end
          && (k < OpenOrdinal(s) ==> k + 1 in s.sprints && s.sprints[k].end == s.sprints[k + 1].start))
    && (forall key :: key in s.visits && s.visits[key].closed.Some? ==> s.visits[key].entered <= s.visits[key].closed.value)
    && (forall j: nat, day: int :: j < |bp.members| ==> Spent(s.book, j, day) <= bp.members[j].capacity)
  }

  /** In every reachable state, the ones broken-off restarts leave included, an item is active exactly if it
      has one open visit, which stands in its status with its labor credited, visits are numbered without gaps, each item is in at most one current scope,
      exactly one sprint is open and sprints tile, the cursor has not passed the open sprint's boundary, and
      no member's day is over capacity. */
  lemma HistoryInOrder(bp: Blueprint, states: seq<State>, events: seq<Event>, k: nat)
    requires IsHistory(bp, states, events) && k < |states|
    ensures InOrder(bp, states[k])
  {
    HistoryStands(bp, states, events, k);
    var now :| Standing(bp, states[k], now);
    StandingInOrder(bp, states[k], now);
  }

  lemma StandingInOrder(bp: Blueprint, s: State, now: int)
    requires ValidBlueprint(bp) && Standing(bp, s, now)
    ensures InOrder(bp, s)
  {
    StandingParts(bp, s, now);
    var first: nat :| Invariant(bp, now, s, first) && s.cursor <= now <= NextBoundary(s);
    forall i: nat | i < |s.items|
      ensures s.items[i].life.Active? <==> exists k: nat :: OpenAt(s, i, k)
      ensures s.items[i].life.Backlog? ==> forall k: nat :: (i, k) !in s.visits
      ensures VisitOrdinal(i) in s.counters && forall k: nat :: (i, k) in s.visits <==> k < s.counters[VisitOrdinal(i)]
    {
      ActiveIffOpen(bp, now, s, first, i);
      assert ItemHolds(bp, s, i);
    }
    forall i: nat, k: nat, l: nat | OpenAt(s, i, k) && OpenAt(s, i, l) ensures k == l {
      ActiveIffOpen(bp, now, s, first, i);
    }
    forall i: nat, k: nat | OpenAt(s, i, k)
      ensures i < |s.items| && s.visits[(i, k)].status == s.items[i].status && s.visits[(i, k)].elapsed == s.visits[(i, k)].credited
    {
      ActiveIffOpen(bp, now, s, first, i);
    }
    forall k: nat | k in s.sprints
      ensures (s.sprints[k].phase.Completed? <==> k != OpenOrdinal(s)) && s.sprints[k].start < s.sprints[k].end
      ensures k < OpenOrdinal(s) ==> k + 1 in s.sprints && s.sprints[k].end == s.sprints[k + 1].start
    {
      SprintsTile(bp, now, s, first, k);
    }
  }
}
