/** Resuming a team after downtime: cross every boundary that fell due, then skip to now. */
module Restart {
  import opened BusinessCalendar
  import opened Allocation
  import opened Team
  import opened Commands
  import opened Routes
  import opened RunInvariant
  import opened Lifecycle
  import opened SprintRun
  import opened Steps
  import opened Scheduler

  // ---------- Boundaries in a row ----------

  /** The cadence ordinal of the open sprint's next boundary. */
  function BoundaryOrdinal(s: State): nat
    requires OpenOrdinal(s) in s.sprints
  {
    if OpenSprint(s).phase.Planned? then OpenOrdinal(s) else OpenOrdinal(s) + 1
  }

  lemma BoundaryIs(bp: Blueprint, now: int, s: State, first: nat)
    requires SprintsOk(bp, now, s, first)
    ensures NextBoundary(s) == CadenceBoundary(bp.calendar, bp.anchor, bp.cadenceDays, BoundaryOrdinal(s))
  {
  }

  // ---------- Commands that only move the cursor ----------

  function Skip(s: State, cursor: int): Outcome {
    Outcome(s.(cursor := cursor), [], [])
  }

  lemma SkipAccepted(s: State, cursor: int)
    ensures Accepted(s, Skip(s, cursor)) && Commit(s, CommandFor(s, Skip(s, cursor))) == Ok(Committed(s, Skip(s, cursor)))
  {
    CommitReaches(s, Skip(s, cursor));
  }

  /** Time may pass, up to the next boundary, without breaking anything. */
  lemma InvariantLater(bp: Blueprint, now: int, later: int, s: State, t: State, first: nat)
    requires Invariant(bp, now, s, first) && now <= later <= NextBoundary(s)
    requires t == s.(cursor := t.cursor, version := t.version)
    ensures Invariant(bp, later, t, first)
  {
    forall i: nat | i < |t.items| ensures ItemHolds(bp, t, i) {
      assert ItemHolds(bp, s, i);
      ItemSame(bp, s.visits, t.visits, s.items[i], i, s.counters[VisitOrdinal(i)]);
    }
  }

  // ---------- What a restart keeps ----------

  /** What the restart keeps of the state it found: every visit, all consumption, all overlays. */
  ghost predicate Untouched(s: State, t: State) {
    && (forall key :: key in s.visits ==> key in t.visits && t.visits[key] == s.visits[key])
    && t.book == s.book && t.overlays == s.overlays && t.cursor == s.cursor
  }

  lemma UntouchedTrans(s: State, t: State, u: State)
    requires Untouched(s, t) && Untouched(t, u)
    ensures Untouched(s, u)
  {
  }

  // ---------- The commits of a restart ----------

  /** The downtime is recorded, and nothing else changes. */
  ghost function Noted(s: State): State {
    Committed(s, Skip(s, s.cursor))
  }

  ghost function CrossNext(bp: Blueprint, draws: Draws, s: State): State {
    if KindsKnown(bp, s.items) && OpenOrdinal(s) in s.sprints && CrossBoundary(bp, draws, s, NextBoundary(s)).Some?
    then Committed(s, CrossBoundary(bp, draws, s, NextBoundary(s)).value) else s
  }

  /** The state after n crossings. */
  ghost function CrossTimes(bp: Blueprint, draws: Draws, s: State, n: nat): State
    decreases n
  {
    if n == 0 then s else CrossNext(bp, draws, CrossTimes(bp, draws, s, n - 1))
  }

  ghost predicate IsDue(s: State, asOf: int) {
    OpenOrdinal(s) in s.sprints && NextBoundary(s) <= asOf
  }

  /** Each of the first n crossings of a restart at asOf was due when it was made. */
  ghost predicate AllDue(bp: Blueprint, draws: Draws, s: State, asOf: int, n: nat) {
    forall j: nat :: j < n ==> IsDue(CrossTimes(bp, draws, Noted(s), j), asOf)
  }

  /** The state a restart leaves when it is broken off after n crossings. */
  ghost function LeftAfter(bp: Blueprint, draws: Draws, s: State, n: nat): State {
    CrossTimes(bp, draws, Noted(s), n)
  }

  /** The state a restart with n crossings leads to. */
  ghost function ResumedAfter(bp: Blueprint, draws: Draws, s: State, asOf: int, n: nat): State {
    Committed(LeftAfter(bp, draws, s, n), Skip(LeftAfter(bp, draws, s, n), asOf))
  }

  // ---------- Part of a restart ----------

  /** Mid-restart: n boundaries crossed since `start`, and the state in order up to `now`. */
  ghost predicate Resuming(bp: Blueprint, start: State, now: int, s: State, first: nat, n: nat)
    requires OpenOrdinal(start) in start.sprints
  {
    && Invariant(bp, now, s, first) && s.cursor <= now <= NextBoundary(s) && Untouched(start, s)
    && BoundaryOrdinal(s) == BoundaryOrdinal(start) + n
    && s.version == start.version + 1 + n
  }

  lemma CrossingCounts(bp: Blueprint, draws: Draws, now: int, s: State, first: nat)
    requires ValidBlueprint(bp) && Invariant(bp, now, s, first) && KindsKnown(bp, s.items) && now <= NextBoundary(s)
    ensures CrossBoundary(bp, draws, s, NextBoundary(s)).Some?
    ensures var after := Committed(s, CrossBoundary(bp, draws, s, NextBoundary(s)).value);
            && OpenOrdinal(after) in after.sprints && NextBoundary(after) > NextBoundary(s)
            && BoundaryOrdinal(after) == BoundaryOrdinal(s) + 1 && after.version == s.version + 1
            && Untouched(s, after)
  {
    CrossingMoves(bp, draws, now, s, first, NextBoundary(s));
    CrossingTouchesNothing(bp, draws, now, s, first, NextBoundary(s));
  }

  /** Crossing the boundary that is due keeps the restart going. */
  lemma ResumeStep(bp: Blueprint, draws: Draws, start: State, now: int, s: State, first: nat, n: nat, t: int)
    requires ValidBlueprint(bp) && OpenOrdinal(start) in start.sprints && Resuming(bp, start, now, s, first, n)
    requires t == NextBoundary(s)
    ensures KindsKnown(bp, s.items) && CrossBoundary(bp, draws, s, t).Some?
    ensures var o := CrossBoundary(bp, draws, s, t).value;
            && Accepted(s, o) && Commit(s, CommandFor(s, o)) == Ok(Committed(s, o)) && CrossNext(bp, draws, s) == Committed(s, o)
            && Resuming(bp, start, t, Committed(s, o), first, n + 1)
            && NextBoundary(Committed(s, o)) > t
  {
    CrossingKeeps(bp, draws, now, s, first, t);
    CrossingCounts(bp, draws, now, s, first);
    var o := CrossBoundary(bp, draws, s, t).value;
    CommitReaches(s, o);
    UntouchedTrans(start, s, Committed(s, o));
  }

  lemma NotedResumes(bp: Blueprint, s: State, now: int, first: nat)
    requires Invariant(bp, now, s, first) && s.cursor <= now <= NextBoundary(s)
    ensures OpenOrdinal(s) in s.sprints && Resuming(bp, s, now, Noted(s), first, 0)
  {
    InvariantLater(bp, now, now, s, Noted(s), first);
  }

  lemma PartStep(bp: Blueprint, draws: Draws, s: State, now: int, first: nat, n: nat, r: State)
    requires ValidBlueprint(bp) && OpenOrdinal(s) in s.sprints && Resuming(bp, s, now, r, first, n) && r == LeftAfter(bp, draws, s, n)
    ensures Resuming(bp, s, NextBoundary(r), LeftAfter(bp, draws, s, n + 1), first, n + 1)
    ensures LeftAfter(bp, draws, s, n + 1) == CrossNext(bp, draws, r)
  {
    ResumeStep(bp, draws, s, now, r, first, n, NextBoundary(r));
  }

  lemma DueStep(bp: Blueprint, draws: Draws, s: State, now: int, first: nat, asOf: int, n: nat, r: State) returns (later: int)
    requires ValidBlueprint(bp) && OpenOrdinal(s) in s.sprints && Resuming(bp, s, now, r, first, n) && r == LeftAfter(bp, draws, s, n)
    requires IsDue(r, asOf)
    ensures Resuming(bp, s, later, LeftAfter(bp, draws, s, n + 1), first, n + 1) && now <= later <= asOf
  {
    PartStep(bp, draws, s, now, first, n, r);
    later := NextBoundary(r);
  }

  lemma NoneLeft(bp: Blueprint, draws: Draws, s: State)
    ensures LeftAfter(bp, draws, s, 0) == Noted(s)
  {
  }

  lemma PartBegins(bp: Blueprint, draws: Draws, s: State, now: int, first: nat, asOf: int, r: State)
    requires OpenOrdinal(s) in s.sprints && Resuming(bp, s, now, r, first, 0) && r == LeftAfter(bp, draws, s, 0)
    ensures Part(bp, draws, s, now, first, asOf, 0)
  {
  }

  lemma {:induction false} Inductive(holds: nat -> bool, n: nat)
    requires holds(0) && forall k: nat :: k < n && holds(k) ==> holds(k + 1)
    ensures holds(n)
  {
    if n > 0 {
      Inductive(holds, n - 1);
    }
  }

  /** n boundaries crossed, and the state in order up to some instant by asOf, or by now. */
  ghost predicate Part(bp: Blueprint, draws: Draws, s: State, now: int, first: nat, asOf: int, n: nat)
    requires OpenOrdinal(s) in s.sprints
  {
    exists later :: now <= later <= Max(now, asOf) && Resuming(bp, s, later, LeftAfter(bp, draws, s, n), first, n)
  }

  lemma PartNext(bp: Blueprint, draws: Draws, s: State, now: int, first: nat, asOf: int, n: nat)
    requires ValidBlueprint(bp) && OpenOrdinal(s) in s.sprints && Part(bp, draws, s, now, first, asOf, n)
    requires IsDue(LeftAfter(bp, draws, s, n), asOf)
    ensures Part(bp, draws, s, now, first, asOf, n + 1)
  {
    var before :| now <= before <= Max(now, asOf) && Resuming(bp, s, before, LeftAfter(bp, draws, s, n), first, n);
    var later := DueStep(bp, draws, s, before, first, asOf, n, LeftAfter(bp, draws, s, n));
  }

  lemma DueAt(bp: Blueprint, draws: Draws, s: State, asOf: int, n: nat, k: nat)
    requires AllDue(bp, draws, s, asOf, n) && k < n
    ensures IsDue(LeftAfter(bp, draws, s, k), asOf)
  {
  }

  /** Wherever a restart is broken off, what it has committed is n boundaries crossed. */
  lemma PartResumes(bp: Blueprint, draws: Draws, s: State, now: int, first: nat, asOf: int, n: nat)
    requires ValidBlueprint(bp) && OpenOrdinal(s) in s.sprints && Part(bp, draws, s, now, first, asOf, 0)
    requires AllDue(bp, draws, s, asOf, n)
    ensures Part(bp, draws, s, now, first, asOf, n)
  {
    forall k: nat | k < n && Part(bp, draws, s, now, first, asOf, k) ensures Part(bp, draws, s, now, first, asOf, k + 1) {
      DueAt(bp, draws, s, asOf, n, k);
      PartNext(bp, draws, s, now, first, asOf, k);
    }
    Inductive((k: nat) => Part(bp, draws, s, now, first, asOf, k), n);
  }

  lemma NotedPart(bp: Blueprint, draws: Draws, s: State, now: int, first: nat, asOf: int)
    requires Invariant(bp, now, s, first) && s.cursor <= now <= NextBoundary(s)
    ensures OpenOrdinal(s) in s.sprints && Part(bp, draws, s, now, first, asOf, 0)
  {
    NotedResumes(bp, s, now, first);
    NoneLeft(bp, draws, s);
    PartBegins(bp, draws, s, now, first, asOf, Noted(s));
  }

  /** A broken-off restart leaves a standing state: every crossing done is whole, no visit that was there
      and no consumption has changed, and the cursor has not moved. */
  lemma LeftStands(bp: Blueprint, draws: Draws, s: State, now: int, asOf: int, n: nat) returns (later: int)
    requires ValidBlueprint(bp) && Standing(bp, s, now) && AllDue(bp, draws, s, asOf, n)
    ensures Standing(bp, LeftAfter(bp, draws, s, n), later) && later <= Max(now, asOf)
    ensures Untouched(s, LeftAfter(bp, draws, s, n))
  {
    var first: nat :| Invariant(bp, now, s, first) && s.cursor <= now <= NextBoundary(s);
    NotedPart(bp, draws, s, now, first, asOf);
    PartResumes(bp, draws, s, now, first, asOf, n);
    later :| now <= later <= Max(now, asOf) && Resuming(bp, s, later, LeftAfter(bp, draws, s, n), first, n);
  }

  // ---------- The restart loop ----------

  /** Commit the lifecycle transition due next. */
  method CrossDue(bp: Blueprint, draws: Draws, store: TeamStore, ghost start: State, ghost now: int, ghost first: nat, ghost n: nat, t: int)
    requires ValidBlueprint(bp) && OpenOrdinal(start) in start.sprints && Resuming(bp, start, now, store.state, first, n)
    requires t == NextBoundary(store.state)
    modifies store
    ensures store.state == CrossNext(bp, draws, old(store.state)) && OpenOrdinal(store.state) in store.state.sprints
    ensures NextBoundary(store.state) > t
  {
    var s := store.state;
    ResumeStep(bp, draws, start, now, s, first, n, t);
    var crossing := Cross(bp, draws, s, t);
    var _ := store.Apply(CommandFor(s, crossing.value));
  }

  /** Commit a cursor move without any other change. */
  method SkipTo(store: TeamStore, cursor: int)
    modifies store
    ensures store.state == Committed(old(store.state), Skip(old(store.state), cursor))
    ensures store.state == old(store.state).(cursor := cursor, version := old(store.state.version) + 1)
  {
    SkipAccepted(store.state, cursor);
    var _ := store.Apply(CommandFor(store.state, Skip(store.state, cursor)));
  }

  /** The boundaries crossed are the next n of the cadence, in order, all due by asOf. */
  ghost predicate CrossedInOrder(bp: Blueprint, start: State, asOf: int, crossed: seq<int>)
    requires OpenOrdinal(start) in start.sprints
  {
    forall j: nat :: j < |crossed| ==> crossed[j] == NthBoundary(bp, BoundaryOrdinal(start), j) <= asOf
  }

  /** The j-th boundary of the cadence from this ordinal on. */
  ghost function NthBoundary(bp: Blueprint, ordinal: nat, j: nat): int {
    CadenceBoundary(bp.calendar, bp.anchor, bp.cadenceDays, ordinal + j)
  }

  lemma CrossedNext(bp: Blueprint, start: State, now: int, s: State, first: nat, asOf: int, crossed: seq<int>)
    requires OpenOrdinal(start) in start.sprints && Resuming(bp, start, now, s, first, |crossed|)
    requires CrossedInOrder(bp, start, asOf, crossed) && NextBoundary(s) <= asOf
    ensures CrossedInOrder(bp, start, asOf, crossed + [NextBoundary(s)])
  {
    BoundaryIs(bp, now, s, first);
    OneMore((j: nat) => NthBoundary(bp, BoundaryOrdinal(start), j), asOf, crossed, NextBoundary(s));
  }

  lemma OneMore(nth: nat -> int, asOf: int, crossed: seq<int>, t: int)
    requires (forall j: nat :: j < |crossed| ==> crossed[j] == nth(j) <= asOf) && t == nth(|crossed|) <= asOf
    ensures forall j: nat :: j < |crossed + [t]| ==> (crossed + [t])[j] == nth(j) <= asOf
  {
  }

  /** The loop so far: what it has crossed, each in order and due, has been committed. */
  ghost predicate Halfway(bp: Blueprint, draws: Draws, start: State, from: int, first: nat, asOf: int, crossed: seq<int>, now: int, s: State)
    requires OpenOrdinal(start) in start.sprints
  {
    && Resuming(bp, start, now, s, first, |crossed|) && from <= now <= Max(from, asOf)
    && CrossedInOrder(bp, start, asOf, crossed)
    && s == LeftAfter(bp, draws, start, |crossed|) && AllDue(bp, draws, start, asOf, |crossed|)
  }

  lemma HalfwayStep(bp: Blueprint, draws: Draws, start: State, from: int, first: nat, asOf: int, crossed: seq<int>, now: int, s: State)
    requires ValidBlueprint(bp) && OpenOrdinal(start) in start.sprints && Halfway(bp, draws, start, from, first, asOf, crossed, now, s)
    requires NextBoundary(s) <= asOf
    ensures Halfway(bp, draws, start, from, first, asOf, crossed + [NextBoundary(s)], NextBoundary(s), CrossNext(bp, draws, s))
  {
    CrossedNext(bp, start, now, s, first, asOf, crossed);
    PartStep(bp, draws, start, now, first, |crossed|, s);
    OneMoreDue(bp, draws, start, asOf, |crossed|);
  }

  lemma OneMoreDue(bp: Blueprint, draws: Draws, s: State, asOf: int, n: nat)
    requires AllDue(bp, draws, s, asOf, n) && IsDue(LeftAfter(bp, draws, s, n), asOf)
    ensures AllDue(bp, draws, s, asOf, n + 1)
  {
  }

  /** The loop over due boundaries. */
  method CrossAllDue(bp: Blueprint, draws: Draws, store: TeamStore, asOf: int, ghost start: State, ghost from: int, ghost first: nat)
    returns (ghost crossed: seq<int>, ghost now: int)
    requires ValidBlueprint(bp) && OpenOrdinal(start) in start.sprints && start.cursor < asOf
    requires Halfway(bp, draws, start, from, first, asOf, [], from, store.state)
    modifies store
    ensures Halfway(bp, draws, start, from, first, asOf, crossed, now, store.state) && NextBoundary(store.state) > asOf
  {
    crossed, now := [], from;
    while true
      invariant Halfway(bp, draws, start, from, first, asOf, crossed, now, store.state)
      decreases asOf - NextBoundary(store.state)
    {
      DueBoundaryIs(bp, now, store.state, first, asOf);
      var due := DueBoundary(store.state, asOf);
      if due.None? {
        return;
      }
      HalfwayStep(bp, draws, start, from, first, asOf, crossed, now, store.state);
      CrossDue(bp, draws, store, start, now, first, |crossed|, due.value);
      crossed, now := crossed + [due.value], due.value;
    }
  }

  /** Restart, possibly one that resumes an earlier restart broken off part-way: nothing if there was no
      downtime; otherwise record it, cross each due boundary exactly once, and skip to asOf. Existing
      visits and all consumption stay as they were. */
  method Resume(bp: Blueprint, draws: Draws, store: TeamStore, asOf: int, ghost now: int) returns (ghost crossed: seq<int>)
    requires ValidBlueprint(bp) && Standing(bp, store.state, now)
    modifies store
    ensures OpenOrdinal(old(store.state)) in old(store.state).sprints
    ensures old(store.state.cursor) >= asOf ==> store.state == old(store.state)
    ensures old(store.state.cursor) < asOf ==>
              && Resumed(bp, old(store.state), now, store.state, asOf, crossed)
              && Resumes(bp, draws, old(store.state), asOf, |crossed|, store.state)
  {
    crossed := [];
    ghost var start := store.state;
    StandingParts(bp, start, now);
    if store.state.cursor >= asOf {
      return;
    }
    ghost var first: nat :| Invariant(bp, now, start, first) && start.cursor <= now <= NextBoundary(start);
    SkipTo(store, store.state.cursor);
    NotedResumes(bp, start, now, first);
    ghost var later;
    crossed, later := CrossAllDue(bp, draws, store, asOf, start, now, first);
    ghost var s := store.state;
    SkipTo(store, asOf);
    InvariantLater(bp, later, Max(later, asOf), s, store.state, first);
    ResumeEnds(bp, start, now, later, s, store.state, first, asOf, crossed);
  }

  /** What a restart with n crossings commits, all of them due and none left due. */
  ghost predicate Resumes(bp: Blueprint, draws: Draws, before: State, asOf: int, n: nat, after: State) {
    && AllDue(bp, draws, before, asOf, n) && !IsDue(LeftAfter(bp, draws, before, n), asOf)
    && after == ResumedAfter(bp, draws, before, asOf, n)
  }

  /** The team stands at asOf, short of its next boundary, with nothing known after asOf (or after what was
      known before); each boundary that fell due was crossed, once and in order; no visit that was there
      and no consumption has changed. */
  ghost predicate Resumed(bp: Blueprint, before: State, now: int, after: State, asOf: int, crossed: seq<int>)
    requires OpenOrdinal(before) in before.sprints
  {
    && Standing(bp, after, Max(now, asOf)) && after.cursor == asOf && OpenOrdinal(after) in after.sprints && NextBoundary(after) > asOf
    && Untouched(before.(cursor := asOf), after)
    && CrossedInOrder(bp, before, asOf, crossed)
    && BoundaryOrdinal(after) == BoundaryOrdinal(before) + |crossed|
    && after.version == before.version + |crossed| + 2
  }

  lemma ResumeEnds(bp: Blueprint, start: State, now: int, later: int, s: State, after: State, first: nat, asOf: int, crossed: seq<int>)
    requires OpenOrdinal(start) in start.sprints && Resuming(bp, start, later, s, first, |crossed|)
    requires NextBoundary(s) > asOf && CrossedInOrder(bp, start, asOf, crossed) && now <= later <= Max(now, asOf)
    requires after == s.(cursor := asOf, version := s.version + 1) && Invariant(bp, Max(later, asOf), after, first)
    ensures Resumed(bp, start, now, after, asOf, crossed)
  {
    assert Max(later, asOf) == Max(now, asOf);
  }

  lemma SkipStands(bp: Blueprint, now: int, asOf: int, s: State, after: State, first: nat)
    requires Invariant(bp, now, s, first) && now <= NextBoundary(s) && !IsDue(s, asOf) && after == Committed(s, Skip(s, asOf))
    ensures Standing(bp, after, Max(now, asOf)) && after.cursor == asOf
  {
    InvariantLater(bp, now, Max(now, asOf), s, after, first);
  }

  /** Broken off after n crossings, a restart leaves a state in order up to some instant by asOf, or by now. */
  lemma LeftInvariant(bp: Blueprint, draws: Draws, s: State, now: int, asOf: int, n: nat) returns (first: nat, later: int)
    requires ValidBlueprint(bp) && Standing(bp, s, now) && AllDue(bp, draws, s, asOf, n)
    ensures var r := LeftAfter(bp, draws, s, n); Invariant(bp, later, r, first) && later <= NextBoundary(r) && r.cursor == s.cursor
    ensures now <= later <= Max(now, asOf)
  {
    first :| Invariant(bp, now, s, first) && s.cursor <= now <= NextBoundary(s);
    NotedPart(bp, draws, s, now, first, asOf);
    PartResumes(bp, draws, s, now, first, asOf, n);
    later :| now <= later <= Max(now, asOf) && Resuming(bp, s, later, LeftAfter(bp, draws, s, n), first, n);
  }

  /** What a whole restart leads to is a standing state, and a sound one if nothing was known after asOf. */
  lemma ResumesStands(bp: Blueprint, draws: Draws, s: State, now: int, asOf: int, n: nat, after: State)
    requires ValidBlueprint(bp) && Standing(bp, s, now) && s.cursor < asOf && Resumes(bp, draws, s, asOf, n, after)
    ensures Standing(bp, after, Max(now, asOf)) && (now <= asOf ==> Sound(bp, after)) && after.cursor == asOf
  {
    var first, later := LeftInvariant(bp, draws, s, now, asOf, n);
    SkipStands(bp, later, asOf, LeftAfter(bp, draws, s, n), after, first);
    assert Max(later, asOf) == Max(now, asOf);
    if now <= asOf {
      StandsSound(bp, after);
    }
  }
}
