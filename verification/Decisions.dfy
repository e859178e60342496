/** Workday decisions over whole runs of ticks: exactly one per workday start and active item. */
module Decisions {
  import opened BusinessCalendar
  import opened Team
  import opened Commands
  import opened Routes
  import opened RunInvariant
  import opened Lifecycle
  import opened SprintRun
  import opened Workdays
  import opened Risks
  import opened RiskLaws
  import opened Tick
  import opened Finish
  import opened TickRun
  import opened Steps

  // ---------- Decisions in one evaluation ----------

  /** How many cancellation decisions about item i these are. */
  ghost function DecidedOn(naturals: seq<Natural>, i: nat): nat {
    if naturals == [] then 0
    else
      var last := naturals[|naturals| - 1];
      DecidedOn(naturals[..|naturals| - 1], i) + if last.decision.CancellationOutcome? && last.entity == i then 1 else 0
  }

  lemma {:induction false} DecidedJoin(a: seq<Natural>, b: seq<Natural>, i: nat)
    ensures DecidedOn(a + b, i) == DecidedOn(a, i) + DecidedOn(b, i)
  {
    if b == [] {
      assert a + b == a;
    } else {
      assert (a + b)[..|a + b| - 1] == a + b[..|b| - 1];
      DecidedJoin(a, b[..|b| - 1], i);
    }
  }

  lemma {:induction false} CancelDecides(s: State, w: int, n: nat, i: nat)
    requires n <= |s.items|
    ensures DecidedOn(CancelClaims(s, w, n).1, i) == if i < n && s.items[i].life.Active? then 1 else 0
  {
    if n > 0 {
      CancelDecides(s, w, n - 1, i);
      var rest := CancelClaims(s, w, n - 1).1;
      var counter := Occurrence(CancellationOutcome, n - 1);
      if s.items[n - 1].life.Active? {
        var last := [Natural(CancellationOutcome, n - 1, Next(s, counter), UtcDate(w))];
        DecidedJoin(rest, last, i);
        assert last[..0] == [];
      }
    }
  }

  lemma {:induction false} AbsenceDecidesNone(s: State, w: int, n: nat, i: nat)
    ensures DecidedOn(AbsenceClaims(s, w, n).1, i) == 0
  {
    if n > 0 {
      AbsenceDecidesNone(s, w, n - 1, i);
      var counter := Occurrence(AbsenceOutcome, n - 1);
      if OwnsOpen(s, n - 1) {
        var last := [Natural(AbsenceOutcome, n - 1, Next(s, counter), UtcDate(w))];
        DecidedJoin(AbsenceClaims(s, w, n - 1).1, last, i);
        assert last[..0] == [];
      }
    }
  }

  /** One of the first n rules decides cancellations at workday starts. */
  predicate CancelsByDay(bp: Blueprint, n: nat)
    requires n <= |bp.rules|
  {
    exists r :: 0 <= r < n && bp.rules[r].kind.Cancellation? && bp.rules[r].trigger.WorkdayStarted?
  }

  lemma HandleDecides(bp: Blueprint, draws: Draws, rule: Rule, s: State, asOf: int, i: nat)
    ensures DecidedOn(Handle(bp, draws, rule, s, asOf).naturals, i) ==
            if rule.kind.Cancellation? && rule.trigger.WorkdayStarted? && i < |s.items| && s.items[i].life.Active?
               && WorkdayBoundary(bp.calendar, s.cursor, asOf).Some? then 1 else 0
  {
    var w := WorkdayBoundary(bp.calendar, s.cursor, asOf);
    if w.Some? {
      CancelDecides(s, w.value, |s.items|, i);
      AbsenceDecidesNone(s, w.value, |bp.members|, i);
    }
  }

  lemma {:induction false} ItemsBeforeCancel(bp: Blueprint, draws: Draws, s: State, asOf: int, n: nat)
    requires n <= |bp.rules| && forall r :: 0 <= r < n ==> !bp.rules[r].kind.Cancellation?
    ensures Evaluate(bp, draws, s, asOf, n).working.items == s.items
  {
    if n > 0 {
      ItemsBeforeCancel(bp, draws, s, asOf, n - 1);
    }
  }

  /** Evaluating the rules up to asOf decides about item i exactly once if a workday start is due and i
      is active, and otherwise not at all. */
  lemma {:induction false} EvaluateDecides(bp: Blueprint, draws: Draws, s: State, asOf: int, n: nat, i: nat)
    requires ValidBlueprint(bp) && n <= |bp.rules| && i < |s.items|
    ensures DecidedOn(Evaluate(bp, draws, s, asOf, n).naturals, i) ==
            if CancelsByDay(bp, n) && s.items[i].life.Active? && WorkdayBoundary(bp.calendar, s.cursor, asOf).Some? then 1 else 0
  {
    if n > 0 {
      EvaluateDecides(bp, draws, s, asOf, n - 1, i);
      CancelsNext(bp, n);
      RulesCursor(bp, draws, s, asOf, n - 1);
      if bp.rules[n - 1].kind.Cancellation? {
        ItemsBeforeCancel(bp, draws, s, asOf, n - 1);
      }
      LastDecides(bp, draws, s, asOf, n, i, Evaluate(bp, draws, s, asOf, n - 1));
    }
  }

  /** The last rule adds its own decisions to those before. */
  lemma LastDecides(bp: Blueprint, draws: Draws, s: State, asOf: int, n: nat, i: nat, before: Evaluation)
    requires 0 < n <= |bp.rules| && i < |s.items| && before == Evaluate(bp, draws, s, asOf, n - 1)
    requires before.working.cursor == s.cursor && (bp.rules[n - 1].kind.Cancellation? ==> before.working.items == s.items)
    ensures DecidedOn(Evaluate(bp, draws, s, asOf, n).naturals, i) == DecidedOn(before.naturals, i)
            + if bp.rules[n - 1].kind.Cancellation? && bp.rules[n - 1].trigger.WorkdayStarted? && s.items[i].life.Active?
                 && WorkdayBoundary(bp.calendar, s.cursor, asOf).Some? then 1 else 0
  {
    HandleDecides(bp, draws, bp.rules[n - 1], before.working, asOf, i);
    DecidedJoin(before.naturals, Handle(bp, draws, bp.rules[n - 1], before.working, asOf).naturals, i);
  }

  lemma CancelsNext(bp: Blueprint, n: nat)
    requires ValidBlueprint(bp) && 0 < n <= |bp.rules|
    ensures CancelsByDay(bp, n) <==>
            CancelsByDay(bp, n - 1) || (bp.rules[n - 1].kind.Cancellation? && bp.rules[n - 1].trigger.WorkdayStarted?)
    ensures bp.rules[n - 1].kind.Cancellation? ==> !CancelsByDay(bp, n - 1)
  {
  }

  // ---------- Decisions in one tick ----------

  ghost predicate StartPassed(bp: Blueprint, from: int, to: int) {
    exists w :: IsStart(bp.calendar, w) && from <= w < to
  }

  lemma BoundaryIffStart(bp: Blueprint, cursor: int, asOf: int)
    requires Valid(bp.calendar)
    ensures WorkdayBoundary(bp.calendar, cursor, asOf).Some? <==> StartPassed(bp, cursor, asOf)
  {
    WorkdayBoundaryLeast(bp.calendar, cursor, asOf);
  }

  /** A tick decides about an item exactly when it leaves a workday start behind while the item is
      active, and then the tick started at that very instant. */
  lemma TickDecides(bp: Blueprint, draws: Draws, s: State, now: int, requested: int, i: nat)
    requires StepReady(bp, s) && Standing(bp, s, now) && s.cursor <= requested && i < |s.items|
    ensures var o := StepFrom(bp, draws, s, requested);
            && s.cursor <= o.after.cursor
            && DecidedOn(o.naturals, i) ==
               (if CancelsByDay(bp, |bp.rules|) && s.items[i].life.Active? && StartPassed(bp, s.cursor, o.after.cursor) then 1 else 0)
            && (CancelsByDay(bp, |bp.rules|) && s.items[i].life.Active? ==>
                  forall w :: IsStart(bp.calendar, w) && s.cursor <= w < o.after.cursor ==> w == s.cursor)
  {
    var first: nat :| Invariant(bp, now, s, first) && s.cursor <= now <= NextBoundary(s);
    CrossingDue(bp, draws, now, s, first, s.cursor);
    if s.cursor == NextBoundary(s) {
      CrossingTouchesNothing(bp, draws, now, s, first, s.cursor);
      CrossingDecidesNothing(bp, draws, s, s.cursor);
    } else {
      StepAdvances(bp, draws, s, requested);
      AdvanceDecides(bp, draws, s, AdvanceFrom(bp, draws, s, requested), i);
    }
  }

  lemma CrossingDecidesNothing(bp: Blueprint, draws: Draws, s: State, t: int)
    requires KindsKnown(bp, s.items) && CrossBoundary(bp, draws, s, t).Some?
    ensures CrossBoundary(bp, draws, s, t).value.naturals == []
  {
  }

  lemma AdvanceDecides(bp: Blueprint, draws: Draws, s: State, a: Attempted, i: nat)
    requires Ticks(bp, draws, s, a) && Placed(bp, a.risks.working.items, a.lane.slots) && i < |s.items|
    ensures DecidedOn(FinishTick(bp, draws, a).naturals, i) ==
            if CancelsByDay(bp, |bp.rules|) && s.items[i].life.Active? && StartPassed(bp, s.cursor, a.end) then 1 else 0
    ensures CancelsByDay(bp, |bp.rules|) && s.items[i].life.Active? ==>
              forall w :: IsStart(bp.calendar, w) && s.cursor <= w < a.end ==> w == s.cursor
  {
    EvaluateDecides(bp, draws, s, a.end, |bp.rules|, i);
    BoundaryIffStart(bp, s.cursor, a.end);
    if CancelsByDay(bp, |bp.rules|) && s.items[i].life.Active? {
      var r :| 0 <= r < |bp.rules| && bp.rules[r].kind.Cancellation? && bp.rules[r].trigger.WorkdayStarted?;
      assert WorkdayRules(bp) && HasActive(s);
    }
  }

  /** Nothing is decided anywhere else: a tick that decides starts at a workday start and leaves it. */
  lemma DecidesOnlyAtStarts(bp: Blueprint, draws: Draws, s: State, now: int, requested: int, i: nat)
    requires StepReady(bp, s) && Standing(bp, s, now) && s.cursor <= requested && i < |s.items|
    requires DecidedOn(StepFrom(bp, draws, s, requested).naturals, i) > 0
    ensures IsStart(bp.calendar, s.cursor) && StepFrom(bp, draws, s, requested).after.cursor > s.cursor
    ensures s.items[i].life.Active? && DecidedOn(StepFrom(bp, draws, s, requested).naturals, i) == 1
  {
    TickDecides(bp, draws, s, now, requested, i);
    var w :| IsStart(bp.calendar, w) && s.cursor <= w < StepFrom(bp, draws, s, requested).after.cursor;
    assert w == s.cursor;
  }

  // ---------- Runs ----------

  /** One committed tick: what it started from, the draws it saw, the end it was asked for, what it left
      and what it decided. */
  datatype Ticked = Ticked(before: State, draws: Draws, requested: int, after: State, naturals: seq<Natural>)

  /** A committed tick from any state a run may be in, the middle of a restart included. */
  ghost predicate IsTick(bp: Blueprint, r: Ticked) {
    && StepReady(bp, r.before) && (exists now :: Standing(bp, r.before, now)) && r.before.cursor <= r.requested
    && StepReadable(bp, r.draws, r.before, r.requested)
    && var o := StepFrom(bp, r.draws, r.before, r.requested);
       r.after == Committed(r.before, o) && r.naturals == o.naturals
  }

  ghost predicate Linked(run: seq<Ticked>) {
    forall k :: 0 <= k < |run| - 1 ==> run[k + 1].before == run[k].after
  }

  /** Consecutive committed ticks. */
  ghost predicate IsRun(bp: Blueprint, run: seq<Ticked>) {
    Linked(run) && forall k :: 0 <= k < |run| ==> IsTick(bp, run[k])
  }

  /** The facts about one tick that the count needs. */
  ghost predicate Decides(bp: Blueprint, r: Ticked) {
    && r.before.cursor <= r.after.cursor && |r.after.items| == |r.before.items|
    && forall i: nat :: i < |r.before.items| ==> DecidesItem(bp, r, i)
  }

  ghost predicate DecidesItem(bp: Blueprint, r: Ticked, i: nat)
    requires i < |r.before.items|
  {
    && DecidedOn(r.naturals, i) ==
       (if CancelsByDay(bp, |bp.rules|) && r.before.items[i].life.Active? && StartPassed(bp, r.before.cursor, r.after.cursor) then 1 else 0)
    && (CancelsByDay(bp, |bp.rules|) && r.before.items[i].life.Active? ==>
          forall w :: IsStart(bp.calendar, w) && r.before.cursor <= w < r.after.cursor ==> w == r.before.cursor)
  }

  lemma TickIsDecisive(bp: Blueprint, r: Ticked)
    requires IsTick(bp, r)
    ensures Decides(bp, r)
  {
    var now :| Standing(bp, r.before, now);
    StepStands(bp, r.draws, r.before, now, r.requested);
    forall i: nat | i < |r.before.items| ensures DecidesItem(bp, r, i) {
      TickDecides(bp, r.draws, r.before, now, r.requested, i);
    }
  }

  ghost predicate AllDecide(bp: Blueprint, run: seq<Ticked>) {
    Linked(run) && forall k :: 0 <= k < |run| ==> Decides(bp, run[k])
  }

  /** The decisions about item i made by those of the first n ticks that started at w. */
  ghost function DecisionsAt(run: seq<Ticked>, w: int, i: nat, n: nat): nat
    requires n <= |run|
  {
    if n == 0 then 0
    else DecisionsAt(run, w, i, n - 1) + if run[n - 1].before.cursor == w then DecidedOn(run[n - 1].naturals, i) else 0
  }

  lemma {:induction false} SameItems(bp: Blueprint, run: seq<Ticked>, k: nat)
    requires AllDecide(bp, run) && k < |run|
    ensures |run[k].before.items| == |run[0].before.items|
  {
    if k > 0 {
      SameItems(bp, run, k - 1);
      assert Decides(bp, run[k - 1]) && run[(k - 1) + 1].before == run[k - 1].after;
    }
  }

  /** While the cursor has not passed w, nothing is decided at w: a tick of zero length decides nothing. */
  lemma {:induction false} NotYetDecided(bp: Blueprint, run: seq<Ticked>, w: int, i: nat, n: nat)
    requires AllDecide(bp, run) && n < |run| && run[n].before.cursor <= w && i < |run[0].before.items|
    ensures DecisionsAt(run, w, i, n) == 0
  {
    if n > 0 {
      SameItems(bp, run, n - 1);
      assert Decides(bp, run[n - 1]) && run[(n - 1) + 1].before == run[n - 1].after;
      assert DecidesItem(bp, run[n - 1], i);
      NotYetDecided(bp, run, w, i, n - 1);
    }
  }

  lemma {:induction false} DecidedAt(bp: Blueprint, run: seq<Ticked>, w: int, i: nat, n: nat) returns (k: nat)
    requires AllDecide(bp, run) && 0 < n <= |run| && i < |run[0].before.items|
    requires IsStart(bp.calendar, w) && run[0].before.cursor <= w < run[n - 1].after.cursor
    ensures k < n && run[k].before.cursor <= w < run[k].after.cursor && i < |run[k].before.items|
    ensures DecisionsAt(run, w, i, n) == if CancelsByDay(bp, |bp.rules|) && run[k].before.items[i].life.Active? then 1 else 0
    ensures CancelsByDay(bp, |bp.rules|) && run[k].before.items[i].life.Active? ==> run[k].before.cursor == w
  {
    SameItems(bp, run, n - 1);
    assert Decides(bp, run[n - 1]);
    assert DecidesItem(bp, run[n - 1], i);
    if run[n - 1].before.cursor <= w {
      k := n - 1;
      NotYetDecided(bp, run, w, i, n - 1);
      assert StartPassed(bp, run[k].before.cursor, run[k].after.cursor);
    } else {
      assert run[(n - 2) + 1].before == run[n - 2].after;
      k := DecidedAt(bp, run, w, i, n - 1);
    }
  }

  /** Workday decisions: for every workday start w a run has left behind there is one tick that left it
      behind, and over the whole run item i is decided about at w exactly once if it was active in that
      tick, and never otherwise. */
  lemma DecidedOnce(bp: Blueprint, run: seq<Ticked>, w: int, i: nat) returns (k: nat)
    requires IsRun(bp, run) && run != [] && i < |run[0].before.items|
    requires IsStart(bp.calendar, w) && run[0].before.cursor <= w < run[|run| - 1].after.cursor
    ensures k < |run| && run[k].before.cursor <= w < run[k].after.cursor && i < |run[k].before.items|
    ensures DecisionsAt(run, w, i, |run|) == if CancelsByDay(bp, |bp.rules|) && run[k].before.items[i].life.Active? then 1 else 0
    ensures CancelsByDay(bp, |bp.rules|) && run[k].before.items[i].life.Active? ==> run[k].before.cursor == w
  {
    forall j | 0 <= j < |run| ensures Decides(bp, run[j]) {
      TickIsDecisive(bp, run[j]);
    }
    k := DecidedAt(bp, run, w, i, |run|);
  }
}
