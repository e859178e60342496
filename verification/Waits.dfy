/** External-dependency waits, in one evaluation of the rules. */
module Waits {
  import opened BusinessCalendar
  import opened Allocation
  import opened Team
  import opened Routes
  import opened RunInvariant
  import opened Workdays
  import opened Risks

  // ---------- Nothing is due at the cursor itself ----------

  /** Evaluated at the cursor, the rules do nothing. */
  lemma {:induction false} NothingDue(bp: Blueprint, draws: Draws, s: State, n: nat)
    requires n <= |bp.rules|
    ensures Evaluate(bp, draws, s, s.cursor, n) == Evaluation(s, [], [])
  {
    if n > 0 {
      NothingDue(bp, draws, s, n - 1);
      assert WaitVisits(bp, draws, bp.rules[n - 1], s, s.cursor) == s.visits;
    }
  }

  // ---------- What the rules may do to a visit ----------

  /** b is what the rules make of visit a: closed by a cancellation, or made to wait. */
  ghost predicate VisitStep(a: Visit, b: Visit) {
    && b.entered == a.entered && b.status == a.status && b.credited == a.credited
    && (b.open ==> a.open && b.pause >= a.pause && b == PauseFor(a, b.pause - a.pause))
    && (!a.open ==> b == a)
  }

  ghost predicate VisitsStep(s: State, t: State) {
    s.visits.Keys == t.visits.Keys && forall key :: key in s.visits ==> VisitStep(s.visits[key], t.visits[key])
  }

  lemma HandleVisit(bp: Blueprint, draws: Draws, rule: Rule, s: State, asOf: int, key: (nat, nat))
    requires key in s.visits
    ensures var t := Handle(bp, draws, rule, s, asOf).working; key in t.visits && VisitStep(s.visits[key], t.visits[key])
  {
  }

  lemma HandleVisits(bp: Blueprint, draws: Draws, rule: Rule, s: State, asOf: int)
    ensures VisitsStep(s, Handle(bp, draws, rule, s, asOf).working)
  {
    forall key | key in s.visits ensures VisitStep(s.visits[key], Handle(bp, draws, rule, s, asOf).working.visits[key]) {
      HandleVisit(bp, draws, rule, s, asOf, key);
    }
  }

  lemma VisitsStepTrans(s: State, t: State, u: State)
    requires VisitsStep(s, t) && VisitsStep(t, u)
    ensures VisitsStep(s, u)
  {
    forall key | key in s.visits ensures VisitStep(s.visits[key], u.visits[key]) {
      assert VisitStep(s.visits[key], t.visits[key]) && VisitStep(t.visits[key], u.visits[key]);
    }
  }

  lemma {:induction false} EvaluateVisits(bp: Blueprint, draws: Draws, s: State, asOf: int, n: nat)
    requires n <= |bp.rules|
    ensures VisitsStep(s, Evaluate(bp, draws, s, asOf, n).working)
  {
    if n > 0 {
      var before := Evaluate(bp, draws, s, asOf, n - 1).working;
      EvaluateVisits(bp, draws, s, asOf, n - 1);
      HandleVisits(bp, draws, bp.rules[n - 1], before, asOf);
      VisitsStepTrans(s, before, Evaluate(bp, draws, s, asOf, n).working);
    }
  }

  /** What the rules closed, they closed within the tick. */
  ghost predicate ClosedWithin(a: Visit, b: Visit, lo: int, hi: int) {
    && b.entered == a.entered && (!a.open ==> b == a)
    && (a.open && b.open ==> b.closed == a.closed)
    && (a.open && !b.open ==> b.closed.Some? && lo <= b.closed.value < hi)
  }

  lemma HandleCloses(bp: Blueprint, draws: Draws, rule: Rule, s: State, asOf: int, key: (nat, nat))
    requires Valid(bp.calendar) && key in s.visits
    ensures var t := Handle(bp, draws, rule, s, asOf).working;
            key in t.visits && t.cursor == s.cursor && ClosedWithin(s.visits[key], t.visits[key], s.cursor, asOf)
  {
    match rule.kind {
      case Cancellation =>
        WorkdayBoundaryLeast(bp.calendar, s.cursor, asOf);
        var w := WorkdayBoundary(bp.calendar, s.cursor, asOf);
        if w.Some? {
          CancelCloses(draws, s, w.value, asOf, key);
        }
      case ExternalDependency =>
        assert ClosedWithin(s.visits[key], PauseFor(s.visits[key], WaitDelta(bp, draws, rule, s, asOf, s.visits[key])), s.cursor, asOf);
      case MemberUnavailable =>
    }
  }

  lemma CancelCloses(draws: Draws, s: State, w: int, asOf: int, key: (nat, nat))
    requires key in s.visits && s.cursor <= w < asOf
    ensures ClosedWithin(s.visits[key], CancelVisits(draws, s, w)[key], s.cursor, asOf)
  {
  }

  lemma {:induction false} EvaluateCloses(bp: Blueprint, draws: Draws, s: State, asOf: int, n: nat, key: (nat, nat))
    requires Valid(bp.calendar) && n <= |bp.rules| && key in s.visits
    ensures var t := Evaluate(bp, draws, s, asOf, n).working;
            key in t.visits && t.cursor == s.cursor && ClosedWithin(s.visits[key], t.visits[key], s.cursor, asOf)
  {
    if n > 0 {
      EvaluateCloses(bp, draws, s, asOf, n - 1, key);
      HandleCloses(bp, draws, bp.rules[n - 1], Evaluate(bp, draws, s, asOf, n - 1).working, asOf, key);
    }
  }

  // ---------- How long a visit waits ----------

  /** The wait the first n rules configure; nothing when none is an active dependency rule. */
  function WaitOf(bp: Blueprint, n: nat): nat
    requires n <= |bp.rules|
  {
    if n == 0 then 0
    else
      var rule := bp.rules[n - 1];
      if rule.kind.ExternalDependency? && rule.trigger.StatusEntered? then rule.wait else WaitOf(bp, n - 1)
  }

  /** From pause p, over [cursor, asOf): a running wait goes on until it has lasted w; a visit entered
      at the cursor may begin one; any other visit does not wait. */
  ghost predicate WaitsTo(bp: Blueprint, w: nat, cursor: int, asOf: int, a: Visit, b: Visit) {
    if a.status in PausingStatuses(bp) || asOf <= cursor then b.pause == a.pause
    else if a.pause > 0 then b.pause == a.pause + Min(Max(0, w - a.pause), asOf - cursor)
    else if a.entered == cursor then b.pause == 0 || b.pause == Min(w, asOf - cursor)
    else b.pause == 0
  }

  ghost predicate NoDependency(bp: Blueprint, n: nat)
    requires n <= |bp.rules|
  {
    forall r :: 0 <= r < n ==> !bp.rules[r].kind.ExternalDependency?
  }

  /** The rule that makes visits wait. */
  predicate IsDependency(rule: Rule) {
    rule.kind.ExternalDependency? && rule.trigger.StatusEntered?
  }

  lemma OtherRuleWaits(bp: Blueprint, draws: Draws, rule: Rule, s: State, asOf: int, key: (nat, nat))
    requires key in s.visits && !IsDependency(rule)
    ensures var t := Handle(bp, draws, rule, s, asOf).working;
            key in t.visits && t.cursor == s.cursor && (t.visits[key].open ==> t.visits[key] == s.visits[key])
  {
  }

  lemma DependencyWaits(bp: Blueprint, draws: Draws, rule: Rule, s: State, asOf: int, key: (nat, nat))
    requires key in s.visits && IsDependency(rule)
    ensures var t := Handle(bp, draws, rule, s, asOf).working;
            key in t.visits && t.cursor == s.cursor
            && (t.visits[key].open ==> WaitsTo(bp, rule.wait, s.cursor, asOf, s.visits[key], t.visits[key]))
  {
  }

  lemma {:induction false} NoDependencyWaits(bp: Blueprint, draws: Draws, s: State, asOf: int, n: nat, key: (nat, nat))
    requires key in s.visits && n <= |bp.rules| && NoDependency(bp, n)
    ensures var t := Evaluate(bp, draws, s, asOf, n).working;
            key in t.visits && t.cursor == s.cursor && (t.visits[key].open ==> t.visits[key] == s.visits[key])
  {
    if n > 0 {
      NoDependencyWaits(bp, draws, s, asOf, n - 1, key);
      OtherRuleWaits(bp, draws, bp.rules[n - 1], Evaluate(bp, draws, s, asOf, n - 1).working, asOf, key);
    }
  }

  /** Whatever the other rules do, a visit left open waits as the dependency rule says, and no longer. */
  lemma {:induction false} EvaluateWaits(bp: Blueprint, draws: Draws, s: State, asOf: int, n: nat, key: (nat, nat))
    requires ValidBlueprint(bp) && key in s.visits && n <= |bp.rules|
    ensures var t := Evaluate(bp, draws, s, asOf, n).working;
            key in t.visits && t.cursor == s.cursor
            && (t.visits[key].open ==> WaitsTo(bp, WaitOf(bp, n), s.cursor, asOf, s.visits[key], t.visits[key]))
  {
    if n > 0 {
      var before := Evaluate(bp, draws, s, asOf, n - 1).working;
      if IsDependency(bp.rules[n - 1]) {
        NoDependencyWaits(bp, draws, s, asOf, n - 1, key);
        DependencyWaits(bp, draws, bp.rules[n - 1], before, asOf, key);
      } else {
        EvaluateWaits(bp, draws, s, asOf, n - 1, key);
        OtherRuleWaits(bp, draws, bp.rules[n - 1], before, asOf, key);
        EvaluateVisits(bp, draws, s, asOf, n - 1);
      }
      StillOpenBefore(bp, draws, bp.rules[n - 1], before, asOf, key);
    }
  }

  lemma StillOpenBefore(bp: Blueprint, draws: Draws, rule: Rule, s: State, asOf: int, key: (nat, nat))
    requires key in s.visits
    ensures var t := Handle(bp, draws, rule, s, asOf).working;
            key in t.visits && (t.visits[key].open ==> s.visits[key].open)
  {
    HandleVisits(bp, draws, rule, s, asOf);
    assert VisitStep(s.visits[key], Handle(bp, draws, rule, s, asOf).working.visits[key]);
  }
}
