/** What evaluating the risk rules keeps, what it claims, and whom it decides about. */
module RiskLaws {
  import opened BusinessCalendar
  import opened Team
  import opened Commands
  import opened Routes
  import opened RunInvariant
  import opened Workdays
  import opened Risks

  // ---------- States ----------

  ghost predicate HasActive(s: State) {
    exists i :: 0 <= i < |s.items| && s.items[i].life.Active?
  }

  predicate WorkdayRules(bp: Blueprint) {
    exists r :: 0 <= r < |bp.rules| && bp.rules[r].trigger.WorkdayStarted?
  }

  /** No workday start lies strictly inside (cursor, asOf) while there is work to decide about. */
  ghost predicate NotPast(bp: Blueprint, s: State, asOf: int) {
    WorkdayRules(bp) && HasActive(s) ==> forall w :: IsStart(bp.calendar, w) && s.cursor < w ==> asOf <= w
  }

  /** What rules may do to a state: cancel active items, make visits wait, add absences. */
  ghost predicate RiskStep(bp: Blueprint, s: State, t: State) {
    && t == s.(items := t.items, visits := t.visits, overlays := t.overlays)
    && |t.items| == |s.items| && t.visits.Keys == s.visits.Keys && s.overlays <= t.overlays
    && (forall i :: 0 <= i < |s.items| ==>
          t.items[i] == s.items[i] || (s.items[i].life.Active? && t.items[i].life.Cancelled?))
    && ValidWindows(bp, t.overlays) && ItemsOk(bp, t)
  }

  lemma RiskStepTrans(bp: Blueprint, s: State, t: State, u: State)
    requires RiskStep(bp, s, t) && RiskStep(bp, t, u)
    ensures RiskStep(bp, s, u)
  {
    forall i | 0 <= i < |s.items|
      ensures u.items[i] == s.items[i] || (s.items[i].life.Active? && u.items[i].life.Cancelled?)
    {
    }
  }

  lemma NotPastLater(bp: Blueprint, s: State, t: State, asOf: int)
    requires NotPast(bp, s, asOf) && RiskStep(bp, s, t)
    ensures NotPast(bp, t, asOf)
  {
    if HasActive(t) {
      var i :| 0 <= i < |t.items| && t.items[i].life.Active?;
      assert s.items[i].life.Active?;
    }
  }

  // ---------- Cancellation ----------

  lemma CancelledVisitOk(bp: Blueprint, draws: Draws, rule: Rule, s: State, w: int, i: nat, n: nat, k: nat)
    requires i < |s.items| && k < n && (i, k) in s.visits && w == s.cursor
    requires VisitOk(bp, s.items[i], i, n, k, s.visits[(i, k)])
    ensures VisitOk(bp, CancelItems(draws, rule, s)[i], i, n, k, CancelVisits(draws, s, w)[(i, k)])
  {
  }

  lemma CancelItemOk(bp: Blueprint, draws: Draws, rule: Rule, s: State, w: int, i: nat)
    requires i < |s.items| && ItemHolds(bp, s, i) && w == s.cursor
    ensures ItemHolds(bp, s.(items := CancelItems(draws, rule, s), visits := CancelVisits(draws, s, w)), i)
  {
    var n := s.counters[VisitOrdinal(i)];
    forall k: nat | k < n
      ensures VisitOk(bp, CancelItems(draws, rule, s)[i], i, n, k, CancelVisits(draws, s, w)[(i, k)])
    {
      CancelledVisitOk(bp, draws, rule, s, w, i, n, k);
    }
  }

  lemma CancelsNone(draws: Draws, rule: Rule, s: State, w: int)
    requires !HasActive(s)
    ensures CancelItems(draws, rule, s) == s.items && CancelVisits(draws, s, w) == s.visits
  {
  }

  lemma CancelKeeps(bp: Blueprint, draws: Draws, rule: Rule, s: State, asOf: int)
    requires Valid(bp.calendar) && ItemsOk(bp, s) && ValidWindows(bp, s.overlays) && NotPast(bp, s, asOf)
    requires rule in bp.rules
    ensures RiskStep(bp, s, Cancel(bp, draws, rule, s, asOf).working)
  {
    var w := WorkdayBoundary(bp.calendar, s.cursor, asOf);
    WorkdayBoundaryLeast(bp.calendar, s.cursor, asOf);
    if rule.trigger.WorkdayStarted? && w.Some? {
      if HasActive(s) {
        assert WorkdayRules(bp);
        assert w.value == s.cursor;
        forall i: nat | i < |s.items|
          ensures ItemHolds(bp, Cancel(bp, draws, rule, s, asOf).working, i)
        {
          CancelItemOk(bp, draws, rule, s, w.value, i);
        }
      } else {
        CancelsNone(draws, rule, s, w.value);
      }
    }
  }

  // ---------- Waiting ----------

  lemma WaitItemOk(bp: Blueprint, draws: Draws, rule: Rule, s: State, asOf: int, i: nat)
    requires i < |s.items| && ItemHolds(bp, s, i)
    ensures ItemHolds(bp, s.(visits := WaitVisits(bp, draws, rule, s, asOf)), i)
  {
    var n := s.counters[VisitOrdinal(i)];
    var after := WaitVisits(bp, draws, rule, s, asOf);
    forall k: nat | k < n ensures VisitOk(bp, s.items[i], i, n, k, after[(i, k)]) {
      assert VisitOk(bp, s.items[i], i, n, k, s.visits[(i, k)]);
    }
  }

  lemma DependKeeps(bp: Blueprint, draws: Draws, rule: Rule, s: State, asOf: int)
    requires ItemsOk(bp, s) && ValidWindows(bp, s.overlays)
    ensures RiskStep(bp, s, Depend(bp, draws, rule, s, asOf).working)
  {
    if rule.trigger.StatusEntered? {
      forall i: nat | i < |s.items|
        ensures ItemHolds(bp, Depend(bp, draws, rule, s, asOf).working, i)
      {
        WaitItemOk(bp, draws, rule, s, asOf, i);
      }
    }
  }

  // ---------- Absence ----------

  lemma {:induction false} AbsencesValid(draws: Draws, s: State, w: int, n: nat)
    ensures forall k :: 0 <= k < |Absences(draws, s, w, n)| ==> ValidWindow(Absences(draws, s, w, n)[k].window)
  {
    if n > 0 {
      AbsencesValid(draws, s, w, n - 1);
      var j: nat := n - 1;
      assert draws.absence(s, j) > 0 ==> draws.absence(s, j) * DAY > 0;
    }
  }

  lemma AbsentKeeps(bp: Blueprint, draws: Draws, rule: Rule, s: State, asOf: int)
    requires ItemsOk(bp, s) && ValidWindows(bp, s.overlays)
    ensures RiskStep(bp, s, Absent(bp, draws, rule, s, asOf).working)
  {
    var w := WorkdayBoundary(bp.calendar, s.cursor, asOf);
    if rule.trigger.WorkdayStarted? && w.Some? {
      AbsencesValid(draws, s, w.value, |bp.members|);
      var after := Absent(bp, draws, rule, s, asOf).working;
      forall i: nat | i < |s.items| ensures ItemHolds(bp, after, i) {
        assert ItemHolds(bp, s, i);
      }
    }
  }

  // ---------- All rules ----------

  lemma {:induction false} EvaluateKeeps(bp: Blueprint, draws: Draws, s: State, asOf: int, n: nat)
    requires Valid(bp.calendar) && ItemsOk(bp, s) && ValidWindows(bp, s.overlays) && NotPast(bp, s, asOf)
    requires n <= |bp.rules|
    ensures RiskStep(bp, s, Evaluate(bp, draws, s, asOf, n).working)
  {
    if n > 0 {
      EvaluateKeeps(bp, draws, s, asOf, n - 1);
      var before := Evaluate(bp, draws, s, asOf, n - 1).working;
      NotPastLater(bp, s, before, asOf);
      match bp.rules[n - 1].kind {
        case Cancellation => CancelKeeps(bp, draws, bp.rules[n - 1], before, asOf);
        case ExternalDependency => DependKeeps(bp, draws, bp.rules[n - 1], before, asOf);
        case MemberUnavailable => AbsentKeeps(bp, draws, bp.rules[n - 1], before, asOf);
      }
      RiskStepTrans(bp, s, before, Evaluate(bp, draws, s, asOf, n).working);
    }
  }

  /** What rule r sees in a tick up to e. */
  ghost function Seen(bp: Blueprint, draws: Draws, s: State, e: int, r: nat): State
    requires r <= |bp.rules|
  {
    Evaluate(bp, draws, s, e, r).working
  }

  lemma {:induction false} RulesCursor(bp: Blueprint, draws: Draws, s: State, asOf: int, n: nat)
    requires n <= |bp.rules|
    ensures Evaluate(bp, draws, s, asOf, n).working.cursor == s.cursor
  {
    if n > 0 {
      RulesCursor(bp, draws, s, asOf, n - 1);
    }
  }

  // ---------- Claims and decisions ----------

  /** Claims and decisions pair up one to one, on counters no other claim uses, at the ordinals seen. */
  ghost predicate Paired(s: State, claims: seq<Claim>, naturals: seq<Natural>) {
    && |claims| == |naturals|
    && (forall c :: 0 <= c < |claims| ==>
          Binds(claims[c], naturals[c]) && claims[c].counter in s.counters && s.counters[claims[c].counter] == claims[c].expected)
    && UniqueCounters(claims)
  }

  /** Every claim is about this kind of decision, and about an entity below n. */
  ghost predicate About(claims: seq<Claim>, decision: Decision, n: nat) {
    forall c :: 0 <= c < |claims| ==>
      claims[c].counter.Occurrence? && claims[c].counter.decision == decision && claims[c].counter.entity < n
  }

  lemma {:induction false} CancelClaimsPaired(bp: Blueprint, s: State, w: int, n: nat)
    requires n <= |s.items| && OccurrencesKnown(bp, s)
    ensures Paired(s, CancelClaims(s, w, n).0, CancelClaims(s, w, n).1) && About(CancelClaims(s, w, n).0, CancellationOutcome, n)
  {
    if n > 0 {
      CancelClaimsPaired(bp, s, w, n - 1);
    }
  }

  lemma {:induction false} AbsenceClaimsPaired(bp: Blueprint, s: State, w: int, n: nat)
    requires n <= |bp.members| && OccurrencesKnown(bp, s)
    ensures Paired(s, AbsenceClaims(s, w, n).0, AbsenceClaims(s, w, n).1) && About(AbsenceClaims(s, w, n).0, AbsenceOutcome, n)
  {
    if n > 0 {
      AbsenceClaimsPaired(bp, s, w, n - 1);
    }
  }

  lemma JoinPaired(s: State, a: seq<Claim>, na: seq<Natural>, b: seq<Claim>, nb: seq<Natural>)
    requires Paired(s, a, na) && Paired(s, b, nb)
    requires forall x, y :: 0 <= x < |a| && 0 <= y < |b| ==> a[x].counter != b[y].counter
    ensures Paired(s, a + b, na + nb)
  {
  }

  /** The kind of rule that makes this decision. */
  function KindOf(decision: Decision): RuleKind {
    match decision case CancellationOutcome => Cancellation case AbsenceOutcome => MemberUnavailable
  }

  /** Every claim so far was made by one of the first n rules. */
  ghost predicate MadeBy(bp: Blueprint, n: nat, claims: seq<Claim>)
    requires n <= |bp.rules|
  {
    forall c :: 0 <= c < |claims| ==> claims[c].counter.Occurrence? && RuleFor(bp, n, claims[c].counter.decision)
  }

  ghost predicate RuleFor(bp: Blueprint, n: nat, decision: Decision)
    requires n <= |bp.rules|
  {
    exists r :: 0 <= r < n && bp.rules[r].kind == KindOf(decision)
  }

  lemma HandlePaired(bp: Blueprint, draws: Draws, rule: Rule, s: State, asOf: int)
    requires OccurrencesKnown(bp, s)
    ensures var r := Handle(bp, draws, rule, s, asOf);
            Paired(s, r.claims, r.naturals)
            && forall c :: 0 <= c < |r.claims| ==> r.claims[c].counter.Occurrence? && rule.kind == KindOf(r.claims[c].counter.decision)
  {
    var w := WorkdayBoundary(bp.calendar, s.cursor, asOf);
    if w.Some? {
      CancelClaimsPaired(bp, s, w.value, |s.items|);
      AbsenceClaimsPaired(bp, s, w.value, |bp.members|);
    }
  }

  lemma {:induction false} EvaluatePaired(bp: Blueprint, draws: Draws, s: State, asOf: int, n: nat)
    requires ValidBlueprint(bp) && ItemsOk(bp, s) && ValidWindows(bp, s.overlays) && NotPast(bp, s, asOf)
    requires OccurrencesKnown(bp, s) && n <= |bp.rules|
    ensures var r := Evaluate(bp, draws, s, asOf, n); Paired(s, r.claims, r.naturals) && MadeBy(bp, n, r.claims)
  {
    if n > 0 {
      EvaluatePaired(bp, draws, s, asOf, n - 1);
      EvaluateKeeps(bp, draws, s, asOf, n - 1);
      var before := Evaluate(bp, draws, s, asOf, n - 1);
      var last := Handle(bp, draws, bp.rules[n - 1], before.working, asOf);
      HandlePaired(bp, draws, bp.rules[n - 1], before.working, asOf);
      KindsApart(bp, n, before.claims, last.claims);
      JoinPaired(s, before.claims, before.naturals, last.claims, last.naturals);
    }
  }

  lemma KindsApart(bp: Blueprint, n: nat, a: seq<Claim>, b: seq<Claim>)
    requires ValidBlueprint(bp) && 0 < n <= |bp.rules| && MadeBy(bp, n - 1, a)
    requires forall c :: 0 <= c < |b| ==> b[c].counter.Occurrence? && bp.rules[n - 1].kind == KindOf(b[c].counter.decision)
    ensures forall x, y :: 0 <= x < |a| && 0 <= y < |b| ==> a[x].counter != b[y].counter
    ensures MadeBy(bp, n, a + b)
  {
    forall x, y | 0 <= x < |a| && 0 <= y < |b| ensures a[x].counter != b[y].counter {
      assert RuleFor(bp, n - 1, a[x].counter.decision);
      var r :| 0 <= r < n - 1 && bp.rules[r].kind == KindOf(a[x].counter.decision);
      assert bp.rules[r].kind != bp.rules[n - 1].kind;
    }
    forall c | 0 <= c < |a + b| ensures (a + b)[c].counter.Occurrence? && RuleFor(bp, n, (a + b)[c].counter.decision) {
      if c < |a| {
        assert RuleFor(bp, n - 1, a[c].counter.decision);
        var r :| 0 <= r < n - 1 && bp.rules[r].kind == KindOf(a[c].counter.decision);
        assert bp.rules[r].kind == KindOf((a + b)[c].counter.decision);
      } else {
        assert bp.rules[n - 1].kind == KindOf((a + b)[c].counter.decision);
      }
    }
  }
}
