/** What the rules do, rule by rule and draw by draw: whom they cancel, whom they make absent and for how
    long, and whom they make wait. */
module RiskEffects {
  import opened BusinessCalendar
  import opened Allocation
  import opened Team
  import opened Commands
  import opened Routes
  import opened RunInvariant
  import opened Workdays
  import opened Risks
  import opened RiskLaws

  // ---------- When rules are due ----------

  /** w is the workday start at which workday rules are due in [cursor, asOf). */
  ghost predicate DueAt(c: Calendar, cursor: int, asOf: int, w: int) {
    && IsStart(c, w) && cursor <= w < asOf
    && forall u :: IsStart(c, u) && cursor <= u < asOf ==> w <= u
  }

  lemma BoundaryIsDue(c: Calendar, cursor: int, asOf: int)
    requires Valid(c)
    ensures forall w :: DueAt(c, cursor, asOf, w) <==> WorkdayBoundary(c, cursor, asOf) == Some(w)
  {
    WorkdayBoundaryLeast(c, cursor, asOf);
  }

  // ---------- Cancellation ----------

  ghost predicate SomeDue(c: Calendar, cursor: int, asOf: int) {
    exists w :: DueAt(c, cursor, asOf, w)
  }

  lemma SomeDueIs(c: Calendar, cursor: int, asOf: int)
    requires Valid(c)
    ensures SomeDue(c, cursor, asOf) <==> WorkdayBoundary(c, cursor, asOf).Some?
    ensures WorkdayBoundary(c, cursor, asOf).Some? ==> DueAt(c, cursor, asOf, WorkdayBoundary(c, cursor, asOf).value)
  {
    WorkdayBoundaryLeast(c, cursor, asOf);
    var w := WorkdayBoundary(c, cursor, asOf);
    assert w.Some? ==> DueAt(c, cursor, asOf, w.value);
  }

  /** A rule of this kind, triggered by the start of a workday. */
  ghost predicate Daily(rule: Rule, kind: RuleKind) {
    rule.kind == kind && rule.trigger.WorkdayStarted?
  }

  /** The rule, seeing state t, cancels item i: its draw says so. */
  ghost predicate Cancels(draws: Draws, rule: Rule, t: State, i: nat) {
    Daily(rule, Cancellation) && draws.cancels(t, i)
  }

  /** Rule r is due and cancels item i. */
  ghost predicate CancelledBy(bp: Blueprint, draws: Draws, s: State, asOf: int, r: nat, i: nat) {
    r < |bp.rules| && SomeDue(bp.calendar, s.cursor, asOf) && Cancels(draws, bp.rules[r], Seen(bp, draws, s, asOf, r), i)
  }

  lemma HandleItems(bp: Blueprint, draws: Draws, rule: Rule, t: State, asOf: int, i: nat)
    requires i < |t.items|
    ensures var after := Handle(bp, draws, rule, t, asOf).working;
            && |after.items| == |t.items|
            && after.items[i] == if WorkdayBoundary(bp.calendar, t.cursor, asOf).Some? && t.items[i].life.Active? && Cancels(draws, rule, t, i)
                                 then t.items[i].(life := Cancelled, status := rule.target) else t.items[i]
  {
  }

  /** An item is cancelled, in the rule's target status, exactly if it was active and a due cancellation rule
      draws so; otherwise it is as it was. */
  lemma {:induction false} CancelEffect(bp: Blueprint, draws: Draws, s: State, asOf: int, n: nat, i: nat)
    requires ValidBlueprint(bp) && n <= |bp.rules| && i < |s.items|
    ensures |Seen(bp, draws, s, asOf, n).items| == |s.items|
    ensures forall r: nat :: r < n && s.items[i].life.Active? && CancelledBy(bp, draws, s, asOf, r, i) ==>
              Seen(bp, draws, s, asOf, n).items[i] == s.items[i].(life := Cancelled, status := bp.rules[r].target)
    ensures !s.items[i].life.Active? || (forall r: nat :: r < n ==> !CancelledBy(bp, draws, s, asOf, r, i)) ==>
              Seen(bp, draws, s, asOf, n).items[i] == s.items[i]
  {
    if n > 0 {
      CancelEffect(bp, draws, s, asOf, n - 1, i);
      var seen, next := Seen(bp, draws, s, asOf, n - 1), Seen(bp, draws, s, asOf, n);
      assert next == Handle(bp, draws, bp.rules[n - 1], seen, asOf).working;
      RulesCursor(bp, draws, s, asOf, n - 1);
      SomeDueIs(bp.calendar, s.cursor, asOf);
      HandleItems(bp, draws, bp.rules[n - 1], seen, asOf, i);
      OneRuleOfKind(bp, draws, s, asOf, n - 1, i);
      assert CancelledBy(bp, draws, s, asOf, n - 1, i) <==>
             WorkdayBoundary(bp.calendar, s.cursor, asOf).Some? && Cancels(draws, bp.rules[n - 1], seen, i);
    }
  }

  /** Only one rule can cancel. */
  lemma OneRuleOfKind(bp: Blueprint, draws: Draws, s: State, asOf: int, n: nat, i: nat)
    requires ValidBlueprint(bp) && n < |bp.rules|
    ensures CancelledBy(bp, draws, s, asOf, n, i) ==> forall r: nat :: r < n ==> !CancelledBy(bp, draws, s, asOf, r, i)
  {
  }

  // ---------- What becomes of a visit ----------

  /** b is visit a closed where a workday decision fell due, nobody's and with no work left; what it had
      waited before that stands. */
  ghost predicate ClosedWhenDue(c: Calendar, cursor: int, asOf: int, a: Visit, b: Visit) {
    && b.closed.Some? && DueAt(c, cursor, asOf, b.closed.value) && b.pause >= a.pause
    && b == a.(open := false, member := None, closed := b.closed, elapsed := a.required, remaining := 0,
               queue := a.queue + (b.pause - a.pause), pause := b.pause)
  }

  /** b is visit a, or a made to wait: nobody's, the wait counted as queueing. */
  ghost predicate MadeToWait(a: Visit, b: Visit) {
    && b.pause >= a.pause
    && b == a.(member := if b.pause == a.pause then a.member else None,
               queue := a.queue + (b.pause - a.pause), pause := b.pause)
  }

  ghost predicate VisitFate(c: Calendar, cursor: int, asOf: int, cancelled: bool, a: Visit, b: Visit) {
    if !a.open then b == a
    else if cancelled then ClosedWhenDue(c, cursor, asOf, a, b)
    else MadeToWait(a, b)
  }

  lemma CancelVisitFate(bp: Blueprint, draws: Draws, rule: Rule, t: State, asOf: int, key: (nat, nat), w: int)
    requires key in t.visits && key.0 < |t.items| && DueAt(bp.calendar, t.cursor, asOf, w) && Daily(rule, Cancellation)
    ensures VisitFate(bp.calendar, t.cursor, asOf, t.items[key.0].life.Active? && Cancels(draws, rule, t, key.0),
                      t.visits[key], CancelVisits(draws, t, w)[key])
  {
  }

  lemma WaitVisitFate(bp: Blueprint, draws: Draws, rule: Rule, t: State, asOf: int, key: (nat, nat))
    requires key in t.visits
    ensures VisitFate(bp.calendar, t.cursor, asOf, false, t.visits[key], WaitVisits(bp, draws, rule, t, asOf)[key])
  {
  }

  lemma CancellationFate(bp: Blueprint, draws: Draws, rule: Rule, t: State, asOf: int, key: (nat, nat))
    requires Valid(bp.calendar) && key in t.visits && key.0 < |t.items| && rule.kind.Cancellation?
    ensures VisitFate(bp.calendar, t.cursor, asOf,
                      SomeDue(bp.calendar, t.cursor, asOf) && t.items[key.0].life.Active? && Cancels(draws, rule, t, key.0),
                      t.visits[key], Cancel(bp, draws, rule, t, asOf).working.visits[key])
  {
    SomeDueIs(bp.calendar, t.cursor, asOf);
    var w := WorkdayBoundary(bp.calendar, t.cursor, asOf);
    if Daily(rule, Cancellation) && w.Some? {
      CancelVisitFate(bp, draws, rule, t, asOf, key, w.value);
    }
  }

  lemma HandleVisitFate(bp: Blueprint, draws: Draws, rule: Rule, t: State, asOf: int, key: (nat, nat))
    requires Valid(bp.calendar) && key in t.visits && key.0 < |t.items|
    ensures var after := Handle(bp, draws, rule, t, asOf).working;
            && key in after.visits
            && VisitFate(bp.calendar, t.cursor, asOf,
                         SomeDue(bp.calendar, t.cursor, asOf) && t.items[key.0].life.Active? && Cancels(draws, rule, t, key.0),
                         t.visits[key], after.visits[key])
  {
    match rule.kind {
      case Cancellation => CancellationFate(bp, draws, rule, t, asOf, key);
      case ExternalDependency => WaitVisitFate(bp, draws, rule, t, asOf, key);
      case MemberUnavailable =>
    }
  }

  /** Two steps, at most one of which cancels. */
  lemma FateTrans(c: Calendar, cursor: int, asOf: int, first: bool, second: bool, a: Visit, b: Visit, d: Visit)
    requires VisitFate(c, cursor, asOf, first, a, b) && VisitFate(c, cursor, asOf, second, b, d) && !(first && second)
    ensures VisitFate(c, cursor, asOf, first || second, a, d)
  {
  }

  /** Item i is active and one of the first n rules cancels it. */
  ghost predicate CancelledAmong(bp: Blueprint, draws: Draws, s: State, asOf: int, n: nat, i: nat)
    requires i < |s.items|
  {
    s.items[i].life.Active? && exists r: nat :: r < n && CancelledBy(bp, draws, s, asOf, r, i)
  }

  lemma CancelledNext(bp: Blueprint, draws: Draws, s: State, asOf: int, n: nat, i: nat)
    requires ValidBlueprint(bp) && n < |bp.rules| && i < |s.items|
    ensures var seen := Seen(bp, draws, s, asOf, n);
            && |seen.items| == |s.items|
            && (CancelledAmong(bp, draws, s, asOf, n + 1, i) <==>
                  CancelledAmong(bp, draws, s, asOf, n, i)
                  || (SomeDue(bp.calendar, s.cursor, asOf) && seen.items[i].life.Active? && Cancels(draws, bp.rules[n], seen, i)))
            && !(CancelledAmong(bp, draws, s, asOf, n, i) && seen.items[i].life.Active?)
  {
    CancelEffect(bp, draws, s, asOf, n, i);
    OneRuleOfKind(bp, draws, s, asOf, n, i);
    if s.items[i].life.Active? && CancelledBy(bp, draws, s, asOf, n, i) {
      assert CancelledAmong(bp, draws, s, asOf, n + 1, i);
    }
  }

  /** One rule more. */
  lemma FateNext(bp: Blueprint, draws: Draws, s: State, asOf: int, n: nat, key: (nat, nat), seen: State, next: State)
    requires ValidBlueprint(bp) && n < |bp.rules| && key in s.visits && key.0 < |s.items|
    requires seen == Seen(bp, draws, s, asOf, n) && next == Handle(bp, draws, bp.rules[n], seen, asOf).working
    requires key in seen.visits
    requires VisitFate(bp.calendar, s.cursor, asOf, CancelledAmong(bp, draws, s, asOf, n, key.0), s.visits[key], seen.visits[key])
    ensures key in next.visits
    ensures VisitFate(bp.calendar, s.cursor, asOf, CancelledAmong(bp, draws, s, asOf, n + 1, key.0), s.visits[key], next.visits[key])
  {
    CancelledNext(bp, draws, s, asOf, n, key.0);
    RulesCursor(bp, draws, s, asOf, n);
    HandleVisitFate(bp, draws, bp.rules[n], seen, asOf, key);
    var now := SomeDue(bp.calendar, s.cursor, asOf) && seen.items[key.0].life.Active? && Cancels(draws, bp.rules[n], seen, key.0);
    FateTrans(bp.calendar, s.cursor, asOf, CancelledAmong(bp, draws, s, asOf, n, key.0), now,
              s.visits[key], seen.visits[key], next.visits[key]);
  }

  lemma FateStart(bp: Blueprint, draws: Draws, s: State, asOf: int, key: (nat, nat))
    requires key in s.visits && key.0 < |s.items|
    ensures !CancelledAmong(bp, draws, s, asOf, 0, key.0)
    ensures VisitFate(bp.calendar, s.cursor, asOf, false, s.visits[key], s.visits[key])
  {
  }

  /** The open visit of an item that is cancelled closes at the workday start where the decision fell due,
      with no owner and no work left; every other open visit stays open and at most waits, and a closed one
      is as it was. */
  lemma {:induction false} CancelledVisitCloses(bp: Blueprint, draws: Draws, s: State, asOf: int, n: nat, key: (nat, nat))
    requires ValidBlueprint(bp) && n <= |bp.rules| && key in s.visits && key.0 < |s.items|
    ensures key in Seen(bp, draws, s, asOf, n).visits
    ensures VisitFate(bp.calendar, s.cursor, asOf, CancelledAmong(bp, draws, s, asOf, n, key.0),
                      s.visits[key], Seen(bp, draws, s, asOf, n).visits[key])
  {
    if n == 0 {
      FateStart(bp, draws, s, asOf, key);
      assert Seen(bp, draws, s, asOf, 0) == s;
    } else {
      CancelledVisitCloses(bp, draws, s, asOf, n - 1, key);
      var seen, next := Seen(bp, draws, s, asOf, n - 1), Seen(bp, draws, s, asOf, n);
      assert next == Handle(bp, draws, bp.rules[n - 1], seen, asOf).working;
      FateNext(bp, draws, s, asOf, n - 1, key, seen, next);
    }
  }

  // ---------- How long a visit waits ----------

  /** A dependency rule triggered by entering a status. */
  ghost predicate OnEntry(rule: Rule) {
    rule.kind == ExternalDependency && rule.trigger == StatusEntered
  }

  /** The pause, over [cursor, asOf), of a visit in a status that stops the service clock or not: a running
      wait goes on until it has lasted `wait`, one entered at the cursor begins when drawn. */
  ghost function PauseAfter(stops: bool, wait: nat, drawn: bool, cursor: int, asOf: int, v: Visit): int {
    if stops || asOf <= cursor || wait <= v.pause then v.pause
    else if v.pause > 0 || (v.entered == cursor && drawn) then
      if wait - v.pause <= asOf - cursor then wait else v.pause + (asOf - cursor)
    else 0
  }

  ghost predicate Stops(bp: Blueprint, status: Key) {
    status in bp.statuses && bp.statuses[status].pauses
  }

  lemma WaitPause(bp: Blueprint, draws: Draws, rule: Rule, t: State, asOf: int, v: Visit)
    requires v.open
    ensures var after := PauseFor(v, WaitDelta(bp, draws, rule, t, asOf, v));
            && MadeToWait(v, after)
            && after.pause == PauseAfter(Stops(bp, v.status), rule.wait, draws.depends(t, v.item), t.cursor, asOf, v)
  {
  }

  lemma HandlePause(bp: Blueprint, draws: Draws, rule: Rule, t: State, asOf: int, key: (nat, nat))
    requires key in t.visits
    ensures var after := Handle(bp, draws, rule, t, asOf).working;
            key in after.visits && (after.visits[key].open ==>
              var v := t.visits[key];
              && v.open && MadeToWait(v, after.visits[key])
              && after.visits[key].pause == if OnEntry(rule)
                                            then PauseAfter(Stops(bp, v.status), rule.wait, draws.depends(t, v.item), t.cursor, asOf, v)
                                            else v.pause)
  {
    if OnEntry(rule) && t.visits[key].open {
      WaitPause(bp, draws, rule, t, asOf, t.visits[key]);
    }
  }

  /** The first n rules, seeing what they see, made visit v into `after`. */
  ghost predicate Paused(bp: Blueprint, draws: Draws, s: State, asOf: int, n: nat, v: Visit, after: Visit)
    requires n <= |bp.rules|
  {
    && (forall r: nat :: r < n && OnEntry(bp.rules[r]) ==>
          after.pause == PauseAfter(Stops(bp, v.status), bp.rules[r].wait,
                                    draws.depends(Seen(bp, draws, s, asOf, r), v.item), s.cursor, asOf, v))
    && ((forall r: nat :: r < n ==> !OnEntry(bp.rules[r])) ==> after.pause == v.pause)
  }

  lemma PausedNext(bp: Blueprint, draws: Draws, s: State, asOf: int, n: nat, v: Visit, before: Visit, after: Visit)
    requires ValidBlueprint(bp) && n < |bp.rules|
    requires MadeToWait(v, before) && Paused(bp, draws, s, asOf, n, v, before)
    requires MadeToWait(before, after)
    requires after.pause == if OnEntry(bp.rules[n])
                            then PauseAfter(Stops(bp, before.status), bp.rules[n].wait,
                                            draws.depends(Seen(bp, draws, s, asOf, n), before.item), s.cursor, asOf, before)
                            else before.pause
    ensures MadeToWait(v, after) && Paused(bp, draws, s, asOf, n + 1, v, after)
  {
    if OnEntry(bp.rules[n]) {
      assert forall r: nat :: r < n ==> !OnEntry(bp.rules[r]);
      assert before == v;
    }
  }

  /** One rule more. */
  lemma PauseNext(bp: Blueprint, draws: Draws, s: State, asOf: int, n: nat, key: (nat, nat), seen: State, next: State)
    requires ValidBlueprint(bp) && n < |bp.rules| && key in s.visits && key in seen.visits
    requires seen == Seen(bp, draws, s, asOf, n) && next == Handle(bp, draws, bp.rules[n], seen, asOf).working
    requires seen.visits[key].open ==>
               s.visits[key].open && MadeToWait(s.visits[key], seen.visits[key]) && Paused(bp, draws, s, asOf, n, s.visits[key], seen.visits[key])
    ensures key in next.visits
    ensures next.visits[key].open ==>
              s.visits[key].open && MadeToWait(s.visits[key], next.visits[key]) && Paused(bp, draws, s, asOf, n + 1, s.visits[key], next.visits[key])
  {
    RulesCursor(bp, draws, s, asOf, n);
    HandlePause(bp, draws, bp.rules[n], seen, asOf, key);
    if next.visits[key].open {
      PausedNext(bp, draws, s, asOf, n, s.visits[key], seen.visits[key], next.visits[key]);
    }
  }

  /** A visit the rules leave open waits exactly as the dependency rule draws and configures; without such a
      rule it does not wait. */
  lemma {:induction false} DependencyEffect(bp: Blueprint, draws: Draws, s: State, asOf: int, n: nat, key: (nat, nat))
    requires ValidBlueprint(bp) && n <= |bp.rules| && key in s.visits
    ensures key in Seen(bp, draws, s, asOf, n).visits
    ensures var v, after := s.visits[key], Seen(bp, draws, s, asOf, n).visits[key];
            after.open ==> v.open && MadeToWait(v, after) && Paused(bp, draws, s, asOf, n, v, after)
  {
    if n == 0 {
      assert Seen(bp, draws, s, asOf, 0) == s;
    } else {
      DependencyEffect(bp, draws, s, asOf, n - 1, key);
      var seen, next := Seen(bp, draws, s, asOf, n - 1), Seen(bp, draws, s, asOf, n);
      assert next == Handle(bp, draws, bp.rules[n - 1], seen, asOf).working;
      PauseNext(bp, draws, s, asOf, n - 1, key, seen, next);
    }
  }

  // ---------- Absence ----------

  /** Member j owns an open visit. */
  ghost predicate Works(bp: Blueprint, t: State, j: nat) {
    j < |bp.members| && exists key :: key in t.visits && t.visits[key].open && t.visits[key].member == Some(j)
  }

  /** Member j owns an open visit and is drawn absent for some days. */
  ghost predicate Falls(bp: Blueprint, draws: Draws, t: State, j: nat) {
    Works(bp, t, j) && draws.absence(t, j) > 0
  }

  /** From w on, whole days of no availability and no capacity. */
  ghost predicate Away(draws: Draws, t: State, w: int, o: Overlay) {
    o == Overlay(o.member, Window(w, w + draws.absence(t, o.member) * 86_400_000_000, 0.0, Some(0)))
  }

  /** One absence from w on for each member below n who falls ill, in member order. */
  ghost predicate Absentees(bp: Blueprint, draws: Draws, t: State, w: int, n: nat, added: seq<Overlay>) {
    && (forall x :: 0 <= x < |added| ==> Away(draws, t, w, added[x]) && added[x].member < n && Falls(bp, draws, t, added[x].member))
    && (forall x, y :: 0 <= x < y < |added| ==> added[x].member < added[y].member)
    && (forall j: nat :: j < n && Falls(bp, draws, t, j) ==> exists x :: 0 <= x < |added| && added[x].member == j)
  }

  lemma FallsIs(bp: Blueprint, draws: Draws, t: State, j: nat)
    requires j < |bp.members|
    ensures Falls(bp, draws, t, j) <==> OwnsOpen(t, j) && draws.absence(t, j) > 0
  {
  }

  lemma AbsenteesNext(bp: Blueprint, draws: Draws, t: State, w: int, n: nat, added: seq<Overlay>, o: Overlay)
    requires n < |bp.members| && Absentees(bp, draws, t, w, n, added) && Away(draws, t, w, o) && o.member == n
    ensures Falls(bp, draws, t, n) ==> Absentees(bp, draws, t, w, n + 1, added + [o])
    ensures !Falls(bp, draws, t, n) ==> Absentees(bp, draws, t, w, n + 1, added)
  {
    if Falls(bp, draws, t, n) {
      var all := added + [o];
      forall j: nat | j < n + 1 && Falls(bp, draws, t, j) ensures exists x :: 0 <= x < |all| && all[x].member == j {
        if j < n {
          var x :| 0 <= x < |added| && added[x].member == j;
          assert all[x].member == j;
        } else {
          assert all[|added|].member == j;
        }
      }
    }
  }

  lemma AbsencesNext(draws: Draws, t: State, w: int, n: nat)
    ensures var o := Overlay(n, Window(w, w + draws.absence(t, n) * 86_400_000_000, 0.0, Some(0)));
            Absences(draws, t, w, n + 1) ==
            if OwnsOpen(t, n) && draws.absence(t, n) > 0 then Absences(draws, t, w, n) + [o] else Absences(draws, t, w, n)
  {
    assert DAY == 86_400_000_000;
  }

  lemma {:induction false} AbsencesAre(bp: Blueprint, draws: Draws, t: State, w: int, n: nat)
    requires n <= |bp.members|
    ensures Absentees(bp, draws, t, w, n, Absences(draws, t, w, n))
  {
    if n > 0 {
      var j: nat := n - 1;
      AbsencesAre(bp, draws, t, w, j);
      FallsIs(bp, draws, t, j);
      AbsencesNext(draws, t, w, j);
      var o := Overlay(j, Window(w, w + draws.absence(t, j) * 86_400_000_000, 0.0, Some(0)));
      assert Away(draws, t, w, o);
      AbsenteesNext(bp, draws, t, w, j, Absences(draws, t, w, j), o);
    }
  }

  lemma HandleAbsence(bp: Blueprint, draws: Draws, rule: Rule, t: State, asOf: int)
    requires Valid(bp.calendar)
    ensures var after := Handle(bp, draws, rule, t, asOf).working;
            && t.overlays <= after.overlays
            && (Daily(rule, MemberUnavailable) ==>
                  forall w :: DueAt(bp.calendar, t.cursor, asOf, w) ==>
                    Absentees(bp, draws, t, w, |bp.members|, after.overlays[|t.overlays|..]))
            && (!Daily(rule, MemberUnavailable) || !SomeDue(bp.calendar, t.cursor, asOf) ==> after.overlays == t.overlays)
  {
    SomeDueIs(bp.calendar, t.cursor, asOf);
    if Daily(rule, MemberUnavailable) {
      forall w | DueAt(bp.calendar, t.cursor, asOf, w)
        ensures Absentees(bp, draws, t, w, |bp.members|, Absent(bp, draws, rule, t, asOf).working.overlays[|t.overlays|..])
      {
        BoundaryIsDue(bp.calendar, t.cursor, asOf);
        AbsencesAre(bp, draws, t, w, |bp.members|);
        assert Absent(bp, draws, rule, t, asOf).working.overlays[|t.overlays|..] == Absences(draws, t, w, |bp.members|);
      }
    }
  }

  /** The rules write one absence, from the workday start where it fell due and for as many whole days as
      drawn, for each member who owns an open visit then and whose draw makes them absent; nothing else. */
  lemma {:induction false} AbsenceEffect(bp: Blueprint, draws: Draws, s: State, asOf: int, n: nat)
    requires ValidBlueprint(bp) && n <= |bp.rules|
    ensures s.overlays <= Seen(bp, draws, s, asOf, n).overlays
    ensures forall r: nat, w :: r < n && Daily(bp.rules[r], MemberUnavailable) && DueAt(bp.calendar, s.cursor, asOf, w) ==>
              Absentees(bp, draws, Seen(bp, draws, s, asOf, r), w, |bp.members|,
                        Seen(bp, draws, s, asOf, n).overlays[|s.overlays|..])
    ensures !SomeDue(bp.calendar, s.cursor, asOf) || (forall r: nat :: r < n ==> !Daily(bp.rules[r], MemberUnavailable)) ==>
              Seen(bp, draws, s, asOf, n).overlays == s.overlays
  {
    if n > 0 {
      AbsenceEffect(bp, draws, s, asOf, n - 1);
      RulesCursor(bp, draws, s, asOf, n - 1);
      var seen, next := Seen(bp, draws, s, asOf, n - 1), Seen(bp, draws, s, asOf, n);
      assert next == Handle(bp, draws, bp.rules[n - 1], seen, asOf).working;
      HandleAbsence(bp, draws, bp.rules[n - 1], seen, asOf);
      assert Daily(bp.rules[n - 1], MemberUnavailable) ==> seen.overlays == s.overlays;
    }
  }

  // ---------- Decisions ----------

  /** The UTC day w lies on. */
  ghost predicate OnDay(day: int, w: int) {
    day * 86_400_000_000 <= w < (day + 1) * 86_400_000_000
  }

  ghost predicate DecidesAbsence(naturals: seq<Natural>, j: nat) {
    exists c :: 0 <= c < |naturals| && naturals[c].decision == AbsenceOutcome && naturals[c].entity == j
  }

  ghost predicate Dated(naturals: seq<Natural>, w: int) {
    forall c :: 0 <= c < |naturals| ==> OnDay(naturals[c].day, w)
  }

  lemma {:induction false} AbsencesDecided(bp: Blueprint, t: State, w: int, n: nat)
    requires n <= |bp.members|
    ensures Dated(AbsenceClaims(t, w, n).1, w)
    ensures forall j: nat :: DecidesAbsence(AbsenceClaims(t, w, n).1, j) <==> j < n && Works(bp, t, j)
  {
    if n > 0 {
      AbsencesDecided(bp, t, w, n - 1);
      var j: nat := n - 1;
      var before, after := AbsenceClaims(t, w, j).1, AbsenceClaims(t, w, n).1;
      assert OwnsOpen(t, j) <==> Works(bp, t, j);
      if OwnsOpen(t, j) {
        var last := Natural(AbsenceOutcome, j, Next(t, Occurrence(AbsenceOutcome, j)), UtcDate(w));
        assert after == before + [last] && OnDay(last.day, w);
        OneMoreDecided(before, last);
      }
    }
  }

  lemma OneMoreDecided(before: seq<Natural>, last: Natural)
    requires last.decision == AbsenceOutcome
    ensures forall j: nat :: DecidesAbsence(before + [last], j) <==> DecidesAbsence(before, j) || j == last.entity
  {
    JoinDecided(before, [last]);
    assert [last][0] == last;
  }

  lemma JoinDecided(a: seq<Natural>, b: seq<Natural>)
    ensures forall j: nat :: DecidesAbsence(a + b, j) <==> DecidesAbsence(a, j) || DecidesAbsence(b, j)
    ensures forall w :: Dated(a + b, w) <==> Dated(a, w) && Dated(b, w)
  {
    var both := a + b;
    forall j: nat | DecidesAbsence(a, j) ensures DecidesAbsence(both, j) {
      var c :| 0 <= c < |a| && a[c].decision == AbsenceOutcome && a[c].entity == j;
      assert both[c] == a[c];
    }
    forall j: nat | DecidesAbsence(b, j) ensures DecidesAbsence(both, j) {
      var c :| 0 <= c < |b| && b[c].decision == AbsenceOutcome && b[c].entity == j;
      assert both[|a| + c] == b[c];
    }
    forall w | Dated(both, w) ensures Dated(a, w) && Dated(b, w) {
      assert forall c :: 0 <= c < |a| ==> a[c] == both[c];
      assert forall c :: 0 <= c < |b| ==> b[c] == both[|a| + c];
    }
  }

  lemma {:induction false} CancellationsDated(t: State, w: int, n: nat)
    requires n <= |t.items|
    ensures Dated(CancelClaims(t, w, n).1, w)
    ensures forall j: nat :: !DecidesAbsence(CancelClaims(t, w, n).1, j)
  {
    if n > 0 {
      CancellationsDated(t, w, n - 1);
      var i: nat := n - 1;
      var last := Natural(CancellationOutcome, i, Next(t, Occurrence(CancellationOutcome, i)), UtcDate(w));
      assert OnDay(last.day, w) && Dated([last], w);
      JoinDecided(CancelClaims(t, w, i).1, [last]);
      assert forall j: nat :: !DecidesAbsence([last], j);
    }
  }

  lemma HandleDecisions(bp: Blueprint, draws: Draws, rule: Rule, t: State, asOf: int)
    requires Valid(bp.calendar)
    ensures var naturals := Handle(bp, draws, rule, t, asOf).naturals;
            && (naturals != [] ==> SomeDue(bp.calendar, t.cursor, asOf))
            && (forall w :: DueAt(bp.calendar, t.cursor, asOf, w) ==> Dated(naturals, w))
            && (forall j: nat :: DecidesAbsence(naturals, j) <==>
                  SomeDue(bp.calendar, t.cursor, asOf) && Daily(rule, MemberUnavailable) && Works(bp, t, j))
  {
    BoundaryIsDue(bp.calendar, t.cursor, asOf);
    SomeDueIs(bp.calendar, t.cursor, asOf);
    var w := WorkdayBoundary(bp.calendar, t.cursor, asOf);
    if w.Some? {
      AbsencesDecided(bp, t, w.value, |bp.members|);
      CancellationsDated(t, w.value, |t.items|);
    }
  }

  /** One of the first n rules decides about absence and sees member j own an open visit. */
  ghost predicate AsksAbsence(bp: Blueprint, draws: Draws, s: State, asOf: int, n: nat, j: nat)
    requires n <= |bp.rules|
  {
    exists r: nat :: r < n && Daily(bp.rules[r], MemberUnavailable) && Works(bp, Seen(bp, draws, s, asOf, r), j)
  }

  lemma AsksNext(bp: Blueprint, draws: Draws, s: State, asOf: int, n: nat, j: nat)
    requires n < |bp.rules|
    ensures AsksAbsence(bp, draws, s, asOf, n + 1, j) <==>
            AsksAbsence(bp, draws, s, asOf, n, j)
            || (Daily(bp.rules[n], MemberUnavailable) && Works(bp, Seen(bp, draws, s, asOf, n), j))
  {
  }

  /** Every decision is dated on the UTC day of the workday start where it fell due, and decisions about
      absence are about exactly the members the rule sees owning an open visit. */
  lemma {:induction false} DecisionEffect(bp: Blueprint, draws: Draws, s: State, asOf: int, n: nat)
    requires ValidBlueprint(bp) && n <= |bp.rules|
    ensures var naturals := Evaluate(bp, draws, s, asOf, n).naturals;
            && (naturals != [] ==> SomeDue(bp.calendar, s.cursor, asOf))
            && (forall w :: DueAt(bp.calendar, s.cursor, asOf, w) ==> Dated(naturals, w))
            && (forall j: nat :: DecidesAbsence(naturals, j) <==>
                  SomeDue(bp.calendar, s.cursor, asOf) && AsksAbsence(bp, draws, s, asOf, n, j))
  {
    if n > 0 {
      var r: nat := n - 1;
      DecisionEffect(bp, draws, s, asOf, r);
      RulesCursor(bp, draws, s, asOf, r);
      var before := Evaluate(bp, draws, s, asOf, r);
      var last := Handle(bp, draws, bp.rules[r], before.working, asOf);
      HandleDecisions(bp, draws, bp.rules[r], before.working, asOf);
      JoinDecided(before.naturals, last.naturals);
      assert Evaluate(bp, draws, s, asOf, n).naturals == before.naturals + last.naturals;
      forall j: nat
        ensures DecidesAbsence(before.naturals + last.naturals, j) <==>
                SomeDue(bp.calendar, s.cursor, asOf) && AsksAbsence(bp, draws, s, asOf, n, j)
      {
        AsksNext(bp, draws, s, asOf, r, j);
      }
    }
  }
}
