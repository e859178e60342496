/** Time-triggered risks: workday cancellations and absences, and external-dependency waits. */
module Risks {
  import opened BusinessCalendar
  import opened Allocation
  import opened Team
  import opened Commands
  import opened Routes
  import opened RunInvariant
  import opened Workdays

  const DAY: nat := 86_400_000_000

  /** The UTC date of an instant counted in microseconds. */
  function UtcDate(t: int): int { t / DAY }

  /** The state the rules lead to, and what they claim. */
  datatype Evaluation = Evaluation(working: State, claims: seq<Claim>, naturals: seq<Natural>)

  // ---------- The open visit of an item ----------

  /** The highest ordinal below k whose visit is open. */
  function FindOpen(visits: Visits, i: nat, k: nat): (r: Option<nat>)
    ensures r.Some? ==> r.value < k && (i, r.value) in visits && visits[(i, r.value)].open
    ensures r.None? ==> forall l: nat :: l < k && (i, l) in visits ==> !visits[(i, l)].open
  {
    if k == 0 then None
    else if (i, k - 1) in visits && visits[(i, k - 1)].open then Some(k - 1)
    else FindOpen(visits, i, k - 1)
  }

  function OpenKey(s: State, i: nat): Option<nat> {
    FindOpen(s.visits, i, Next(s, VisitOrdinal(i)))
  }

  // ---------- Cancellation ----------

  predicate CancelsItem(draws: Draws, s: State, i: nat) {
    i < |s.items| && s.items[i].life.Active? && draws.cancels(s, i)
  }

  function CloseCancelled(v: Visit, w: int): Visit {
    v.(open := false, member := None, closed := Some(w), elapsed := v.required, remaining := 0)
  }

  /** One claim and one decision for each active item below n. */
  function CancelClaims(s: State, w: int, n: nat): (seq<Claim>, seq<Natural>)
    requires n <= |s.items|
  {
    if n == 0 then ([], [])
    else
      var rest := CancelClaims(s, w, n - 1);
      var i: nat := n - 1;
      var counter := Occurrence(CancellationOutcome, i);
      if s.items[i].life.Active? then
        (rest.0 + [Claim(counter, Next(s, counter), 1)],
         rest.1 + [Natural(CancellationOutcome, i, Next(s, counter), UtcDate(w))])
      else rest
  }

  function CancelItems(draws: Draws, rule: Rule, s: State): (r: seq<Item>)
    ensures |r| == |s.items|
  {
    seq(|s.items|, i requires 0 <= i < |s.items| =>
      if CancelsItem(draws, s, i) then s.items[i].(life := Cancelled, status := rule.target) else s.items[i])
  }

  function CancelVisits(draws: Draws, s: State, w: int): (r: Visits)
    ensures r.Keys == s.visits.Keys
  {
    map key | key in s.visits ::
      if s.visits[key].open && CancelsItem(draws, s, key.0) then CloseCancelled(s.visits[key], w) else s.visits[key]
  }

  function Cancel(bp: Blueprint, draws: Draws, rule: Rule, s: State, asOf: int): Evaluation {
    var w := WorkdayBoundary(bp.calendar, s.cursor, asOf);
    if !rule.trigger.WorkdayStarted? || w.None? then Evaluation(s, [], [])
    else
      var claims := CancelClaims(s, w.value, |s.items|);
      Evaluation(s.(items := CancelItems(draws, rule, s), visits := CancelVisits(draws, s, w.value)), claims.0, claims.1)
  }

  // ---------- External dependency ----------

  /** Whether the dependency's outcome is drawn for this visit in this evaluation. */
  predicate DrawsDependency(bp: Blueprint, rule: Rule, s: State, asOf: int, v: Visit) {
    && v.open && v.status !in PausingStatuses(bp) && asOf > s.cursor
    && v.pause == 0 && rule.wait > 0 && v.entered == s.cursor
  }

  /** How long the visit waits within this evaluation. */
  function WaitDelta(bp: Blueprint, draws: Draws, rule: Rule, s: State, asOf: int, v: Visit): nat {
    if !v.open || v.status in PausingStatuses(bp) then 0
    else
      var remaining := Max(0, rule.wait - v.pause);
      if remaining == 0 || asOf <= s.cursor then 0
      else if v.pause > 0 then Min(remaining, asOf - s.cursor)
      else if v.entered != s.cursor then 0
      else if draws.depends(s, v.item) then Min(remaining, asOf - s.cursor) else 0
  }

  function PauseFor(v: Visit, delta: nat): Visit {
    if delta == 0 then v else v.(member := None, queue := v.queue + delta, pause := v.pause + delta)
  }

  function WaitVisits(bp: Blueprint, draws: Draws, rule: Rule, s: State, asOf: int): (r: Visits)
    ensures r.Keys == s.visits.Keys
  {
    map key | key in s.visits :: PauseFor(s.visits[key], WaitDelta(bp, draws, rule, s, asOf, s.visits[key]))
  }

  function Depend(bp: Blueprint, draws: Draws, rule: Rule, s: State, asOf: int): Evaluation {
    if !rule.trigger.StatusEntered? then Evaluation(s, [], [])
    else Evaluation(s.(visits := WaitVisits(bp, draws, rule, s, asOf)), [], [])
  }

  // ---------- Member unavailability ----------

  predicate OwnsOpen(s: State, j: nat) {
    exists key :: key in s.visits && s.visits[key].open && s.visits[key].member == Some(j)
  }

  /** One claim and one decision for each member below n who owns an open visit. */
  function AbsenceClaims(s: State, w: int, n: nat): (seq<Claim>, seq<Natural>) {
    if n == 0 then ([], [])
    else
      var rest := AbsenceClaims(s, w, n - 1);
      var j: nat := n - 1;
      var counter := Occurrence(AbsenceOutcome, j);
      if OwnsOpen(s, j) then
        (rest.0 + [Claim(counter, Next(s, counter), 1)],
         rest.1 + [Natural(AbsenceOutcome, j, Next(s, counter), UtcDate(w))])
      else rest
  }

  /** Whole days of zero availability and zero capacity for those the draw makes absent. */
  function Absences(draws: Draws, s: State, w: int, n: nat): seq<Overlay> {
    if n == 0 then []
    else
      var rest := Absences(draws, s, w, n - 1);
      var j: nat := n - 1;
      if OwnsOpen(s, j) && draws.absence(s, j) > 0
      then rest + [Overlay(j, Window(w, w + draws.absence(s, j) * DAY, 0.0, Some(0)))] else rest
  }

  function Absent(bp: Blueprint, draws: Draws, rule: Rule, s: State, asOf: int): Evaluation {
    var w := WorkdayBoundary(bp.calendar, s.cursor, asOf);
    if !rule.trigger.WorkdayStarted? || w.None? then Evaluation(s, [], [])
    else
      var claims := AbsenceClaims(s, w.value, |bp.members|);
      Evaluation(s.(overlays := s.overlays + Absences(draws, s, w.value, |bp.members|)), claims.0, claims.1)
  }

  // ---------- All rules in order ----------

  function Handle(bp: Blueprint, draws: Draws, rule: Rule, s: State, asOf: int): Evaluation {
    match rule.kind
    case Cancellation => Cancel(bp, draws, rule, s, asOf)
    case ExternalDependency => Depend(bp, draws, rule, s, asOf)
    case MemberUnavailable => Absent(bp, draws, rule, s, asOf)
  }

  function Evaluate(bp: Blueprint, draws: Draws, s: State, asOf: int, n: nat): Evaluation
    requires n <= |bp.rules|
  {
    if n == 0 then Evaluation(s, [], [])
    else
      var before := Evaluate(bp, draws, s, asOf, n - 1);
      var last := Handle(bp, draws, bp.rules[n - 1], before.working, asOf);
      Evaluation(last.working, before.claims + last.claims, before.naturals + last.naturals)
  }

  /** The loop over work items: one claim and one decision for each active one. */
  method DecideItems(s: State, w: int) returns (claims: seq<Claim>, naturals: seq<Natural>)
    ensures (claims, naturals) == CancelClaims(s, w, |s.items|)
  {
    claims, naturals := [], [];
    for i := 0 to |s.items|
      invariant (claims, naturals) == CancelClaims(s, w, i)
    {
      if s.items[i].life.Active? {
        var counter := Occurrence(CancellationOutcome, i);
        claims := claims + [Claim(counter, Next(s, counter), 1)];
        naturals := naturals + [Natural(CancellationOutcome, i, Next(s, counter), UtcDate(w))];
      }
    }
  }

  /** The loop over members: one claim and one decision for each who owns an open visit, and an overlay
      for each made absent. */
  method DecideMembers(bp: Blueprint, draws: Draws, s: State, w: int)
    returns (claims: seq<Claim>, naturals: seq<Natural>, overlays: seq<Overlay>)
    ensures (claims, naturals) == AbsenceClaims(s, w, |bp.members|) && overlays == Absences(draws, s, w, |bp.members|)
  {
    claims, naturals, overlays := [], [], [];
    for j := 0 to |bp.members|
      invariant (claims, naturals) == AbsenceClaims(s, w, j) && overlays == Absences(draws, s, w, j)
    {
      if OwnsOpen(s, j) {
        var counter := Occurrence(AbsenceOutcome, j);
        claims := claims + [Claim(counter, Next(s, counter), 1)];
        naturals := naturals + [Natural(AbsenceOutcome, j, Next(s, counter), UtcDate(w))];
        if draws.absence(s, j) > 0 {
          overlays := overlays + [Overlay(j, Window(w, w + draws.absence(s, j) * DAY, 0.0, Some(0)))];
        }
      }
    }
  }

  /** One rule, scanning the days for the workday start that triggers it. */
  method HandleRule(bp: Blueprint, draws: Draws, rule: Rule, s: State, asOf: int) returns (r: Evaluation)
    ensures r == Handle(bp, draws, rule, s, asOf)
  {
    if rule.kind.ExternalDependency? {
      return Depend(bp, draws, rule, s, asOf);
    }
    var w: Option<int> := None;
    if asOf > s.cursor {
      w := ScanStarts(bp.calendar, s.cursor, asOf, bp.calendar.date(s.cursor), bp.calendar.date(asOf - 1));
    }
    if !rule.trigger.WorkdayStarted? || w.None? {
      return Evaluation(s, [], []);
    }
    if rule.kind.Cancellation? {
      var claims, naturals := DecideItems(s, w.value);
      r := Evaluation(s.(items := CancelItems(draws, rule, s), visits := CancelVisits(draws, s, w.value)), claims, naturals);
    } else {
      var claims, naturals, overlays := DecideMembers(bp, draws, s, w.value);
      r := Evaluation(s.(overlays := s.overlays + overlays), claims, naturals);
    }
  }

  /** The loop over rules, each seeing what the earlier ones wrote. */
  method EvaluateDueRisks(bp: Blueprint, draws: Draws, s: State, asOf: int) returns (r: Evaluation)
    ensures r == Evaluate(bp, draws, s, asOf, |bp.rules|)
  {
    var working, claims, naturals := s, [], [];
    for n := 0 to |bp.rules|
      invariant Evaluation(working, claims, naturals) == Evaluate(bp, draws, s, asOf, n)
    {
      var one := HandleRule(bp, draws, bp.rules[n], working, asOf);
      working, claims, naturals := one.working, claims + one.claims, naturals + one.naturals;
    }
    r := Evaluation(working, claims, naturals);
  }

  /** A visit is blocked in this tick when a rule made it wait longer than before. */
  predicate Blocked(s: State, working: State, i: nat) {
    var k := OpenKey(working, i);
    k.Some? && (i, k.value) in s.visits && working.visits[(i, k.value)].pause > s.visits[(i, k.value)].pause
  }
}
