/** What a delivered intent has done: for each operation, exactly when it is accepted and what it leaves at
    the provider and in the mappings. */
module JiraEffects {
  import opened BusinessCalendar
  import opened JiraSite
  import opened Delivery

  // ---------- Resources by identity ----------

  ghost predicate IsProject(j: Jira, key: nat, k: nat) {
    k < |j.projects| && j.projects[k].key == key && forall l: nat :: l < k ==> j.projects[l].key != key
  }

  ghost predicate IsIssue(j: Jira, team: nat, id: nat, k: nat) {
    k < |j.issues| && j.issues[k].team == team && j.issues[k].id == id
  }

  ghost predicate IsSprint(j: Jira, team: nat, id: nat, board: nat, k: nat) {
    k < |j.sprints| && j.sprints[k].team == team && j.sprints[k].id == id && j.sprints[k].board == board
  }

  /** The stored mapping of a local resource. */
  ghost predicate Names(maps: Maps, team: nat, kind: Kind, id: nat, k: nat) {
    (team, kind, id) in maps && maps[(team, kind, id)] == k
  }

  // ---------- When an operation is accepted ----------

  ghost predicate Accepts(moves: (nat, nat) -> bool, op: Op, team: nat, j: Jira, maps: Maps) {
    match op
    case CreateProject(_, _) => true
    case CreateBoard(key, _) => forall k: nat :: IsProject(j, key, k) ==> j.projects[k].board
    case CreateIssue(id) => forall a: nat, b: nat :: IsIssue(j, team, id, a) && IsIssue(j, team, id, b) ==> a == b
    case CreateSprint(id, board) =>
      exists at: nat :: Names(maps, team, BoardKind, board, at)
                   && forall a: nat, b: nat :: IsSprint(j, team, id, at, a) && IsSprint(j, team, id, at, b) ==> a == b
    case ScopeSprint(sprint, scope) =>
      && (exists k: nat :: Names(maps, team, SprintKind, sprint, k) && k < |j.sprints|)
      && (forall m :: 0 <= m < |scope| ==> (team, IssueKind, scope[m]) in maps)
    case StartSprint(sprint) => exists k: nat :: Names(maps, team, SprintKind, sprint, k) && k < |j.sprints| && j.sprints[k].state != Closed
    case CompleteSprint(sprint) => exists k: nat :: Names(maps, team, SprintKind, sprint, k) && k < |j.sprints| && j.sprints[k].state != Future
    case TransitionIssue(issue, status) =>
      exists k: nat :: Names(maps, team, IssueKind, issue, k) && k < |j.issues|
                  && (j.issues[k].status == status || moves(j.issues[k].status, status))
  }

  // ---------- What it leaves behind ----------

  ghost predicate SameIssues(j: Jira, after: Jira, except: nat) {
    |after.issues| == |j.issues| && forall a: nat :: a < |j.issues| && a != except ==> after.issues[a] == j.issues[a]
  }

  ghost predicate SameSprints(j: Jira, after: Jira, except: nat) {
    |after.sprints| == |j.sprints| && forall a: nat :: a < |j.sprints| && a != except ==> after.sprints[a] == j.sprints[a]
  }

  /** The sprint there, changed in nothing but its issues and its state. */
  ghost predicate SameSprint(a: JiraSprint, b: JiraSprint) {
    b.team == a.team && b.id == a.id && b.board == a.board
  }

  /** The project is there with its board, found or new. */
  ghost predicate ProjectThere(j: Jira, key: nat, after: Jira, k: nat) {
    && IsProject(after, key, k) && after.issues == j.issues && after.sprints == j.sprints
    && if k < |j.projects| then after.projects == j.projects else k == |j.projects| && after.projects == j.projects + [Project(key, true)]
  }

  ghost predicate IssueThere(j: Jira, team: nat, id: nat, after: Jira, k: nat) {
    && IsIssue(after, team, id, k) && after.projects == j.projects && after.sprints == j.sprints
    && (forall l: nat :: IsIssue(after, team, id, l) ==> l == k)
    && if k < |j.issues| then after.issues == j.issues else k == |j.issues| && after.issues == j.issues + [Issue(team, id, 0)]
  }

  ghost predicate SprintThere(j: Jira, team: nat, id: nat, board: nat, after: Jira, k: nat) {
    && IsSprint(after, team, id, board, k) && after.projects == j.projects && after.issues == j.issues
    && (forall l: nat :: IsSprint(after, team, id, board, l) ==> l == k)
    && if k < |j.sprints| then after.sprints == j.sprints
       else k == |j.sprints| && after.sprints == j.sprints + [JiraSprint(team, id, board, Future, {})]
  }

  /** The mapped sprint is in the wanted state, and everything else as it was. */
  ghost predicate SprintIn(j: Jira, after: Jira, state: SprintState, k: nat) {
    && after.projects == j.projects && after.issues == j.issues && SameSprints(j, after, k)
    && (k < |j.sprints| ==> SameSprint(j.sprints[k], after.sprints[k])
                            && after.sprints[k].issues == j.sprints[k].issues && after.sprints[k].state == state)
  }

  /** The mapped sprint holds what it held and the listed issues, and everything else is as it was. */
  ghost predicate SprintHolds(j: Jira, after: Jira, team: nat, maps: Maps, scope: seq<nat>, k: nat) {
    && after.projects == j.projects && after.issues == j.issues && SameSprints(j, after, k)
    && (k < |j.sprints| ==> SameSprint(j.sprints[k], after.sprints[k]) && after.sprints[k].state == j.sprints[k].state
                            && (forall x: nat :: x in after.sprints[k].issues <==>
                                  x in j.sprints[k].issues || exists m :: 0 <= m < |scope| && Names(maps, team, IssueKind, scope[m], x)))
  }

  /** The mapped issue has the target status, and everything else is as it was. */
  ghost predicate IssueIn(j: Jira, after: Jira, status: nat, k: nat) {
    && after.projects == j.projects && after.sprints == j.sprints && SameIssues(j, after, k)
    && (k < |j.issues| ==> after.issues[k].team == j.issues[k].team && after.issues[k].id == j.issues[k].id && after.issues[k].status == status)
  }

  ghost predicate Effect(op: Op, team: nat, j: Jira, maps: Maps, after: Jira, mapping: Option<Mapping>) {
    match op
    case CreateProject(key, id) =>
      mapping.Some? && mapping.value.key == (team, ProjectKind, id) && ProjectThere(j, key, after, mapping.value.index)
    case CreateBoard(key, id) =>
      && mapping.Some? && mapping.value.key == (team, BoardKind, id) && ProjectThere(j, key, after, mapping.value.index)
      && after.projects[mapping.value.index].board
    case CreateIssue(id) =>
      mapping.Some? && mapping.value.key == (team, IssueKind, id) && IssueThere(j, team, id, after, mapping.value.index)
    case CreateSprint(id, board) =>
      && mapping.Some? && mapping.value.key == (team, SprintKind, id)
      && forall at: nat :: Names(maps, team, BoardKind, board, at) ==> SprintThere(j, team, id, at, after, mapping.value.index)
    case ScopeSprint(sprint, scope) =>
      mapping.None? && forall k: nat :: Names(maps, team, SprintKind, sprint, k) ==> SprintHolds(j, after, team, maps, scope, k)
    case StartSprint(sprint) =>
      mapping.None? && forall k: nat :: Names(maps, team, SprintKind, sprint, k) ==> SprintIn(j, after, Started, k)
    case CompleteSprint(sprint) =>
      mapping.None? && forall k: nat :: Names(maps, team, SprintKind, sprint, k) ==> SprintIn(j, after, Closed, k)
    case TransitionIssue(issue, status) =>
      mapping.None? && forall k: nat :: Names(maps, team, IssueKind, issue, k) ==> IssueIn(j, after, status, k)
  }

  // ---------- Lookups ----------

  lemma ProjectFound(j: Jira, key: nat)
    ensures forall k: nat :: IsProject(j, key, k) <==> FindProject(j.projects, key) == Some(k)
  {
  }

  ghost predicate Rising(r: seq<nat>) {
    forall a, b :: 0 <= a < b < |r| ==> r[a] < r[b]
  }

  lemma OneMoreRises(r: seq<nat>, n: nat)
    requires Rising(r) && forall k :: 0 <= k < |r| ==> r[k] < n
    ensures Rising(r + [n])
  {
  }

  lemma {:induction false} IssuesRise(issues: seq<Issue>, team: nat, id: nat)
    ensures Rising(IssueMatches(issues, team, id))
  {
    if issues != [] {
      var n := |issues| - 1;
      IssuesRise(issues[..n], team, id);
      OneMoreRises(IssueMatches(issues[..n], team, id), n);
    }
  }

  lemma {:induction false} SprintsRise(sprints: seq<JiraSprint>, team: nat, id: nat, board: nat)
    ensures Rising(SprintMatches(sprints, team, id, board))
  {
    if sprints != [] {
      var n := |sprints| - 1;
      SprintsRise(sprints[..n], team, id, board);
      OneMoreRises(SprintMatches(sprints[..n], team, id, board), n);
    }
  }

  lemma IssuesMatched(j: Jira, team: nat, id: nat)
    ensures var r := IssueMatches(j.issues, team, id);
            && (forall k: nat :: IsIssue(j, team, id, k) <==> k in r)
            && (|r| > 1 ==> IsIssue(j, team, id, r[0]) && IsIssue(j, team, id, r[1]) && r[0] != r[1])
  {
    IssuesRise(j.issues, team, id);
    forall k: nat | IsIssue(j, team, id, k) ensures k in IssueMatches(j.issues, team, id) {
      IssueFound(j.issues, team, id, k);
    }
  }

  lemma SprintsMatched(j: Jira, team: nat, id: nat, board: nat)
    ensures var r := SprintMatches(j.sprints, team, id, board);
            && (forall k: nat :: IsSprint(j, team, id, board, k) <==> k in r)
            && (|r| > 1 ==> IsSprint(j, team, id, board, r[0]) && IsSprint(j, team, id, board, r[1]) && r[0] != r[1])
  {
    SprintsRise(j.sprints, team, id, board);
    forall k: nat | IsSprint(j, team, id, board, k) ensures k in SprintMatches(j.sprints, team, id, board) {
      SprintFound(j.sprints, team, id, board, k);
    }
  }

  lemma {:induction false} LocatedAre(maps: Maps, team: nat, ids: seq<nat>)
    ensures var r := Located(maps, team, ids);
            && (r.Some? <==> forall m :: 0 <= m < |ids| ==> (team, IssueKind, ids[m]) in maps)
            && (r.Some? ==> forall x: nat :: x in r.value <==> exists m :: 0 <= m < |ids| && Names(maps, team, IssueKind, ids[m], x))
  {
    if ids != [] {
      var n := |ids| - 1;
      LocatedAre(maps, team, ids[..n]);
      var r := Located(maps, team, ids);
      if r.Some? {
        forall x: nat ensures x in r.value <==> exists m :: 0 <= m < |ids| && Names(maps, team, IssueKind, ids[m], x) {
          if x in r.value && x in Located(maps, team, ids[..n]).value {
            var m :| 0 <= m < |ids[..n]| && Names(maps, team, IssueKind, ids[..n][m], x);
            assert ids[..n][m] == ids[m];
          } else if x in r.value {
            assert Names(maps, team, IssueKind, ids[n], x);
          }
          if m :| 0 <= m < |ids| && Names(maps, team, IssueKind, ids[m], x) {
            assert m < n ==> ids[..n][m] == ids[m];
          }
        }
      } else {
        assert Located(maps, team, ids[..n]).Some? ==> (team, IssueKind, ids[n]) !in maps;
        if Located(maps, team, ids[..n]).None? {
          var m :| 0 <= m < n && (team, IssueKind, ids[..n][m]) !in maps;
          assert ids[..n][m] == ids[m];
        }
      }
    }
  }

  // ---------- Handlers ----------

  /** r is a delivery with this operation's effect, if it is accepted; otherwise a refusal. */
  ghost predicate Answers(moves: (nat, nat) -> bool, op: Op, team: nat, j: Jira, maps: Maps, r: Reply) {
    if Accepts(moves, op, team, j, maps) then r.Delivered? && Effect(op, team, j, maps, r.jira, r.mapping) else r.Refused?
  }

  lemma ProjectEffect(moves: (nat, nat) -> bool, op: Op, team: nat, j: Jira, maps: Maps)
    requires op.CreateProject? || op.CreateBoard?
    ensures Answers(moves, op, team, j, maps, Handle(moves, op, team, j, maps))
  {
    ProjectFound(j, op.key);
    var found := FindProject(j.projects, op.key);
    if found.Some? {
      assert IsProject(j, op.key, found.value);
    } else {
      var after := j.(projects := j.projects + [Project(op.key, true)]);
      assert IsProject(after, op.key, |j.projects|);
    }
  }

  lemma IssueEffect(moves: (nat, nat) -> bool, op: Op, team: nat, j: Jira, maps: Maps)
    requires op.CreateIssue?
    ensures Answers(moves, op, team, j, maps, Handle(moves, op, team, j, maps))
  {
    IssuesMatched(j, team, op.id);
    var found := IssueMatches(j.issues, team, op.id);
    if |found| == 1 {
      assert IsIssue(j, team, op.id, found[0]);
    } else if |found| == 0 {
      var after := j.(issues := j.issues + [Issue(team, op.id, 0)]);
      forall l: nat | IsIssue(after, team, op.id, l) ensures l == |j.issues| {
        assert l < |j.issues| ==> IsIssue(j, team, op.id, l);
      }
    }
  }

  lemma SprintEffect(moves: (nat, nat) -> bool, op: Op, team: nat, j: Jira, maps: Maps)
    requires op.CreateSprint?
    ensures Answers(moves, op, team, j, maps, Handle(moves, op, team, j, maps))
  {
    var key := (team, BoardKind, op.board);
    if key in maps {
      var b := maps[key];
      assert Names(maps, team, BoardKind, op.board, b);
      SprintsMatched(j, team, op.id, b);
      var found := SprintMatches(j.sprints, team, op.id, b);
      if |found| == 1 {
        assert IsSprint(j, team, op.id, b, found[0]);
      } else if |found| == 0 {
        var after := j.(sprints := j.sprints + [JiraSprint(team, op.id, b, Future, {})]);
        forall l: nat | IsSprint(after, team, op.id, b, l) ensures l == |j.sprints| {
          assert l < |j.sprints| ==> IsSprint(j, team, op.id, b, l);
        }
      }
    }
  }

  lemma ChangeEffect(moves: (nat, nat) -> bool, op: Op, team: nat, j: Jira, maps: Maps)
    requires op.StartSprint? || op.CompleteSprint? || op.TransitionIssue?
    ensures Answers(moves, op, team, j, maps, Handle(moves, op, team, j, maps))
  {
    var key := match op
      case StartSprint(sprint) => (team, SprintKind, sprint)
      case CompleteSprint(sprint) => (team, SprintKind, sprint)
      case TransitionIssue(issue, _) => (team, IssueKind, issue);
    if key in maps {
      assert Names(maps, key.0, key.1, key.2, maps[key]);
    }
  }

  lemma ScopeEffect(moves: (nat, nat) -> bool, op: Op, team: nat, j: Jira, maps: Maps)
    requires op.ScopeSprint?
    ensures Answers(moves, op, team, j, maps, Handle(moves, op, team, j, maps))
  {
    LocatedAre(maps, team, op.scope);
    var key := (team, SprintKind, op.sprint);
    if key in maps {
      assert Names(maps, team, SprintKind, op.sprint, maps[key]);
    }
  }

  /** A handler delivers exactly when the provider and the mappings allow its operation, and then the
      operation has its effect, there and nowhere else. */
  lemma HandleEffect(moves: (nat, nat) -> bool, op: Op, team: nat, j: Jira, maps: Maps)
    ensures Answers(moves, op, team, j, maps, Handle(moves, op, team, j, maps))
  {
    match op {
      case CreateProject(_, _) => ProjectEffect(moves, op, team, j, maps);
      case CreateBoard(_, _) => ProjectEffect(moves, op, team, j, maps);
      case CreateIssue(_) => IssueEffect(moves, op, team, j, maps);
      case CreateSprint(_, _) => SprintEffect(moves, op, team, j, maps);
      case ScopeSprint(_, _) => ScopeEffect(moves, op, team, j, maps);
      case StartSprint(_) => ChangeEffect(moves, op, team, j, maps);
      case CompleteSprint(_) => ChangeEffect(moves, op, team, j, maps);
      case TransitionIssue(_, _) => ChangeEffect(moves, op, team, j, maps);
    }
  }

  // ---------- Attempts ----------

  /** The mapping's identity is bound to nothing else. */
  ghost predicate Free(maps: Maps, mapping: Option<Mapping>) {
    mapping.Some? && mapping.value.key in maps ==> maps[mapping.value.key] == mapping.value.index
  }

  ghost predicate Binding(maps: Maps, mapping: Option<Mapping>, after: Maps) {
    after == if mapping.None? then maps else maps + map[mapping.value.key := mapping.value.index]
  }

  /** From w to v: the effect of op takes place unless the attempt is lost or the operation refused, and it is
      receipted, with its mapping stored, exactly if the attempt gets that far and the identity is free. */
  ghost predicate AttemptDoes(moves: (nat, nat) -> bool, op: Op, team: nat, fate: Fate, w: World, v: World) {
    if fate.Lost? || !Accepts(moves, op, team, w.jira, w.maps) then v == w
    else
      exists mapping: Option<Mapping> ::
        && Effect(op, team, w.jira, w.maps, v.jira, mapping)
        && if fate.Receipted? && Free(w.maps, mapping)
           then Binding(w.maps, mapping, v.maps) && Advanced(w.receipts, team, v.receipts)
           else v.maps == w.maps && v.receipts == w.receipts
  }

  /** One receipt more, of this team. */
  ghost predicate Advanced(before: seq<nat>, team: nat, after: seq<nat>) {
    && |after| == |before| && team < |before| && after[team] == before[team] + 1
    && forall t :: 0 <= t < |before| && t != team ==> after[t] == before[t]
  }

  lemma AttemptEffect(moves: (nat, nat) -> bool, plan: Plan, w: World, team: nat, fate: Fate)
    requires team < |plan| == |w.receipts|
    ensures var v := Attempt(moves, plan, w, team, fate);
            if w.receipts[team] >= |plan[team]| then v == w
            else AttemptDoes(moves, plan[team][w.receipts[team]], team, fate, w, v)
  {
    if w.receipts[team] < |plan[team]| {
      var op := plan[team][w.receipts[team]];
      HandleEffect(moves, op, team, w.jira, w.maps);
      var v, reply := Attempt(moves, plan, w, team, fate), Handle(moves, op, team, w.jira, w.maps);
      if reply.Delivered? && !fate.Lost? {
        assert Effect(op, team, w.jira, w.maps, v.jira, reply.mapping);
        assert fate.Receipted? && Free(w.maps, reply.mapping) ==> Binding(w.maps, reply.mapping, v.maps);
      }
    }
  }

  /** Attempt k of any sequence of attempts does what its intent asks. */
  lemma RunEffect(moves: (nat, nat) -> bool, plan: Plan, w: World, tries: seq<Try>, k: nat)
    requires TriesKnown(plan, tries) && |w.receipts| == |plan| && k < |tries|
    ensures var before, after := Run(moves, plan, w, tries[..k]), Run(moves, plan, w, tries[..k + 1]);
            var team := tries[k].team;
            if before.receipts[team] >= |plan[team]| then after == before
            else AttemptDoes(moves, plan[team][before.receipts[team]], team, tries[k].fate, before, after)
  {
    assert tries[..k + 1][..k] == tries[..k];
    AttemptEffect(moves, plan, Run(moves, plan, w, tries[..k]), tries[k].team, tries[k].fate);
  }

  /** The attempt that stores the receipt of a team's intent i. */
  ghost predicate Receipts(moves: (nat, nat) -> bool, plan: Plan, w: World, tries: seq<Try>, team: nat, i: nat, k: nat)
    requires TriesKnown(plan, tries) && |w.receipts| == |plan|
  {
    && k < |tries| && tries[k].team == team < |plan|
    && Run(moves, plan, w, tries[..k]).receipts[team] == i && Run(moves, plan, w, tries[..k + 1]).receipts[team] == i + 1
  }

  /** Behind every receipt there is an attempt that stored it, and it had the effect the intent asks for. */
  lemma {:induction false} ReceiptHasEffect(moves: (nat, nat) -> bool, plan: Plan, w: World, tries: seq<Try>, team: nat, i: nat) returns (k: nat)
    requires TriesKnown(plan, tries) && |w.receipts| == |plan| && team < |plan|
    requires w.receipts[team] <= i < Run(moves, plan, w, tries).receipts[team]
    ensures Receipts(moves, plan, w, tries, team, i, k)
    ensures i < |plan[team]|
    ensures var before, after := Run(moves, plan, w, tries[..k]), Run(moves, plan, w, tries[..k + 1]);
            exists mapping: Option<Mapping> ::
              Effect(plan[team][i], team, before.jira, before.maps, after.jira, mapping) && Binding(before.maps, mapping, after.maps)
    decreases |tries|
  {
    var n := |tries| - 1;
    var last := Run(moves, plan, w, tries[..n]);
    assert tries[..n + 1] == tries;
    RunEffect(moves, plan, w, tries, n);
    if i < last.receipts[team] {
      k := ReceiptHasEffect(moves, plan, w, tries[..n], team, i);
      assert tries[..n][..k] == tries[..k] && tries[..n][..k + 1] == tries[..k + 1];
    } else {
      k := n;
    }
  }
}
