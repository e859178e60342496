/** At-least-once delivery of committed intents, and why its effect is exactly once. */
module Outbox {
  import opened BusinessCalendar
  import opened JiraSite

  // ---------- Redelivery ----------

  lemma {:induction false} FindStays(a: seq<Project>, b: seq<Project>, key: nat)
    requires a <= b && FindProject(a, key).Some?
    ensures FindProject(b, key) == FindProject(a, key)
    decreases |b|
  {
    if |b| > |a| {
      assert a <= b[..|b| - 1];
      FindStays(a, b[..|b| - 1], key);
    } else {
      assert a == b;
    }
  }

  lemma FindAppended(a: seq<Project>, key: nat, board: bool)
    requires FindProject(a, key).None?
    ensures FindProject(a + [Project(key, board)], key) == Some(|a|)
  {
    assert (a + [Project(key, board)])[..|a|] == a;
  }

  /** Adding the same issues again adds nothing. */
  lemma ScopeAgain(sprints: seq<JiraSprint>, k: nat, issues: set<nat>)
    requires k < |sprints|
    ensures var once := sprints[k := sprints[k].(issues := sprints[k].issues + issues)];
            once[k := once[k].(issues := once[k].issues + issues)] == once
  {
    assert sprints[k].issues + issues + issues == sprints[k].issues + issues;
  }

  /** Delivering again changes nothing and finds the same resource. */
  lemma RedeliverySame(moves: (nat, nat) -> bool, op: Op, team: nat, j: Jira, maps: Maps)
    requires Handle(moves, op, team, j, maps).Delivered?
    ensures var r := Handle(moves, op, team, j, maps); Handle(moves, op, team, r.jira, maps) == r
  {
    var r := Handle(moves, op, team, j, maps);
    match op {
      case CreateProject(key, id) =>
        if FindProject(j.projects, key).None? {
          FindAppended(j.projects, key, true);
        }
      case CreateBoard(key, id) =>
        if FindProject(j.projects, key).None? {
          FindAppended(j.projects, key, true);
        }
      case CreateIssue(id) =>
        assert (j.issues + [Issue(team, id, 0)])[..|j.issues|] == j.issues;
      case CreateSprint(id, board) =>
        var b := maps[(team, BoardKind, board)];
        assert (j.sprints + [JiraSprint(team, id, b, Future, {})])[..|j.sprints|] == j.sprints;
      case ScopeSprint(sprint, scope) =>
        ScopeAgain(j.sprints, SprintAt(j, maps, team, sprint).value, Located(maps, team, scope).value);
      case StartSprint(_) =>
      case CompleteSprint(_) =>
      case TransitionIssue(_, _) =>
    }
  }

  // ---------- Other teams ----------

  /** From j to k only other teams' resources changed or appeared. */
  ghost predicate OthersOnly(j: Jira, k: Jira, team: nat) {
    && Grew(j, k)
    && (forall a :: 0 <= a < |j.issues| && j.issues[a].team == team ==> k.issues[a] == j.issues[a])
    && (forall a :: |j.issues| <= a < |k.issues| ==> k.issues[a].team != team)
    && (forall a :: 0 <= a < |j.sprints| && j.sprints[a].team == team ==> k.sprints[a] == j.sprints[a])
    && (forall a :: |j.sprints| <= a < |k.sprints| ==> k.sprints[a].team != team)
  }

  lemma HandleOthers(moves: (nat, nat) -> bool, op: Op, other: nat, j: Jira, maps: Maps, team: nat)
    requires Mapped(j, maps) && other != team && Handle(moves, op, other, j, maps).Delivered?
    ensures OthersOnly(j, Handle(moves, op, other, j, maps).jira, team)
  {
    HandleGrows(moves, op, other, j, maps);
  }

  lemma {:induction false} IssuesAgree(a: seq<Issue>, b: seq<Issue>, team: nat, id: nat)
    requires |a| <= |b| && (forall k :: 0 <= k < |a| ==> b[k].team == a[k].team && b[k].id == a[k].id)
    requires forall k :: |a| <= k < |b| ==> b[k].team != team
    ensures IssueMatches(b, team, id) == IssueMatches(a, team, id)
    decreases |b|
  {
    if |b| > |a| {
      IssuesAgree(a, b[..|b| - 1], team, id);
    } else if b != [] {
      IssuesAgree(a[..|a| - 1], b[..|b| - 1], team, id);
    }
  }

  lemma {:induction false} SprintsAgree(a: seq<JiraSprint>, b: seq<JiraSprint>, team: nat, id: nat, board: nat)
    requires |a| <= |b|
    requires forall k :: 0 <= k < |a| ==> b[k].team == a[k].team && b[k].id == a[k].id && b[k].board == a[k].board
    requires forall k :: |a| <= k < |b| ==> b[k].team != team
    ensures SprintMatches(b, team, id, board) == SprintMatches(a, team, id, board)
    decreases |b|
  {
    if |b| > |a| {
      SprintsAgree(a, b[..|b| - 1], team, id, board);
    } else if b != [] {
      SprintsAgree(a[..|a| - 1], b[..|b| - 1], team, id, board);
    }
  }

  /** The two maps agree on what this team looks up. */
  ghost predicate SameMaps(a: Maps, b: Maps, team: nat) {
    && (forall kind, id: nat :: (team, kind, id) in a <==> (team, kind, id) in b)
    && (forall kind, id: nat :: (team, kind, id) in a && (team, kind, id) in b ==> a[(team, kind, id)] == b[(team, kind, id)])
  }

  lemma {:induction false} LocatedSame(a: Maps, b: Maps, team: nat, ids: seq<nat>)
    requires SameMaps(a, b, team)
    ensures Located(a, team, ids) == Located(b, team, ids)
  {
    if ids != [] {
      LocatedSame(a, b, team, ids[..|ids| - 1]);
    }
  }

  /** Handlers look up nothing but their own team's mappings. */
  lemma HandleSameMaps(moves: (nat, nat) -> bool, op: Op, team: nat, j: Jira, a: Maps, b: Maps)
    requires SameMaps(a, b, team)
    ensures Handle(moves, op, team, j, a) == Handle(moves, op, team, j, b)
  {
    if op.ScopeSprint? {
      LocatedSame(a, b, team, op.scope);
    }
  }

  /** What has been delivered stays delivered while only other teams' intents are. */
  ghost predicate Settled(moves: (nat, nat) -> bool, op: Op, team: nat, j: Jira, maps: Maps, mapping: Option<Mapping>) {
    Handle(moves, op, team, j, maps) == Delivered(j, mapping)
  }

  lemma SettledStays(moves: (nat, nat) -> bool, op: Op, team: nat, j: Jira, k: Jira, maps: Maps, mapping: Option<Mapping>)
    requires Settled(moves, op, team, j, maps, mapping) && OthersOnly(j, k, team) && Mapped(j, maps)
    ensures Settled(moves, op, team, k, maps, mapping)
  {
    match op {
      case CreateProject(key, id) =>
        assert FindProject(j.projects, key).Some? by { AppendChanges(j, key); }
        FindStays(j.projects, k.projects, key);
      case CreateBoard(key, id) =>
        assert FindProject(j.projects, key).Some? by { AppendChanges(j, key); }
        FindStays(j.projects, k.projects, key);
      case CreateIssue(id) =>
        assert |j.issues + [Issue(team, id, 0)]| != |j.issues|;
        IssuesAgree(j.issues, k.issues, team, id);
      case CreateSprint(id, board) =>
        var b := maps[(team, BoardKind, board)];
        assert |j.sprints + [JiraSprint(team, id, b, Future, {})]| != |j.sprints|;
        SprintsAgree(j.sprints, k.sprints, team, id, b);
      case ScopeSprint(sprint, scope) =>
        var a, issues := SprintAt(j, maps, team, sprint).value, Located(maps, team, scope).value;
        assert j.sprints[a := j.sprints[a].(issues := j.sprints[a].issues + issues)][a] == j.sprints[a];
        assert k.sprints[a] == j.sprints[a];
        assert k.sprints[a := k.sprints[a].(issues := k.sprints[a].issues + issues)] == k.sprints;
      case StartSprint(sprint) =>
        var a := SprintAt(j, maps, team, sprint).value;
        assert j.sprints[a := j.sprints[a].(state := Started)][a].state == Started;
      case CompleteSprint(sprint) =>
        var a := SprintAt(j, maps, team, sprint).value;
        assert j.sprints[a := j.sprints[a].(state := Closed)][a].state == Closed;
      case TransitionIssue(issue, status) =>
        var a := IssueAt(j, maps, team, issue).value;
        assert j.issues[a := j.issues[a].(status := status)][a].status == status;
    }
  }

  lemma AppendChanges(j: Jira, key: nat)
    ensures j.(projects := j.projects + [Project(key, true)]) != j
  {
    assert |j.projects + [Project(key, true)]| != |j.projects|;
  }
}
