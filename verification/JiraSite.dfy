/** The provider, and the handlers that read it before they write. */
module JiraSite {
  import opened BusinessCalendar

  datatype Kind = ProjectKind | BoardKind | IssueKind | SprintKind

  /** Local resources by (team, kind, local id); provider resources by their position. */
  type Key = (nat, Kind, nat)

  type Maps = map<Key, nat>

  datatype Project = Project(key: nat, board: bool)

  /** An issue carries its local identity as a marker label. */
  datatype Issue = Issue(team: nat, id: nat, status: nat)

  datatype SprintState = Future | Started | Closed

  /** A sprint carries its local identity in its name. */
  datatype JiraSprint = JiraSprint(team: nat, id: nat, board: nat, state: SprintState, issues: set<nat>)

  datatype Jira = Jira(projects: seq<Project>, issues: seq<Issue>, sprints: seq<JiraSprint>)

  datatype Op =
    | CreateProject(key: nat, id: nat)
    | CreateBoard(key: nat, id: nat)
    | CreateIssue(id: nat)
    | CreateSprint(id: nat, board: nat)
    | ScopeSprint(sprint: nat, scope: seq<nat>)
    | StartSprint(sprint: nat)
    | CompleteSprint(sprint: nat)
    | TransitionIssue(issue: nat, status: nat)

  datatype Mapping = Mapping(key: Key, index: nat)

  datatype Reply = Delivered(jira: Jira, mapping: Option<Mapping>) | Refused

  // ---------- Reads ----------

  function FindProject(projects: seq<Project>, key: nat): (r: Option<nat>)
    ensures r.Some? ==> r.value < |projects| && projects[r.value].key == key
                        && forall k :: 0 <= k < r.value ==> projects[k].key != key
    ensures r.None? ==> forall k :: 0 <= k < |projects| ==> projects[k].key != key
  {
    if projects == [] then None
    else
      var rest := FindProject(projects[..|projects| - 1], key);
      if rest.Some? then rest else if projects[|projects| - 1].key == key then Some(|projects| - 1) else None
  }

  /** The issues that carry this marker. */
  function IssueMatches(issues: seq<Issue>, team: nat, id: nat): (r: seq<nat>)
    ensures forall k :: 0 <= k < |r| ==> r[k] < |issues| && issues[r[k]].team == team && issues[r[k]].id == id
  {
    if issues == [] then []
    else
      var rest, n := IssueMatches(issues[..|issues| - 1], team, id), |issues| - 1;
      if issues[n].team == team && issues[n].id == id then rest + [n] else rest
  }

  /** The sprints of this board that carry this marker. */
  function SprintMatches(sprints: seq<JiraSprint>, team: nat, id: nat, board: nat): (r: seq<nat>)
    ensures forall k :: 0 <= k < |r| ==>
              r[k] < |sprints| && sprints[r[k]].team == team && sprints[r[k]].id == id && sprints[r[k]].board == board
  {
    if sprints == [] then []
    else
      var rest, n := SprintMatches(sprints[..|sprints| - 1], team, id, board), |sprints| - 1;
      if sprints[n].team == team && sprints[n].id == id && sprints[n].board == board then rest + [n] else rest
  }

  /** Where the listed issues are, if every one is mapped. */
  function Located(maps: Maps, team: nat, ids: seq<nat>): Option<set<nat>> {
    if ids == [] then Some({})
    else
      var rest, key := Located(maps, team, ids[..|ids| - 1]), (team, IssueKind, ids[|ids| - 1]);
      if rest.Some? && key in maps then Some(rest.value + {maps[key]}) else None
  }

  // ---------- Handlers ----------

  /** One fault-free run of the handler of op. */
  function Handle(moves: (nat, nat) -> bool, op: Op, team: nat, j: Jira, maps: Maps): Reply {
    match op
    case CreateProject(key, id) =>
      var found := FindProject(j.projects, key);
      if found.Some? then Delivered(j, Some(Mapping((team, ProjectKind, id), found.value)))
      else Delivered(j.(projects := j.projects + [Project(key, true)]), Some(Mapping((team, ProjectKind, id), |j.projects|)))
    case CreateBoard(key, id) =>
      var found := FindProject(j.projects, key);
      if found.Some? then
        if j.projects[found.value].board then Delivered(j, Some(Mapping((team, BoardKind, id), found.value))) else Refused
      else Delivered(j.(projects := j.projects + [Project(key, true)]), Some(Mapping((team, BoardKind, id), |j.projects|)))
    case CreateIssue(id) =>
      var found := IssueMatches(j.issues, team, id);
      if |found| > 1 then Refused
      else if |found| == 1 then Delivered(j, Some(Mapping((team, IssueKind, id), found[0])))
      else Delivered(j.(issues := j.issues + [Issue(team, id, 0)]), Some(Mapping((team, IssueKind, id), |j.issues|)))
    case CreateSprint(id, board) =>
      if (team, BoardKind, board) !in maps then Refused
      else
        var b := maps[(team, BoardKind, board)];
        var found := SprintMatches(j.sprints, team, id, b);
        if |found| > 1 then Refused
        else if |found| == 1 then Delivered(j, Some(Mapping((team, SprintKind, id), found[0])))
        else Delivered(j.(sprints := j.sprints + [JiraSprint(team, id, b, Future, {})]), Some(Mapping((team, SprintKind, id), |j.sprints|)))
    case ScopeSprint(sprint, scope) =>
      var k, issues := SprintAt(j, maps, team, sprint), Located(maps, team, scope);
      if k.None? || issues.None? then Refused
      else Delivered(j.(sprints := j.sprints[k.value := j.sprints[k.value].(issues := j.sprints[k.value].issues + issues.value)]), None)
    case StartSprint(sprint) =>
      var k := SprintAt(j, maps, team, sprint);
      if k.None? then Refused
      else if j.sprints[k.value].state.Started? then Delivered(j, None)
      else if j.sprints[k.value].state.Closed? then Refused
      else Delivered(j.(sprints := j.sprints[k.value := j.sprints[k.value].(state := Started)]), None)
    case CompleteSprint(sprint) =>
      var k := SprintAt(j, maps, team, sprint);
      if k.None? then Refused
      else if j.sprints[k.value].state.Closed? then Delivered(j, None)
      else if j.sprints[k.value].state.Future? then Refused
      else Delivered(j.(sprints := j.sprints[k.value := j.sprints[k.value].(state := Closed)]), None)
    case TransitionIssue(issue, status) =>
      var k := IssueAt(j, maps, team, issue);
      if k.None? then Refused
      else if j.issues[k.value].status == status then Delivered(j, None)
      else if !moves(j.issues[k.value].status, status) then Refused
      else Delivered(j.(issues := j.issues[k.value := j.issues[k.value].(status := status)]), None)
  }

  function SprintAt(j: Jira, maps: Maps, team: nat, sprint: nat): (r: Option<nat>)
    ensures r.Some? ==> r.value < |j.sprints| && (team, SprintKind, sprint) in maps && maps[(team, SprintKind, sprint)] == r.value
  {
    if (team, SprintKind, sprint) in maps && maps[(team, SprintKind, sprint)] < |j.sprints|
    then Some(maps[(team, SprintKind, sprint)]) else None
  }

  function IssueAt(j: Jira, maps: Maps, team: nat, issue: nat): (r: Option<nat>)
    ensures r.Some? ==> r.value < |j.issues| && (team, IssueKind, issue) in maps && maps[(team, IssueKind, issue)] == r.value
  {
    if (team, IssueKind, issue) in maps && maps[(team, IssueKind, issue)] < |j.issues|
    then Some(maps[(team, IssueKind, issue)]) else None
  }

  // ---------- What holds of the provider ----------

  /** At most one project per key, one issue per local identity, one sprint per local identity and board. */
  ghost predicate Unique(j: Jira) {
    && (forall a, b :: 0 <= a < b < |j.projects| ==> j.projects[a].key != j.projects[b].key)
    && (forall a, b :: 0 <= a < b < |j.issues| ==> (j.issues[a].team, j.issues[a].id) != (j.issues[b].team, j.issues[b].id))
    && (forall a, b :: 0 <= a < b < |j.sprints| ==>
          (j.sprints[a].team, j.sprints[a].id, j.sprints[a].board) != (j.sprints[b].team, j.sprints[b].id, j.sprints[b].board))
  }

  /** Mappings point at resources of their own identity. */
  ghost predicate Mapped(j: Jira, maps: Maps) {
    && (forall t: nat, id: nat :: (t, IssueKind, id) in maps ==>
          maps[(t, IssueKind, id)] < |j.issues| && j.issues[maps[(t, IssueKind, id)]].team == t && j.issues[maps[(t, IssueKind, id)]].id == id)
    && (forall t: nat, id: nat :: (t, SprintKind, id) in maps ==>
          maps[(t, SprintKind, id)] < |j.sprints| && j.sprints[maps[(t, SprintKind, id)]].team == t && j.sprints[maps[(t, SprintKind, id)]].id == id)
  }

  /** j grew into k: nothing disappeared, and every resource kept its identity. */
  ghost predicate Grew(j: Jira, k: Jira) {
    && j.projects <= k.projects
    && |j.issues| <= |k.issues| && (forall a :: 0 <= a < |j.issues| ==> k.issues[a].team == j.issues[a].team && k.issues[a].id == j.issues[a].id)
    && |j.sprints| <= |k.sprints|
    && (forall a :: 0 <= a < |j.sprints| ==>
          k.sprints[a].team == j.sprints[a].team && k.sprints[a].id == j.sprints[a].id && k.sprints[a].board == j.sprints[a].board)
  }

  lemma {:induction false} IssueFound(issues: seq<Issue>, team: nat, id: nat, k: nat)
    requires k < |issues| && issues[k].team == team && issues[k].id == id
    ensures k in IssueMatches(issues, team, id)
    decreases |issues|
  {
    if k < |issues| - 1 {
      IssueFound(issues[..|issues| - 1], team, id, k);
    }
  }

  lemma {:induction false} SprintFound(sprints: seq<JiraSprint>, team: nat, id: nat, board: nat, k: nat)
    requires k < |sprints| && sprints[k].team == team && sprints[k].id == id && sprints[k].board == board
    ensures k in SprintMatches(sprints, team, id, board)
    decreases |sprints|
  {
    if k < |sprints| - 1 {
      SprintFound(sprints[..|sprints| - 1], team, id, board, k);
    }
  }

  /** Every handler keeps identities unique: it creates only what it has not found. */
  lemma HandleUnique(moves: (nat, nat) -> bool, op: Op, team: nat, j: Jira, maps: Maps)
    requires Unique(j) && Handle(moves, op, team, j, maps).Delivered?
    ensures Unique(Handle(moves, op, team, j, maps).jira)
  {
    match op {
      case CreateIssue(id) =>
        forall a | 0 <= a < |j.issues| && IssueMatches(j.issues, team, id) == []
          ensures (j.issues[a].team, j.issues[a].id) != (team, id)
        {
          if (j.issues[a].team, j.issues[a].id) == (team, id) {
            IssueFound(j.issues, team, id, a);
          }
        }
      case CreateSprint(id, board) =>
        var b := maps[(team, BoardKind, board)];
        forall a | 0 <= a < |j.sprints| && SprintMatches(j.sprints, team, id, b) == []
          ensures (j.sprints[a].team, j.sprints[a].id, j.sprints[a].board) != (team, id, b)
        {
          if (j.sprints[a].team, j.sprints[a].id, j.sprints[a].board) == (team, id, b) {
            SprintFound(j.sprints, team, id, b, a);
          }
        }
      case CreateProject(_, _) =>
      case CreateBoard(_, _) =>
      case ScopeSprint(_, _) =>
      case StartSprint(_) =>
      case CompleteSprint(_) =>
      case TransitionIssue(_, _) =>
    }
  }

  lemma HandleGrows(moves: (nat, nat) -> bool, op: Op, team: nat, j: Jira, maps: Maps)
    requires Handle(moves, op, team, j, maps).Delivered?
    ensures Grew(j, Handle(moves, op, team, j, maps).jira)
  {
  }

  // ---------- The adapter: each handler reads, then writes only what is missing ----------

  class Provider {
    var jira: Jira

    constructor (initial: Jira)
      ensures jira == initial
    {
      jira := initial;
    }

    method AddProject(key: nat) returns (index: nat)
      modifies this
      ensures index == |old(jira.projects)| && jira == old(jira).(projects := old(jira.projects) + [Project(key, true)])
    {
      index := |jira.projects|;
      jira := jira.(projects := jira.projects + [Project(key, true)]);
    }

    method EnsureProject(key: nat) returns (index: nat)
      modifies this
      ensures FindProject(old(jira).projects, key).Some? ==> index == FindProject(old(jira).projects, key).value && jira == old(jira)
      ensures FindProject(old(jira).projects, key).None? ==>
                index == |old(jira).projects| && jira == old(jira).(projects := old(jira).projects + [Project(key, true)])
    {
      var found := FindProject(jira.projects, key);
      if found.Some? {
        return found.value;
      }
      index := AddProject(key);
    }

    /** One sprint changes in place. */
    method UpdateSprint(index: nat, sprint: JiraSprint)
      requires index < |jira.sprints|
      modifies this
      ensures jira == old(jira).(sprints := old(jira).sprints[index := sprint])
    {
      jira := jira.(sprints := jira.sprints[index := sprint]);
    }

    method DeliverIssue(team: nat, id: nat) returns (r: Reply)
      modifies this
      ensures forall moves, maps :: r == Handle(moves, CreateIssue(id), team, old(jira), maps)
      ensures jira == if r.Delivered? then r.jira else old(jira)
    {
      var found := IssueMatches(jira.issues, team, id);
      if |found| > 1 {
        return Refused;
      }
      if |found| == 1 {
        return Delivered(jira, Some(Mapping((team, IssueKind, id), found[0])));
      }
      var index := |jira.issues|;
      jira := jira.(issues := jira.issues + [Issue(team, id, 0)]);
      return Delivered(jira, Some(Mapping((team, IssueKind, id), index)));
    }

    method DeliverSprint(team: nat, id: nat, board: nat, maps: Maps) returns (r: Reply)
      modifies this
      ensures forall moves :: r == Handle(moves, CreateSprint(id, board), team, old(jira), maps)
      ensures jira == if r.Delivered? then r.jira else old(jira)
    {
      if (team, BoardKind, board) !in maps {
        return Refused;
      }
      var b := maps[(team, BoardKind, board)];
      var found := SprintMatches(jira.sprints, team, id, b);
      if |found| > 1 {
        return Refused;
      }
      if |found| == 1 {
        return Delivered(jira, Some(Mapping((team, SprintKind, id), found[0])));
      }
      var index := |jira.sprints|;
      jira := jira.(sprints := jira.sprints + [JiraSprint(team, id, b, Future, {})]);
      return Delivered(jira, Some(Mapping((team, SprintKind, id), index)));
    }

    method DeliverScope(team: nat, sprint: nat, scope: seq<nat>, maps: Maps) returns (r: Reply)
      modifies this
      ensures forall moves :: r == Handle(moves, ScopeSprint(sprint, scope), team, old(jira), maps)
      ensures jira == if r.Delivered? then r.jira else old(jira)
    {
      var k, issues := SprintAt(jira, maps, team, sprint), Located(maps, team, scope);
      if k.None? || issues.None? {
        return Refused;
      }
      var existing := jira.sprints[k.value].issues;
      var missing := issues.value - existing;
      assert existing + missing == existing + issues.value;
      if missing != {} {
        UpdateSprint(k.value, jira.sprints[k.value].(issues := existing + missing));
      } else {
        assert forall x :: x in issues.value ==> x !in missing && x in existing;
        assert existing + issues.value == existing;
        assert jira.sprints[k.value := jira.sprints[k.value].(issues := existing)] == jira.sprints;
      }
      return Delivered(jira, None);
    }

    /** Starting or completing: nothing to do in the wanted state, refused from any but the one before. */
    method DeliverState(team: nat, sprint: nat, from: SprintState, to: SprintState, maps: Maps) returns (r: Reply)
      modifies this
      ensures from == Future && to == Started ==> forall moves :: r == Handle(moves, StartSprint(sprint), team, old(jira), maps)
      ensures from == Started && to == Closed ==> forall moves :: r == Handle(moves, CompleteSprint(sprint), team, old(jira), maps)
      ensures jira == if r.Delivered? then r.jira else old(jira)
    {
      var k := SprintAt(jira, maps, team, sprint);
      if k.None? {
        return Refused;
      }
      if jira.sprints[k.value].state == to {
        return Delivered(jira, None);
      }
      if jira.sprints[k.value].state != from {
        return Refused;
      }
      UpdateSprint(k.value, jira.sprints[k.value].(state := to));
      return Delivered(jira, None);
    }

    method DeliverStatus(moves: (nat, nat) -> bool, team: nat, issue: nat, status: nat, maps: Maps) returns (r: Reply)
      modifies this
      ensures r == Handle(moves, TransitionIssue(issue, status), team, old(jira), maps)
      ensures jira == if r.Delivered? then r.jira else old(jira)
    {
      var k := IssueAt(jira, maps, team, issue);
      if k.None? {
        return Refused;
      }
      var current := jira.issues[k.value];
      if current.status == status {
        return Delivered(jira, None);
      }
      if !moves(current.status, status) {
        return Refused;
      }
      jira := jira.(issues := jira.issues[k.value := current.(status := status)]);
      return Delivered(jira, None);
    }

    /** Dispatch to the handler of the operation. */
    method Deliver(moves: (nat, nat) -> bool, op: Op, team: nat, maps: Maps) returns (r: Reply)
      modifies this
      ensures r == Handle(moves, op, team, old(jira), maps)
      ensures jira == if r.Delivered? then r.jira else old(jira)
    {
      match op {
        case CreateProject(key, id) =>
          var index := EnsureProject(key);
          r := Delivered(jira, Some(Mapping((team, ProjectKind, id), index)));
        case CreateBoard(key, id) =>
          var found := FindProject(jira.projects, key);
          if found.Some? && !jira.projects[found.value].board {
            return Refused;
          }
          var index := EnsureProject(key);
          r := Delivered(jira, Some(Mapping((team, BoardKind, id), index)));
        case CreateIssue(id) => r := DeliverIssue(team, id);
        case CreateSprint(id, board) => r := DeliverSprint(team, id, board, maps);
        case ScopeSprint(sprint, scope) => r := DeliverScope(team, sprint, scope, maps);
        case StartSprint(sprint) => r := DeliverState(team, sprint, Future, Started, maps);
        case CompleteSprint(sprint) => r := DeliverState(team, sprint, Started, Closed, maps);
        case TransitionIssue(issue, status) => r := DeliverStatus(moves, team, issue, status, maps);
      }
    }
  }
}
