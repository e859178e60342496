/** The delivery worker: any sequence of attempts, lost, half done or complete, and one drain. */
module Delivery {
  import opened BusinessCalendar
  import opened JiraSite
  import opened Outbox

  /** How an attempt that the provider would accept goes: it never gets there; its write gets there but no
      receipt is stored, because of a crash or an error after the write; or it is receipted. */
  datatype Fate = Lost | ReachedOnly | Receipted

  /** The provider, the stored mappings, and how many intents of each team are receipted. */
  datatype World = World(jira: Jira, maps: Maps, receipts: seq<nat>)

  type Plan = seq<seq<Op>>

  /** Storing a mapping; refused when the identity is already bound to something else. */
  function Store(maps: Maps, mapping: Option<Mapping>): Option<Maps> {
    if mapping.None? then Some(maps)
    else if mapping.value.key in maps then if maps[mapping.value.key] == mapping.value.index then Some(maps) else None
    else Some(maps[mapping.value.key := mapping.value.index])
  }

  /** One attempt at a team's first intent without a receipt. */
  function Attempt(moves: (nat, nat) -> bool, plan: Plan, w: World, team: nat, fate: Fate): (r: World)
    requires team < |plan| == |w.receipts|
    ensures |r.receipts| == |plan|
  {
    if w.receipts[team] >= |plan[team]| || fate.Lost? then w
    else
      var reply := Handle(moves, plan[team][w.receipts[team]], team, w.jira, w.maps);
      if reply.Refused? then w
      else
        var maps := Store(w.maps, reply.mapping);
        if fate.ReachedOnly? || maps.None? then w.(jira := reply.jira)
        else World(reply.jira, maps.value, w.receipts[team := w.receipts[team] + 1])
  }

  /** The mappings after an intent is delivered without trouble. */
  function Kept(maps: Maps, mapping: Option<Mapping>): Maps {
    var stored := Store(maps, mapping);
    if stored.Some? then stored.value else maps
  }

  /** The simple form: deliver a team's next intent once, and go on to the one after it. */
  function Once(moves: (nat, nat) -> bool, plan: Plan, w: World, team: nat): (r: World)
    requires team < |plan| == |w.receipts|
    ensures |r.receipts| == |plan|
  {
    if w.receipts[team] >= |plan[team]| then w
    else
      var reply := Handle(moves, plan[team][w.receipts[team]], team, w.jira, w.maps);
      if reply.Refused? then w
      else World(reply.jira, Kept(w.maps, reply.mapping), w.receipts[team := w.receipts[team] + 1])
  }

  // ---------- How the real world tracks the simple one ----------

  /** The team's first intent without a receipt has already had its effect. */
  ghost predicate Ahead(w: World, simple: World, t: nat)
    requires t < |w.receipts| == |simple.receipts|
  {
    simple.receipts[t] == w.receipts[t] + 1
  }

  /** A team is level with the simple world, or its next intent has reached the provider, is settled there
      and only lacks its receipt. */
  ghost predicate TeamTracks(moves: (nat, nat) -> bool, plan: Plan, w: World, simple: World, t: nat)
    requires t < |plan| == |w.receipts| == |simple.receipts|
  {
    || (simple.receipts[t] == w.receipts[t] && SameMaps(w.maps, simple.maps, t))
    || (Ahead(w, simple, t) && w.receipts[t] < |plan[t]| && exists mapping: Option<Mapping> ::
          Pending(moves, plan[t][w.receipts[t]], w, simple, t, mapping))
  }

  ghost predicate Pending(moves: (nat, nat) -> bool, op: Op, w: World, simple: World, t: nat, mapping: Option<Mapping>) {
    Settled(moves, op, t, w.jira, w.maps, mapping) && SameMaps(Kept(w.maps, mapping), simple.maps, t)
  }

  ghost predicate Tracks(moves: (nat, nat) -> bool, plan: Plan, w: World, simple: World) {
    && |w.receipts| == |simple.receipts| == |plan|
    && w.jira == simple.jira && Unique(w.jira) && Mapped(w.jira, w.maps)
    && forall t: nat :: t < |plan| ==> TeamTracks(moves, plan, w, simple, t)
  }

  // ---------- Mappings ----------

  lemma MappingTeam(moves: (nat, nat) -> bool, op: Op, team: nat, j: Jira, maps: Maps)
    requires Handle(moves, op, team, j, maps).Delivered? && Handle(moves, op, team, j, maps).mapping.Some?
    ensures Handle(moves, op, team, j, maps).mapping.value.key.0 == team
  {
  }

  lemma KeptOthers(maps: Maps, mapping: Option<Mapping>, t: nat)
    requires mapping.Some? ==> mapping.value.key.0 != t
    ensures SameMaps(maps, Kept(maps, mapping), t)
  {
  }

  lemma KeptSame(a: Maps, b: Maps, mapping: Option<Mapping>, t: nat)
    requires SameMaps(a, b, t) && (mapping.Some? ==> mapping.value.key.0 == t)
    ensures SameMaps(Kept(a, mapping), Kept(b, mapping), t)
  {
    if mapping.Some? {
      var key := mapping.value.key;
      assert key == (t, key.1, key.2);
    }
  }

  /** A handler's mapping points at the resource it found or created. */
  lemma HandleMapped(moves: (nat, nat) -> bool, op: Op, team: nat, j: Jira, maps: Maps)
    requires Mapped(j, maps) && Handle(moves, op, team, j, maps).Delivered?
    ensures var r := Handle(moves, op, team, j, maps); Mapped(r.jira, maps) && Mapped(r.jira, Kept(maps, r.mapping))
  {
    HandleGrows(moves, op, team, j, maps);
    var r := Handle(moves, op, team, j, maps);
    MappedGrows(j, r.jira, maps);
    match op {
      case CreateIssue(id) =>
      case CreateSprint(id, board) =>
      case CreateProject(_, _) =>
      case CreateBoard(_, _) =>
      case ScopeSprint(_, _) =>
      case StartSprint(_) =>
      case CompleteSprint(_) =>
      case TransitionIssue(_, _) =>
    }
  }

  lemma MappedGrows(j: Jira, k: Jira, maps: Maps)
    requires Mapped(j, maps) && Grew(j, k)
    ensures Mapped(k, maps)
  {
  }

  // ---------- One attempt ----------

  /** Another team keeps tracking while this one's intent has its effect or its receipt stored. */
  lemma OtherTracks(moves: (nat, nat) -> bool, plan: Plan, w: World, simple: World, v: World, next: World, t: nat)
    requires t < |plan| == |w.receipts| == |simple.receipts| == |v.receipts| == |next.receipts|
    requires TeamTracks(moves, plan, w, simple, t) && Mapped(w.jira, w.maps)
    requires v.receipts[t] == w.receipts[t] && next.receipts[t] == simple.receipts[t]
    requires OthersOnly(w.jira, v.jira, t) && SameMaps(w.maps, v.maps, t) && SameMaps(simple.maps, next.maps, t)
    ensures TeamTracks(moves, plan, v, next, t)
  {
    if Ahead(w, simple, t) {
      var op := plan[t][w.receipts[t]];
      var mapping: Option<Mapping> :| Pending(moves, op, w, simple, t, mapping);
      SettledStays(moves, op, t, w.jira, v.jira, w.maps, mapping);
      HandleSameMaps(moves, op, t, v.jira, w.maps, v.maps);
      if mapping.Some? {
        MappingTeam(moves, op, t, w.jira, w.maps);
      }
      KeptSame(w.maps, v.maps, mapping, t);
      assert Pending(moves, op, v, next, t, mapping);
    }
  }

  lemma SameEverywhere(j: Jira, t: nat)
    ensures OthersOnly(j, j, t)
  {
  }

  /** A level team's intent has its effect, with or without a receipt. */
  lemma LevelAttempt(moves: (nat, nat) -> bool, plan: Plan, w: World, simple: World, team: nat, fate: Fate)
    requires Tracks(moves, plan, w, simple) && team < |plan| && simple.receipts[team] == w.receipts[team]
    requires w.receipts[team] < |plan[team]| && !fate.Lost?
    requires Handle(moves, plan[team][w.receipts[team]], team, w.jira, w.maps).Delivered?
    ensures Tracks(moves, plan, Attempt(moves, plan, w, team, fate), Once(moves, plan, simple, team))
  {
    var op := plan[team][w.receipts[team]];
    var reply := Handle(moves, op, team, w.jira, w.maps);
    var v, next := Attempt(moves, plan, w, team, fate), Once(moves, plan, simple, team);
    assert TeamTracks(moves, plan, w, simple, team);
    HandleSameMaps(moves, op, team, w.jira, w.maps, simple.maps);
    HandleUnique(moves, op, team, w.jira, w.maps);
    HandleMapped(moves, op, team, w.jira, w.maps);
    if reply.mapping.Some? {
      MappingTeam(moves, op, team, w.jira, w.maps);
    }
    KeptSame(w.maps, simple.maps, reply.mapping, team);
    RedeliverySame(moves, op, team, w.jira, w.maps);
    assert v.maps == w.maps ==> Pending(moves, op, v, next, team, reply.mapping);
    forall t: nat | t < |plan| && t != team ensures TeamTracks(moves, plan, v, next, t) {
      assert TeamTracks(moves, plan, w, simple, t);
      HandleOthers(moves, op, team, w.jira, w.maps, t);
      KeptOthers(w.maps, reply.mapping, t);
      KeptOthers(simple.maps, reply.mapping, t);
      OtherTracks(moves, plan, w, simple, v, next, t);
    }
  }

  /** Redelivering an intent that has had its effect changes the provider in nothing. */
  lemma AheadAttempt(moves: (nat, nat) -> bool, plan: Plan, w: World, simple: World, team: nat, fate: Fate)
    requires Tracks(moves, plan, w, simple) && team < |plan| && Ahead(w, simple, team) && !fate.Lost?
    ensures Attempt(moves, plan, w, team, fate).jira == w.jira
    ensures Tracks(moves, plan, Attempt(moves, plan, w, team, fate), simple)
  {
    assert TeamTracks(moves, plan, w, simple, team);
    var op := plan[team][w.receipts[team]];
    var mapping: Option<Mapping> :| Pending(moves, op, w, simple, team, mapping);
    var v := Attempt(moves, plan, w, team, fate);
    HandleMapped(moves, op, team, w.jira, w.maps);
    if mapping.Some? {
      MappingTeam(moves, op, team, w.jira, w.maps);
    }
    forall t: nat | t < |plan| && t != team ensures TeamTracks(moves, plan, v, simple, t) {
      assert TeamTracks(moves, plan, w, simple, t);
      SameEverywhere(w.jira, t);
      KeptOthers(w.maps, mapping, t);
      OtherTracks(moves, plan, w, simple, v, simple, t);
    }
  }

  // ---------- Any sequence of attempts ----------

  datatype Try = Try(team: nat, fate: Fate)

  ghost predicate TriesKnown(plan: Plan, tries: seq<Try>) {
    forall k :: 0 <= k < |tries| ==> tries[k].team < |plan|
  }

  ghost function Run(moves: (nat, nat) -> bool, plan: Plan, w: World, tries: seq<Try>): (r: World)
    requires TriesKnown(plan, tries) && |w.receipts| == |plan|
    ensures |r.receipts| == |plan|
  {
    if tries == [] then w
    else
      var n := |tries| - 1;
      Attempt(moves, plan, Run(moves, plan, w, tries[..n]), tries[n].team, tries[n].fate)
  }

  /** Delivering intents without trouble, team by team in the given order. */
  ghost function Replay(moves: (nat, nat) -> bool, plan: Plan, w: World, order: seq<nat>): (r: World)
    requires (forall k :: 0 <= k < |order| ==> order[k] < |plan|) && |w.receipts| == |plan|
    ensures |r.receipts| == |plan|
  {
    if order == [] then w
    else Once(moves, plan, Replay(moves, plan, w, order[..|order| - 1]), order[|order| - 1])
  }

  ghost function Times(order: seq<nat>, t: nat): nat {
    if order == [] then 0 else Times(order[..|order| - 1], t) + if order[|order| - 1] == t then 1 else 0
  }

  /** The first state: nothing mapped, nothing receipted, at most one of everything at the provider. */
  ghost predicate Begins(plan: Plan, w: World) {
    Unique(w.jira) && w.maps == map[] && |w.receipts| == |plan| && forall t :: 0 <= t < |plan| ==> w.receipts[t] == 0
  }

  lemma BeginsTracks(moves: (nat, nat) -> bool, plan: Plan, w: World)
    requires Begins(plan, w)
    ensures Tracks(moves, plan, w, w)
  {
  }

  lemma StepTracks(moves: (nat, nat) -> bool, plan: Plan, w: World, simple: World, team: nat, fate: Fate) returns (moved: bool)
    requires Tracks(moves, plan, w, simple) && team < |plan|
    ensures Tracks(moves, plan, Attempt(moves, plan, w, team, fate), if moved then Once(moves, plan, simple, team) else simple)
    ensures moved ==> Once(moves, plan, simple, team).receipts == simple.receipts[team := simple.receipts[team] + 1]
  {
    moved := false;
    assert TeamTracks(moves, plan, w, simple, team);
    if w.receipts[team] < |plan[team]| && !fate.Lost? {
      if Ahead(w, simple, team) {
        AheadAttempt(moves, plan, w, simple, team, fate);
      } else {
        HandleSameMaps(moves, plan[team][w.receipts[team]], team, w.jira, w.maps, simple.maps);
        if Handle(moves, plan[team][w.receipts[team]], team, w.jira, w.maps).Delivered? {
          LevelAttempt(moves, plan, w, simple, team, fate);
          moved := true;
        }
      }
    }
  }

  lemma {:induction false} RunTracks(moves: (nat, nat) -> bool, plan: Plan, w: World, tries: seq<Try>) returns (order: seq<nat>)
    requires Begins(plan, w) && TriesKnown(plan, tries)
    ensures forall k :: 0 <= k < |order| ==> order[k] < |plan|
    ensures Tracks(moves, plan, Run(moves, plan, w, tries), Replay(moves, plan, w, order))
    ensures forall t: nat :: t < |plan| ==> Replay(moves, plan, w, order).receipts[t] == Times(order, t)
    decreases |tries|
  {
    if tries == [] {
      order := [];
      BeginsTracks(moves, plan, w);
    } else {
      var n := |tries| - 1;
      var before := RunTracks(moves, plan, w, tries[..n]);
      var moved := StepTracks(moves, plan, Run(moves, plan, w, tries[..n]), Replay(moves, plan, w, before), tries[n].team, tries[n].fate);
      order := if moved then before + [tries[n].team] else before;
      if moved {
        assert order[..|order| - 1] == before;
      }
    }
  }

  /** Exactly-once effect from at-least-once delivery. Whatever attempts are made, and wherever each of them
      breaks off, the provider is what it would be had some intents been delivered once each: for every
      team its receipted intents, in order, and at most the next one, whose receipt is still missing. */
  lemma ExactlyOnce(moves: (nat, nat) -> bool, plan: Plan, w: World, tries: seq<Try>) returns (order: seq<nat>)
    requires Begins(plan, w) && TriesKnown(plan, tries)
    ensures forall k :: 0 <= k < |order| ==> order[k] < |plan|
    ensures var end := Run(moves, plan, w, tries);
            && end.jira == Replay(moves, plan, w, order).jira
            && (forall t: nat :: t < |plan| ==>
                  Replay(moves, plan, w, order).receipts[t] == Times(order, t)
                  && end.receipts[t] <= Times(order, t) <= end.receipts[t] + 1)
  {
    order := RunTracks(moves, plan, w, tries);
    var end := Run(moves, plan, w, tries);
    forall t: nat | t < |plan| ensures end.receipts[t] <= Times(order, t) <= end.receipts[t] + 1 {
      assert TeamTracks(moves, plan, end, Replay(moves, plan, w, order), t);
    }
  }

  /** However often creations are attempted, the provider never holds two projects with one key, two issues
      of one identity, or two sprints of one identity on one board. */
  lemma AtMostOneResource(moves: (nat, nat) -> bool, plan: Plan, w: World, tries: seq<Try>)
    requires Begins(plan, w) && TriesKnown(plan, tries)
    ensures Unique(Run(moves, plan, w, tries).jira)
  {
    var order := RunTracks(moves, plan, w, tries);
  }

  // ---------- One sprint per identity ----------

  /** The plan creates the team's sprint id. */
  ghost predicate Creates(plan: Plan, team: nat, id: nat) {
    team < |plan| && exists k :: 0 <= k < |plan[team]| && plan[team][k].CreateSprint? && plan[team][k].id == id
  }

  /** Every creation of a sprint names the same board as any other of that sprint. */
  ghost predicate OneBoard(plan: Plan, board: (nat, nat) -> nat) {
    forall t, k :: 0 <= t < |plan| && 0 <= k < |plan[t]| && plan[t][k].CreateSprint? ==>
      plan[t][k].board == board(t, plan[t][k].id)
  }

  /** Each sprint the plan creates is on the provider's board that its own board is mapped to. */
  ghost predicate OnBoards(plan: Plan, j: Jira, maps: Maps, board: (nat, nat) -> nat) {
    forall a :: 0 <= a < |j.sprints| && Creates(plan, j.sprints[a].team, j.sprints[a].id) ==> OnBoard(j.sprints[a], maps, board)
  }

  ghost predicate OnBoard(sprint: JiraSprint, maps: Maps, board: (nat, nat) -> nat) {
    var key := (sprint.team, BoardKind, board(sprint.team, sprint.id));
    key in maps && maps[key] == sprint.board
  }

  lemma HandleOnBoards(moves: (nat, nat) -> bool, plan: Plan, op: Op, team: nat, j: Jira, maps: Maps, board: (nat, nat) -> nat)
    requires OnBoards(plan, j, maps, board) && (op.CreateSprint? ==> op.board == board(team, op.id))
    requires Handle(moves, op, team, j, maps).Delivered?
    ensures OnBoards(plan, Handle(moves, op, team, j, maps).jira, maps, board)
  {
    var k := Handle(moves, op, team, j, maps).jira;
    forall a | 0 <= a < |k.sprints| && Creates(plan, k.sprints[a].team, k.sprints[a].id) ensures OnBoard(k.sprints[a], maps, board) {
      if a < |j.sprints| {
        HandleGrows(moves, op, team, j, maps);
        assert OnBoard(j.sprints[a], maps, board);
      }
    }
  }

  lemma StoredOnBoards(plan: Plan, j: Jira, maps: Maps, mapping: Option<Mapping>, board: (nat, nat) -> nat)
    requires OnBoards(plan, j, maps, board) && Store(maps, mapping).Some?
    ensures OnBoards(plan, j, Store(maps, mapping).value, board)
  {
    forall a | 0 <= a < |j.sprints| && Creates(plan, j.sprints[a].team, j.sprints[a].id)
      ensures OnBoard(j.sprints[a], Store(maps, mapping).value, board)
    {
      assert OnBoard(j.sprints[a], maps, board);
    }
  }

  lemma AttemptOnBoards(moves: (nat, nat) -> bool, plan: Plan, w: World, team: nat, fate: Fate, board: (nat, nat) -> nat)
    requires team < |plan| == |w.receipts| && OneBoard(plan, board) && OnBoards(plan, w.jira, w.maps, board)
    ensures var v := Attempt(moves, plan, w, team, fate); OnBoards(plan, v.jira, v.maps, board)
  {
    if w.receipts[team] < |plan[team]| {
      var op := plan[team][w.receipts[team]];
      var reply := Handle(moves, op, team, w.jira, w.maps);
      if reply.Delivered? {
        HandleOnBoards(moves, plan, op, team, w.jira, w.maps, board);
        if Store(w.maps, reply.mapping).Some? {
          StoredOnBoards(plan, reply.jira, w.maps, reply.mapping, board);
        }
      }
    }
  }

  lemma {:induction false} RunOnBoards(moves: (nat, nat) -> bool, plan: Plan, w: World, tries: seq<Try>, board: (nat, nat) -> nat)
    requires TriesKnown(plan, tries) && |w.receipts| == |plan| && OneBoard(plan, board) && OnBoards(plan, w.jira, w.maps, board)
    ensures var v := Run(moves, plan, w, tries); OnBoards(plan, v.jira, v.maps, board)
    decreases |tries|
  {
    if tries != [] {
      var n := |tries| - 1;
      RunOnBoards(moves, plan, w, tries[..n], board);
      AttemptOnBoards(moves, plan, Run(moves, plan, w, tries[..n]), tries[n].team, tries[n].fate, board);
    }
  }

  /** No sprint the plan creates is at the provider before any attempt. */
  ghost predicate NoneYet(plan: Plan, j: Jira) {
    forall a :: 0 <= a < |j.sprints| ==> !Creates(plan, j.sprints[a].team, j.sprints[a].id)
  }

  /** When every creation of a sprint names one board, and the provider starts without the sprints the plan
      creates, none of them is ever there twice, whatever attempts are made. */
  lemma OneSprintEach(moves: (nat, nat) -> bool, plan: Plan, w: World, tries: seq<Try>, board: (nat, nat) -> nat, a: nat, b: nat)
    requires Begins(plan, w) && TriesKnown(plan, tries) && OneBoard(plan, board) && NoneYet(plan, w.jira)
    requires a < b < |Run(moves, plan, w, tries).jira.sprints|
    requires var sprint := Run(moves, plan, w, tries).jira.sprints[a]; Creates(plan, sprint.team, sprint.id)
    ensures var sprints := Run(moves, plan, w, tries).jira.sprints; (sprints[a].team, sprints[a].id) != (sprints[b].team, sprints[b].id)
  {
    AtMostOneResource(moves, plan, w, tries);
    RunOnBoards(moves, plan, w, tries, board);
    var v := Run(moves, plan, w, tries);
    assert OnBoard(v.jira.sprints[a], v.maps, board);
    assert Creates(plan, v.jira.sprints[b].team, v.jira.sprints[b].id) ==> OnBoard(v.jira.sprints[b], v.maps, board);
  }

  /** A plan that creates one sprint on two boards. */
  function TwoBoards(): Plan {
    [[CreateBoard(0, 0), CreateBoard(1, 1), CreateSprint(0, 0), CreateSprint(0, 1)]]
  }

  ghost function Empty(): World { World(Jira([], [], []), map[], [0]) }

  lemma RunNext(moves: (nat, nat) -> bool, plan: Plan, w: World, tries: seq<Try>, one: Try)
    requires TriesKnown(plan, tries) && one.team < |plan| == |w.receipts|
    ensures TriesKnown(plan, tries + [one])
    ensures Run(moves, plan, w, tries + [one]) == Attempt(moves, plan, Run(moves, plan, w, tries), one.team, one.fate)
  {
    assert (tries + [one])[..|tries|] == tries;
  }

  /** A board whose project is missing is created with it, and mapped. */
  lemma BoardCreated(moves: (nat, nat) -> bool, w: World, board: nat)
    requires |w.receipts| == 1 && w.receipts[0] == board < 2 && FindProject(w.jira.projects, board).None?
    requires |w.jira.projects| == board && (0, BoardKind, board) !in w.maps
    ensures Attempt(moves, TwoBoards(), w, 0, Receipted)
            == World(w.jira.(projects := w.jira.projects + [Project(board, true)]), w.maps[(0, BoardKind, board) := board], [board + 1])
  {
    assert TwoBoards()[0][board] == CreateBoard(board, board);
  }

  /** Its boards are mapped. */
  lemma TwoBoardsMapped(moves: (nat, nat) -> bool)
    ensures var w := Attempt(moves, TwoBoards(), Attempt(moves, TwoBoards(), Empty(), 0, Receipted), 0, Receipted);
            && w.receipts == [2] && w.jira.sprints == [] && (0, SprintKind, 0) !in w.maps
            && w.maps == map[(0, BoardKind, 0) := 0, (0, BoardKind, 1) := 1]
  {
    BoardCreated(moves, Empty(), 0);
    var w := Attempt(moves, TwoBoards(), Empty(), 0, Receipted);
    assert FindProject(w.jira.projects[..0], 1).None?;
    BoardCreated(moves, w, 1);
  }

  /** A sprint not found on its board is created there. */
  lemma SprintCreated(moves: (nat, nat) -> bool, w: World, board: nat)
    requires |w.receipts| == 1 && w.receipts[0] == 2 + board && board < 2
    requires (0, BoardKind, board) in w.maps && w.maps[(0, BoardKind, board)] == board && SprintMatches(w.jira.sprints, 0, 0, board) == []
    ensures var v := Attempt(moves, TwoBoards(), w, 0, Receipted);
            && v.jira.sprints == w.jira.sprints + [JiraSprint(0, 0, board, Future, {})]
            && ((0, SprintKind, 0) !in w.maps ==> v.receipts[0] == w.receipts[0] + 1 && v.maps == w.maps[(0, SprintKind, 0) := |w.jira.sprints|])
  {
    assert TwoBoards()[0][2 + board] == CreateSprint(0, board);
  }

  /** Then each board gets its own sprint. */
  lemma TwoSprintsCreated(moves: (nat, nat) -> bool, w: World)
    requires |w.receipts| == 1 && w.receipts[0] == 2 && w.jira.sprints == [] && (0, SprintKind, 0) !in w.maps
    requires (0, BoardKind, 0) in w.maps && (0, BoardKind, 1) in w.maps && w.maps[(0, BoardKind, 0)] == 0 && w.maps[(0, BoardKind, 1)] == 1
    ensures Attempt(moves, TwoBoards(), Attempt(moves, TwoBoards(), w, 0, Receipted), 0, Receipted).jira.sprints
            == [JiraSprint(0, 0, 0, Future, {}), JiraSprint(0, 0, 1, Future, {})]
  {
    SprintCreated(moves, w, 0);
    var v := Attempt(moves, TwoBoards(), w, 0, Receipted);
    OtherBoard(v.jira.sprints);
    SprintCreated(moves, v, 1);
  }

  lemma OtherBoard(sprints: seq<JiraSprint>)
    requires sprints == [JiraSprint(0, 0, 0, Future, {})]
    ensures SprintMatches(sprints, 0, 0, 1) == []
  {
    assert SprintMatches(sprints[..0], 0, 0, 1) == [];
  }

  /** One delivery of each of its intents leaves two sprints of one identity. */
  lemma TwoBoardsTwoSprints(moves: (nat, nat) -> bool) returns (tries: seq<Try>)
    ensures Begins(TwoBoards(), Empty()) && TriesKnown(TwoBoards(), tries)
    ensures var sprints := Run(moves, TwoBoards(), Empty(), tries).jira.sprints;
            |sprints| == 2 && (sprints[0].team, sprints[0].id) == (sprints[1].team, sprints[1].id)
  {
    var plan, w, one := TwoBoards(), Empty(), Try(0, Receipted);
    TwoBoardsMapped(moves);
    TwoSprintsCreated(moves, Attempt(moves, plan, Attempt(moves, plan, w, 0, Receipted), 0, Receipted));
    tries := [];
    RunNext(moves, plan, w, tries, one);
    RunNext(moves, plan, w, tries + [one], one);
    RunNext(moves, plan, w, tries + [one] + [one], one);
    RunNext(moves, plan, w, tries + [one] + [one] + [one], one);
    tries := tries + [one] + [one] + [one] + [one];
  }

  // ---------- One drain ----------

  /** One intent: a team, and its position among that team's. */
  datatype Item = Item(team: nat, index: nat)

  ghost predicate Distinct(log: seq<Item>) {
    forall a, b :: 0 <= a < b < |log| ==> log[a] != log[b]
  }

  /** How many intents one query may ask for. */
  const MAX_PENDING: nat := 50

  /** Teams in the order their first intents without a receipt were committed. */
  ghost predicate TeamOrder(plan: Plan, teams: World -> seq<nat>) {
    forall w ::
      && (forall k :: 0 <= k < |teams(w)| ==> teams(w)[k] < |plan|)
      && (forall k, l :: 0 <= k < l < |teams(w)| ==> teams(w)[k] != teams(w)[l])
  }

  /** The first intents without a receipt of these teams, where they are due. */
  function Outstanding(plan: Plan, due: (World, nat) -> bool, w: World, teams: seq<nat>): (r: seq<Item>)
    requires |w.receipts| == |plan| && (forall k :: 0 <= k < |teams| ==> teams[k] < |plan|)
    requires forall k, l :: 0 <= k < l < |teams| ==> teams[k] != teams[l]
    ensures forall k :: 0 <= k < |r| ==> r[k].team in teams && r[k].index == w.receipts[r[k].team]
    ensures forall k, l :: 0 <= k < l < |r| ==> r[k].team != r[l].team
  {
    if teams == [] then []
    else
      var n := |teams| - 1;
      var rest, item := Outstanding(plan, due, w, teams[..n]), Item(teams[n], w.receipts[teams[n]]);
      if item.index < |plan[item.team]| && due(w, item.team) then rest + [item] else rest
  }

  function FirstOf(items: seq<Item>, n: nat): seq<Item> { if |items| <= n then items else items[..n] }

  /** Those not tried yet in this drain. */
  function Untried(items: seq<Item>, log: seq<Item>): (r: seq<Item>)
    ensures forall k :: 0 <= k < |r| ==> r[k] in items && r[k] !in log
    ensures |r| <= |items|
    ensures (forall k, l :: 0 <= k < l < |items| ==> items[k].team != items[l].team) ==>
              forall k, l :: 0 <= k < l < |r| ==> r[k].team != r[l].team
  {
    if items == [] then []
    else
      var n := |items| - 1;
      var rest := Untried(items[..n], log);
      if items[n] in log then rest else rest + [items[n]]
  }

  /** What the drain takes on next: of the first n outstanding intents, those not tried yet. */
  function NextBatch(plan: Plan, due: (World, nat) -> bool, w: World, teams: seq<nat>, log: seq<Item>, n: nat): seq<Item>
    requires |w.receipts| == |plan| && (forall k :: 0 <= k < |teams| ==> teams[k] < |plan|)
    requires forall k, l :: 0 <= k < l < |teams| ==> teams[k] != teams[l]
  {
    Untried(FirstOf(Outstanding(plan, due, w, teams), n), log)
  }

  lemma BatchWaits(plan: Plan, due: (World, nat) -> bool, w: World, teams: seq<nat>, log: seq<Item>, n: nat)
    requires |w.receipts| == |plan| && (forall k :: 0 <= k < |teams| ==> teams[k] < |plan|)
    requires forall k, l :: 0 <= k < l < |teams| ==> teams[k] != teams[l]
    ensures var batch := NextBatch(plan, due, w, teams, log, n); |batch| <= n && Waiting(plan, w, log, batch, 0)
  {
    var items := Outstanding(plan, due, w, teams);
    var first := FirstOf(items, n);
    var batch := Untried(first, log);
    forall k | 0 <= k < |batch| ensures batch[k] in items {
      assert batch[k] in first;
    }
  }

  /** The worker's side: the stored mappings and receipt counts, and the provider it talks to. */
  class DeliveryStore {
    const site: Provider
    var maps: Maps
    var receipts: seq<nat>

    constructor (provider: Provider, initialMaps: Maps, initialReceipts: seq<nat>)
      ensures site == provider && maps == initialMaps && receipts == initialReceipts
    {
      site, maps, receipts := provider, initialMaps, initialReceipts;
    }

    function Now(): World
      reads this, site
    {
      World(site.jira, maps, receipts)
    }

    /** Deliver a team's first intent without a receipt: the handler runs against the provider, then the
        mapping and the receipt are stored together, if the attempt gets that far. A mapping that conflicts
        with a stored one is an error no retry is recorded for. */
    method DeliverOne(moves: (nat, nat) -> bool, plan: Plan, team: nat, fate: Fate) returns (delivered: bool, conflict: bool)
      requires team < |plan| == |receipts|
      modifies this, site
      ensures Now() == Attempt(moves, plan, old(Now()), team, fate)
      ensures delivered <==> receipts[team] == old(receipts)[team] + 1
      ensures conflict <==> Conflicts(moves, plan, old(Now()), team, fate)
    {
      delivered, conflict := false, false;
      if receipts[team] < |plan[team]| && !fate.Lost? {
        var reply := site.Deliver(moves, plan[team][receipts[team]], team, maps);
        if reply.Delivered? && fate.Receipted? {
          var stored := Store(maps, reply.mapping);
          if stored.Some? {
            maps, receipts := stored.value, receipts[team := receipts[team] + 1];
            delivered := true;
          } else {
            conflict := true;
          }
        }
      }
    }

    /** Try each intent of the batch in turn, until one attempt ends in an error other than the provider's. */
    method DrainBatch(moves: (nat, nat) -> bool, plan: Plan, fates: (World, nat) -> Fate, breaks: (World, nat) -> bool,
                      pending: seq<Item>, limit: nat, attempted: nat, ghost w: World, ghost before: seq<Item>, ghost earlier: seq<Try>)
      returns (finished: bool, delivered: nat, failed: nat, ghost log: seq<Item>, ghost tries: seq<Try>)
      requires |receipts| == |plan| && attempted + |pending| <= limit
      requires Drained(moves, plan, w, Now(), limit, attempted, before, earlier) && Waiting(plan, Now(), before, pending, 0)
      modifies this, site
      ensures |receipts| == |plan| && delivered + failed <= |pending|
      ensures Drained(moves, plan, w, Now(), limit, attempted + delivered + failed + (if finished then 0 else 1), log, tries)
      ensures finished ==> log == before + pending && delivered + failed == |pending|
      ensures finished ==> Gained(moves, plan, w, tries) == Gained(moves, plan, w, earlier) + delivered
      ensures !finished ==> Broke(moves, plan, w, breaks, tries)
    {
      finished, delivered, failed, log, tries := true, 0, 0, before, earlier;
      for k := 0 to |pending|
        invariant |receipts| == |plan| && log == before + pending[..k] && delivered + failed == k
        invariant Drained(moves, plan, w, Now(), limit, attempted + k, log, tries)
        invariant Waiting(plan, Now(), log, pending, k)
        invariant Gained(moves, plan, w, tries) == Gained(moves, plan, w, earlier) + delivered
      {
        var team, fate, breaking := pending[k].team, fates(Now(), pending[k].team), breaks(Now(), pending[k].team);
        DrainStep(moves, plan, w, Now(), limit, attempted + k, log, tries, pending, k, fate);
        BrokeAt(moves, plan, w, Now(), breaks, tries, team, fate);
        GainedNext(moves, plan, w, Now(), tries, team, fate);
        var ok, conflict := DeliverOne(moves, plan, team, fate);
        log, tries := log + [pending[k]], tries + [Try(team, fate)];
        if conflict || breaking {
          return false, delivered, failed, log, tries;
        }
        delivered, failed := if ok then delivered + 1 else delivered, if ok then failed else failed + 1;
        assert pending[..k + 1] == pending[..k] + [pending[k]];
      }
      assert pending[..|pending|] == pending;
    }

    /** Ask for at most n outstanding intents, and leave out those tried already. */
    method Pending(plan: Plan, due: (World, nat) -> bool, teams: World -> seq<nat>, processed: seq<Item>, n: nat) returns (batch: seq<Item>)
      requires |receipts| == |plan| && TeamOrder(plan, teams)
      ensures batch == NextBatch(plan, due, Now(), teams(Now()), processed, n)
      ensures |batch| <= n && Waiting(plan, Now(), processed, batch, 0)
    {
      BatchWaits(plan, due, Now(), teams(Now()), processed, n);
      batch := NextBatch(plan, due, Now(), teams(Now()), processed, n);
    }

    /** One drain: it attempts at most `limit` intents, no intent twice, each when it is its team's first
        without a receipt; whatever becomes of each attempt, what it leaves is what those attempts leave. It
        goes on until the limit is reached or, of the first intents it may still ask for, none is untried;
        an error other than the provider's (`breaks`, or a conflicting mapping) ends it at once. */
    method DrainOnce(moves: (nat, nat) -> bool, plan: Plan, due: (World, nat) -> bool, teams: World -> seq<nat>,
                     fates: (World, nat) -> Fate, breaks: (World, nat) -> bool, limit: nat)
      returns (finished: bool, attempted: nat, delivered: nat, failed: nat, ghost log: seq<Item>, ghost tries: seq<Try>)
      requires |receipts| == |plan| && TeamOrder(plan, teams)
      modifies this, site
      ensures |receipts| == |plan| && Drained(moves, plan, old(Now()), Now(), limit, |tries|, log, tries)
      ensures finished ==> attempted == |tries| && delivered + failed == attempted && delivered == Gained(moves, plan, old(Now()), tries)
      ensures finished && attempted < limit ==> NextBatch(plan, due, Now(), teams(Now()), log, limit - attempted) == []
      ensures !finished ==> if tries == [] then limit > MAX_PENDING else Broke(moves, plan, old(Now()), breaks, tries)
    {
      finished, attempted, delivered, failed, log, tries := true, 0, 0, 0, [], [];
      if limit > MAX_PENDING {
        return false, attempted, delivered, failed, log, tries;
      }
      var processed: seq<Item> := [];
      while attempted < limit
        invariant |receipts| == |plan| && processed == log && delivered + failed == attempted == |tries|
        invariant Drained(moves, plan, old(Now()), Now(), limit, attempted, log, tries)
        invariant delivered == Gained(moves, plan, old(Now()), tries)
        decreases limit - attempted
      {
        var pending := Pending(plan, due, teams, processed, limit - attempted);
        if pending == [] {
          break;
        }
        var ok, more, less;
        ok, more, less, log, tries := DrainBatch(moves, plan, fates, breaks, pending, limit, attempted, old(Now()), log, tries);
        if !ok {
          return false, attempted, delivered, failed, log, tries;
        }
        processed, attempted := processed + pending, attempted + |pending|;
        delivered, failed := delivered + more, failed + less;
      }
    }
  }

  /** The attempt reaches the point of storing a mapping that conflicts with a stored one. */
  predicate Conflicts(moves: (nat, nat) -> bool, plan: Plan, w: World, team: nat, fate: Fate)
    requires team < |plan| == |w.receipts|
  {
    && w.receipts[team] < |plan[team]| && fate.Receipted?
    && var reply := Handle(moves, plan[team][w.receipts[team]], team, w.jira, w.maps);
       reply.Delivered? && Store(w.maps, reply.mapping).None?
  }

  /** The last attempt ended in an error other than the provider's. */
  ghost predicate Broke(moves: (nat, nat) -> bool, plan: Plan, w: World, breaks: (World, nat) -> bool, tries: seq<Try>)
    requires TriesKnown(plan, tries) && |w.receipts| == |plan|
  {
    tries != [] &&
      var n := |tries| - 1;
      var before := Run(moves, plan, w, tries[..n]);
      breaks(before, tries[n].team) || Conflicts(moves, plan, before, tries[n].team, tries[n].fate)
  }

  lemma BrokeAt(moves: (nat, nat) -> bool, plan: Plan, w: World, v: World, breaks: (World, nat) -> bool, tries: seq<Try>, team: nat, fate: Fate)
    requires TriesKnown(plan, tries) && team < |plan| == |w.receipts| && v == Run(moves, plan, w, tries)
    ensures TriesKnown(plan, tries + [Try(team, fate)])
    ensures Broke(moves, plan, w, breaks, tries + [Try(team, fate)]) <==> breaks(v, team) || Conflicts(moves, plan, v, team, fate)
  {
    assert (tries + [Try(team, fate)])[..|tries|] == tries;
  }

  /** From position k on, the batch holds first intents of different teams, none of them tried yet. */
  ghost predicate Waiting(plan: Plan, w: World, log: seq<Item>, batch: seq<Item>, k: nat) {
    && |w.receipts| == |plan|
    && (forall i :: k <= i < |batch| ==> batch[i] !in log && batch[i].team < |plan| && batch[i].index == w.receipts[batch[i].team])
    && (forall i, l :: k <= i < l < |batch| ==> batch[i].team != batch[l].team)
  }

  /** Each attempt was at its team's first intent without a receipt, and none was made twice. */
  ghost predicate InTurn(moves: (nat, nat) -> bool, plan: Plan, w: World, log: seq<Item>, tries: seq<Try>)
    requires TriesKnown(plan, tries) && |w.receipts| == |plan|
    decreases |tries|
  {
    && |log| == |tries|
    && (tries != [] ==>
          var n := |tries| - 1;
          && InTurn(moves, plan, w, log[..n], tries[..n])
          && log[n] !in log[..n] && log[n] == Item(tries[n].team, Run(moves, plan, w, tries[..n]).receipts[tries[n].team]))
  }

  lemma {:induction false} TriedOnce(moves: (nat, nat) -> bool, plan: Plan, w: World, log: seq<Item>, tries: seq<Try>)
    requires TriesKnown(plan, tries) && |w.receipts| == |plan| && InTurn(moves, plan, w, log, tries)
    ensures |log| == |tries| && Distinct(log)
    decreases |tries|
  {
    if tries != [] {
      var n := |tries| - 1;
      TriedOnce(moves, plan, w, log[..n], tries[..n]);
      OneMoreDistinct(log, n);
    }
  }

  lemma OneMoreDistinct(log: seq<Item>, n: nat)
    requires |log| == n + 1 && Distinct(log[..n]) && log[n] !in log[..n]
    ensures Distinct(log)
  {
    forall a, b | 0 <= a < b < |log| ensures log[a] != log[b] {
      assert log[..n][a] == log[a];
      assert b < n ==> log[..n][b] == log[b];
    }
  }

  lemma {:induction false} TriedInTurn(moves: (nat, nat) -> bool, plan: Plan, w: World, log: seq<Item>, tries: seq<Try>, k: nat)
    requires TriesKnown(plan, tries) && |w.receipts| == |plan| && InTurn(moves, plan, w, log, tries) && k < |tries|
    ensures |log| == |tries| && log[k] == Item(tries[k].team, Run(moves, plan, w, tries[..k]).receipts[tries[k].team])
    decreases |tries|
  {
    var n := |tries| - 1;
    if k < n {
      TriedInTurn(moves, plan, w, log[..n], tries[..n], k);
      assert tries[..n][..k] == tries[..k];
    }
  }

  /** How many of the attempts stored a receipt. */
  ghost function Gained(moves: (nat, nat) -> bool, plan: Plan, w: World, tries: seq<Try>): nat
    requires TriesKnown(plan, tries) && |w.receipts| == |plan|
  {
    if tries == [] then 0
    else
      var n := |tries| - 1;
      Gained(moves, plan, w, tries[..n])
      + if Run(moves, plan, w, tries).receipts[tries[n].team] == Run(moves, plan, w, tries[..n]).receipts[tries[n].team] + 1 then 1 else 0
  }

  lemma GainedNext(moves: (nat, nat) -> bool, plan: Plan, w: World, v: World, tries: seq<Try>, team: nat, fate: Fate)
    requires TriesKnown(plan, tries) && |w.receipts| == |plan| && v == Run(moves, plan, w, tries) && team < |plan|
    ensures TriesKnown(plan, tries + [Try(team, fate)])
    ensures Gained(moves, plan, w, tries + [Try(team, fate)]) == Gained(moves, plan, w, tries)
            + if Attempt(moves, plan, v, team, fate).receipts[team] == v.receipts[team] + 1 then 1 else 0
  {
    assert (tries + [Try(team, fate)])[..|tries|] == tries;
  }

  /** What a drain so far has done, from world w to world v. */
  ghost predicate Drained(moves: (nat, nat) -> bool, plan: Plan, w: World, v: World, limit: nat,
                          attempted: nat, log: seq<Item>, tries: seq<Try>) {
    && |w.receipts| == |plan| && attempted <= limit && |tries| == attempted
    && TriesKnown(plan, tries) && InTurn(moves, plan, w, log, tries) && v == Run(moves, plan, w, tries)
  }

  lemma DrainStep(moves: (nat, nat) -> bool, plan: Plan, w: World, v: World, limit: nat, attempted: nat,
                  log: seq<Item>, tries: seq<Try>, batch: seq<Item>, k: nat, fate: Fate)
    requires Drained(moves, plan, w, v, limit, attempted, log, tries)
    requires attempted < limit && k < |batch| && Waiting(plan, v, log, batch, k)
    ensures var next := Attempt(moves, plan, v, batch[k].team, fate);
            && Drained(moves, plan, w, next, limit, attempted + 1, log + [batch[k]], tries + [Try(batch[k].team, fate)])
            && Waiting(plan, next, log + [batch[k]], batch, k + 1)
  {
    var more := tries + [Try(batch[k].team, fate)];
    assert more[..|tries|] == tries && (log + [batch[k]])[..|tries|] == log;
  }
}
