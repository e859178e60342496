/** One poll over all teams that are due, page by page, while each advance rewrites its own team. */
module DuePages {
  import opened BusinessCalendar

  /** A runtime row: its team, whether it runs, and when it next wants to be woken. */
  datatype Row = Row(team: nat, running: bool, wake: Option<int>)

  predicate IsDue(row: Row, asOf: int) {
    row.running && row.wake.Some? && row.wake.value <= asOf
  }

  /** Rows are kept in team order, one per team. */
  ghost predicate Sorted(rows: seq<Row>) {
    forall i, j :: 0 <= i < j < |rows| ==> rows[i].team < rows[j].team
  }

  predicate Past(team: nat, after: Option<nat>) {
    after.None? || team > after.value
  }

  /** The due teams past `after`, in team order. */
  function DueFrom(rows: seq<Row>, asOf: int, after: Option<nat>): seq<nat> {
    if rows == [] then []
    else
      var rest := DueFrom(rows[1..], asOf, after);
      if IsDue(rows[0], asOf) && Past(rows[0].team, after) then [rows[0].team] + rest else rest
  }

  /** At most `limit` of them, from the first one on. */
  function Page(rows: seq<Row>, asOf: int, after: Option<nat>, limit: nat): (page: seq<nat>)
    ensures page <= DueFrom(rows, asOf, after) && |page| <= limit
    ensures |page| < limit ==> page == DueFrom(rows, asOf, after)
  {
    var due := DueFrom(rows, asOf, after);
    if |due| <= limit then due else due[..limit]
  }

  // ---------- What a due list is ----------

  /** Increasing, hence without repetition. */
  ghost predicate Rising(teams: seq<nat>) {
    forall i, j :: 0 <= i < j < |teams| ==> teams[i] < teams[j]
  }

  lemma {:induction false} DueMembers(rows: seq<Row>, asOf: int, after: Option<nat>, team: nat)
    ensures team in DueFrom(rows, asOf, after)
            <==> (after == None || after.value < team)
                 && exists i :: 0 <= i < |rows| && rows[i].team == team
                                && rows[i].running && rows[i].wake != None && rows[i].wake.value <= asOf
  {
    if rows != [] {
      DueMembers(rows[1..], asOf, after, team);
      if exists i :: 0 <= i < |rows[1..]| && rows[1..][i].team == team && IsDue(rows[1..][i], asOf) {
        var i :| 0 <= i < |rows[1..]| && rows[1..][i].team == team && IsDue(rows[1..][i], asOf);
        assert rows[i + 1] == rows[1..][i];
      }
      if exists i :: 0 <= i < |rows| && rows[i].team == team && IsDue(rows[i], asOf) {
        var i :| 0 <= i < |rows| && rows[i].team == team && IsDue(rows[i], asOf);
        assert i > 0 ==> rows[1..][i - 1] == rows[i];
      }
    }
  }

  lemma {:induction false} DueRises(rows: seq<Row>, asOf: int, after: Option<nat>)
    requires Sorted(rows)
    ensures Rising(DueFrom(rows, asOf, after))
  {
    if rows != [] {
      DueRises(rows[1..], asOf, after);
      var rest := DueFrom(rows[1..], asOf, after);
      forall k | 0 <= k < |rest| ensures rows[0].team < rest[k] {
        DueMembers(rows[1..], asOf, after, rest[k]);
        var i :| 0 <= i < |rows[1..]| && rows[1..][i].team == rest[k] && IsDue(rows[1..][i], asOf);
        assert rows[i + 1] == rows[1..][i];
      }
    }
  }

  /** Asking past the k-th due team gives what came after it. */
  lemma {:induction false} DuePast(rows: seq<Row>, asOf: int, after: Option<nat>, k: nat)
    requires Sorted(rows) && 0 < k <= |DueFrom(rows, asOf, after)|
    ensures DueFrom(rows, asOf, Some(DueFrom(rows, asOf, after)[k - 1])) == DueFrom(rows, asOf, after)[k..]
  {
    var due, last := DueFrom(rows, asOf, after), DueFrom(rows, asOf, after)[k - 1];
    var rest := DueFrom(rows[1..], asOf, after);
    DueRises(rows, asOf, after);
    if IsDue(rows[0], asOf) && Past(rows[0].team, after) {
      assert due == [rows[0].team] + rest;
      if k == 1 {
        NoneSkipped(rows[1..], asOf, after, rows[0].team);
      } else {
        assert due[k - 1] == rest[k - 2] && due[k..] == rest[k - 1..] && due[0] < due[k - 1];
        DuePast(rows[1..], asOf, after, k - 1);
      }
    } else {
      DuePast(rows[1..], asOf, after, k);
      DueMembers(rows, asOf, after, last);
    }
  }

  lemma {:induction false} NoneSkipped(rows: seq<Row>, asOf: int, after: Option<nat>, team: nat)
    requires Past(team, after) && forall i :: 0 <= i < |rows| ==> team < rows[i].team
    ensures DueFrom(rows, asOf, Some(team)) == DueFrom(rows, asOf, after)
  {
    if rows != [] {
      NoneSkipped(rows[1..], asOf, after, team);
    }
  }

  /** The same teams, and past `after` the same rows. */
  ghost predicate Untried(a: seq<Row>, b: seq<Row>, after: Option<nat>) {
    |a| == |b| && forall i :: 0 <= i < |a| ==> a[i].team == b[i].team && (Past(a[i].team, after) ==> a[i] == b[i])
  }

  /** Rewriting the rows of a page leaves the rows past it alone. */
  lemma UntriedNext(before: seq<Row>, after: seq<Row>, start: seq<Row>, cursor: Option<nat>, page: seq<nat>)
    requires Untried(before, start, cursor) && page != [] && |after| == |before|
    requires forall i :: 0 <= i < |after| ==> after[i].team == before[i].team && (after[i].team !in page ==> after[i] == before[i])
    requires Past(page[|page| - 1], cursor) && forall team :: team in page ==> team <= page[|page| - 1]
    ensures Untried(after, start, Some(page[|page| - 1]))
  {
  }

  /** Rows past `after` decide what is due past it. */
  lemma {:induction false} DueAgrees(a: seq<Row>, b: seq<Row>, asOf: int, after: Option<nat>)
    requires Untried(a, b, after)
    ensures DueFrom(a, asOf, after) == DueFrom(b, asOf, after)
  {
    if a != [] {
      DueAgrees(a[1..], b[1..], asOf, after);
    }
  }

  // ---------- What one poll did ----------

  /** What advancing a team does to its own row, and whether it succeeded. */
  datatype Effect = Effect(ok: bool, running: bool, wake: Option<int>)

  /** From a to b, this team's row became what its advance makes of it, and no other row changed. */
  ghost predicate Advanced(a: seq<Row>, b: seq<Row>, team: nat, e: Effect) {
    |b| == |a| && forall i :: 0 <= i < |a| ==> b[i] == if a[i].team == team then Row(team, e.running, e.wake) else a[i]
  }

  /** The tables before, between and after advancing these teams in order, each at the table it finds. */
  ghost predicate Polled(effect: (seq<Row>, nat) -> Effect, tables: seq<seq<Row>>, teams: seq<nat>) {
    && |tables| == |teams| + 1
    && forall k :: 0 <= k < |teams| ==> Advanced(tables[k], tables[k + 1], teams[k], effect(tables[k], teams[k]))
  }

  /** Those of the teams, in order, whose own advance went this way. */
  ghost function Those(effect: (seq<Row>, nat) -> Effect, tables: seq<seq<Row>>, teams: seq<nat>, ok: bool): seq<nat>
    requires |tables| >= |teams|
  {
    if teams == [] then []
    else
      var n := |teams| - 1;
      Those(effect, tables, teams[..n], ok) + if effect(tables[n], teams[n]).ok == ok then [teams[n]] else []
  }

  /** From the first table to the last, every team was advanced in turn; these went well, the others not. */
  ghost predicate Results(effect: (seq<Row>, nat) -> Effect, tables: seq<seq<Row>>, teams: seq<nat>, succeeded: seq<nat>, failed: seq<nat>) {
    && Polled(effect, tables, teams)
    && succeeded == Those(effect, tables, teams, true) && failed == Those(effect, tables, teams, false)
  }

  lemma ResultsNext(effect: (seq<Row>, nat) -> Effect, tables: seq<seq<Row>>, teams: seq<nat>, succeeded: seq<nat>, failed: seq<nat>,
                    team: nat, rows: seq<Row>)
    requires Results(effect, tables, teams, succeeded, failed)
    requires Advanced(tables[|teams|], rows, team, effect(tables[|teams|], team))
    ensures effect(tables[|teams|], team).ok ==> Results(effect, tables + [rows], teams + [team], succeeded + [team], failed)
    ensures !effect(tables[|teams|], team).ok ==> Results(effect, tables + [rows], teams + [team], succeeded, failed + [team])
  {
    assert (teams + [team])[..|teams|] == teams;
    ThoseUpto(effect, tables, tables + [rows], teams, true);
    ThoseUpto(effect, tables, tables + [rows], teams, false);
  }

  /** Later tables do not matter. */
  lemma {:induction false} ThoseUpto(effect: (seq<Row>, nat) -> Effect, a: seq<seq<Row>>, b: seq<seq<Row>>, teams: seq<nat>, ok: bool)
    requires |a| >= |teams| && |b| >= |teams| && forall k :: 0 <= k < |teams| ==> a[k] == b[k]
    ensures Those(effect, a, teams, ok) == Those(effect, b, teams, ok)
  {
    if teams != [] {
      ThoseUpto(effect, a, b, teams[..|teams| - 1], ok);
    }
  }

  lemma {:induction false} ThoseJoin(effect: (seq<Row>, nat) -> Effect, x: seq<seq<Row>>, y: seq<seq<Row>>, all: seq<seq<Row>>,
                                     a: seq<nat>, b: seq<nat>, ok: bool)
    requires |x| >= |a| && |y| >= |b| && |all| >= |a| + |b|
    requires (forall k :: 0 <= k < |a| ==> all[k] == x[k]) && (forall k :: 0 <= k < |b| ==> all[|a| + k] == y[k])
    ensures Those(effect, all, a + b, ok) == Those(effect, x, a, ok) + Those(effect, y, b, ok)
    decreases |b|
  {
    if b == [] {
      assert a + b == a;
      ThoseUpto(effect, x, all, a, ok);
    } else {
      var n := |b| - 1;
      ThoseJoin(effect, x, y, all, a, b[..n], ok);
      assert (a + b)[..|a| + n] == a + b[..n];
    }
  }

  /** Two polls, the second starting from the table the first ends with. */
  lemma ResultsJoin(effect: (seq<Row>, nat) -> Effect, x: seq<seq<Row>>, y: seq<seq<Row>>, a: seq<nat>, b: seq<nat>,
                    sa: seq<nat>, fa: seq<nat>, sb: seq<nat>, fb: seq<nat>)
    requires Results(effect, x, a, sa, fa) && Results(effect, y, b, sb, fb) && x[|a|] == y[0]
    ensures Results(effect, x + y[1..], a + b, sa + sb, fa + fb)
  {
    var all := x + y[1..];
    assert forall k :: 0 <= k < |b| ==> all[|a| + k] == y[k];
    ThoseJoin(effect, x, y, all, a, b, true);
    ThoseJoin(effect, x, y, all, a, b, false);
    PolledJoin(effect, x, y, all, a, b);
  }

  lemma PolledJoin(effect: (seq<Row>, nat) -> Effect, x: seq<seq<Row>>, y: seq<seq<Row>>, all: seq<seq<Row>>, a: seq<nat>, b: seq<nat>)
    requires Polled(effect, x, a) && Polled(effect, y, b) && x[|a|] == y[0] && all == x + y[1..]
    ensures Polled(effect, all, a + b)
  {
    forall k | 0 <= k < |a + b| ensures Advanced(all[k], all[k + 1], (a + b)[k], effect(all[k], (a + b)[k])) {
      if k < |a| {
        assert all[k] == x[k] && all[k + 1] == x[k + 1];
      } else {
        var l := k - |a|;
        assert all[k] == y[l] && all[k + 1] == y[l + 1] && (a + b)[k] == b[l];
      }
    }
  }

  /** Each team tried is in exactly one of the two lists, as often as it was tried. */
  lemma {:induction false} ResultsPartition(effect: (seq<Row>, nat) -> Effect, tables: seq<seq<Row>>, teams: seq<nat>)
    requires |tables| >= |teams|
    ensures multiset(Those(effect, tables, teams, true)) + multiset(Those(effect, tables, teams, false)) == multiset(teams)
  {
    if teams != [] {
      var n := |teams| - 1;
      assert teams == teams[..n] + [teams[n]];
      ResultsPartition(effect, tables, teams[..n]);
    }
  }

  /** What has been tried and what is left make up the whole. */
  ghost predicate Tried(tried: seq<nat>, left: seq<nat>, all: seq<nat>) {
    tried + left == all
  }

  lemma TriedNext(tried: seq<nat>, page: seq<nat>, left: seq<nat>, all: seq<nat>)
    requires Tried(tried, page + left, all)
    ensures Tried(tried + page, left, all)
  {
    assert tried + (page + left) == (tried + page) + left;
  }

  /** What one poll did, from the table at its start to the present one. */
  ghost predicate Did(effect: (seq<Row>, nat) -> Effect, start: seq<Row>, now: seq<Row>, tables: seq<seq<Row>>,
                      teams: seq<nat>, succeeded: seq<nat>, failed: seq<nat>) {
    Results(effect, tables, teams, succeeded, failed) && tables[0] == start && tables[|teams|] == now
  }

  lemma DidNothing(effect: (seq<Row>, nat) -> Effect, rows: seq<Row>)
    ensures Did(effect, rows, rows, [rows], [], [], [])
  {
  }

  lemma DidJoin(effect: (seq<Row>, nat) -> Effect, start: seq<Row>, mid: seq<Row>, now: seq<Row>, x: seq<seq<Row>>, y: seq<seq<Row>>,
                a: seq<nat>, b: seq<nat>, sa: seq<nat>, fa: seq<nat>, sb: seq<nat>, fb: seq<nat>)
    requires Did(effect, start, mid, x, a, sa, fa) && Did(effect, mid, now, y, b, sb, fb)
    ensures Did(effect, start, now, x + y[1..], a + b, sa + sb, fa + fb)
  {
    ResultsJoin(effect, x, y, a, b, sa, fa, sb, fb);
    assert |b| > 0 ==> (x + y[1..])[|a + b|] == y[|b|];
  }

  // ---------- The poll ----------

  class Runtimes {
    var rows: seq<Row>

    constructor (initial: seq<Row>)
      ensures rows == initial
    {
      rows := initial;
    }

    /** Advancing one team makes its row what the effect says, at the table it finds, and rewrites no other. */
    method Advance(team: nat, effect: (seq<Row>, nat) -> Effect) returns (ok: bool)
      modifies this
      ensures ok == effect(old(rows), team).ok
      ensures Advanced(old(rows), rows, team, effect(old(rows), team))
    {
      var e := effect(rows, team);
      ok := e.ok;
      var before := rows;
      for i := 0 to |before|
        invariant |rows| == |before|
        invariant forall k :: 0 <= k < |rows| ==>
                    rows[k] == if k < i && before[k].team == team then Row(team, e.running, e.wake) else before[k]
      {
        if before[i].team == team {
          rows := rows[i := Row(team, e.running, e.wake)];
        }
      }
    }

    /** Try every team of one page, in order, recording who succeeded and who failed. */
    method RunPage(teams: seq<nat>, effect: (seq<Row>, nat) -> Effect)
      returns (succeeded: seq<nat>, failed: seq<nat>, ghost tables: seq<seq<Row>>)
      modifies this
      ensures Did(effect, old(rows), rows, tables, teams, succeeded, failed)
      ensures |rows| == |old(rows)|
      ensures forall i :: 0 <= i < |rows| ==> rows[i].team == old(rows)[i].team && (rows[i].team !in teams ==> rows[i] == old(rows)[i])
    {
      succeeded, failed, tables := [], [], [rows];
      for k := 0 to |teams|
        invariant |rows| == |old(rows)|
        invariant forall i :: 0 <= i < |rows| ==> rows[i].team == old(rows)[i].team && (rows[i].team !in teams ==> rows[i] == old(rows)[i])
        invariant Results(effect, tables, teams[..k], succeeded, failed) && tables[0] == old(rows) && tables[k] == rows
      {
        ghost var before := rows;
        var ok := Advance(teams[k], effect);
        ResultsNext(effect, tables, teams[..k], succeeded, failed, teams[k], rows);
        assert teams[..k + 1] == teams[..k] + [teams[k]];
        tables := tables + [rows];
        if ok {
          succeeded := succeeded + [teams[k]];
        } else {
          failed := failed + [teams[k]];
        }
      }
      assert teams[..|teams|] == teams;
    }

    /** One poll: for any page size, every team due when it starts is advanced exactly once, in team order,
        although each advance may leave its team due again; it terminates, and reports as succeeded and as
        failed exactly those whose advance, at the table it found, went that way. */
    method RunDue(asOf: int, limit: nat, effect: (seq<Row>, nat) -> Effect)
      returns (attempted: seq<nat>, succeeded: seq<nat>, failed: seq<nat>, ghost tables: seq<seq<Row>>)
      requires Sorted(rows) && limit >= 1
      modifies this
      ensures attempted == DueFrom(old(rows), asOf, None)
      ensures Rising(attempted)
      ensures Did(effect, old(rows), rows, tables, attempted, succeeded, failed)
      ensures multiset(succeeded) + multiset(failed) == multiset(attempted)
    {
      attempted, succeeded, failed, tables := [], [], [], [rows];
      var cursor: Option<nat> := None;
      ghost var start := rows;
      DueRises(start, asOf, None);
      DidNothing(effect, rows);
      while true
        invariant Sorted(start) && Untried(rows, start, cursor)
        invariant Tried(attempted, DueFrom(start, asOf, cursor), DueFrom(start, asOf, None))
        invariant Did(effect, start, rows, tables, attempted, succeeded, failed)
        decreases |DueFrom(start, asOf, cursor)|
      {
        DueAgrees(rows, start, asOf, cursor);
        var page := Page(rows, asOf, cursor, limit);
        if page == [] {
          ResultsPartition(effect, tables, attempted);
          return;
        }
        NextCursor(start, asOf, cursor, page);
        ghost var before := rows;
        ghost var more;
        var ok, bad;
        ok, bad, more := RunPage(page, effect);
        UntriedNext(before, rows, start, cursor, page);
        TriedNext(attempted, page, DueFrom(start, asOf, Some(page[|page| - 1])), DueFrom(start, asOf, None));
        DidJoin(effect, start, before, rows, tables, more, attempted, page, succeeded, failed, ok, bad);
        attempted, succeeded, failed, tables := attempted + page, succeeded + ok, failed + bad, tables + more[1..];
        cursor := Some(page[|page| - 1]);
      }
    }
  }

  /** After a page, its last team is where the next page starts; no team past it was in the page. */
  lemma NextCursor(rows: seq<Row>, asOf: int, after: Option<nat>, page: seq<nat>)
    requires Sorted(rows) && page != [] && page <= DueFrom(rows, asOf, after)
    ensures var last := page[|page| - 1];
            && DueFrom(rows, asOf, after) == page + DueFrom(rows, asOf, Some(last))
            && (forall team :: team in page ==> team <= last)
            && Past(last, after)
  {
    DuePast(rows, asOf, after, |page|);
    DueRises(rows, asOf, after);
    DueMembers(rows, asOf, after, page[|page| - 1]);
  }
}
