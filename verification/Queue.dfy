/** What a drain asks for: exactly the due first intents, in team order, and of those the ones not tried. */
module Queue {
  import opened Delivery

  /** The team has an intent without a receipt, and it may be tried now. */
  ghost predicate IsDue(plan: Plan, due: (World, nat) -> bool, w: World, team: nat) {
    team < |plan| == |w.receipts| && w.receipts[team] < |plan[team]| && due(w, team)
  }

  /** How many of the first k teams are due. */
  ghost function DueBefore(plan: Plan, due: (World, nat) -> bool, w: World, teams: seq<nat>, k: nat): nat
    requires k <= |teams|
  {
    if k == 0 then 0 else DueBefore(plan, due, w, teams, k - 1) + if IsDue(plan, due, w, teams[k - 1]) then 1 else 0
  }

  /** Known teams, each listed once. */
  ghost predicate Listed(plan: Plan, w: World, teams: seq<nat>) {
    && |w.receipts| == |plan| && (forall k :: 0 <= k < |teams| ==> teams[k] < |plan|)
    && (forall k, l :: 0 <= k < l < |teams| ==> teams[k] != teams[l])
  }

  ghost function FirstIntent(w: World, team: nat): Item
    requires team < |w.receipts|
  {
    Item(team, w.receipts[team])
  }

  lemma {:induction false} DueBeforePrefix(plan: Plan, due: (World, nat) -> bool, w: World, teams: seq<nat>, n: nat, k: nat)
    requires k <= n <= |teams|
    ensures DueBefore(plan, due, w, teams[..n], k) == DueBefore(plan, due, w, teams, k)
  {
    if k > 0 {
      DueBeforePrefix(plan, due, w, teams, n, k - 1);
    }
  }

  lemma {:induction false} DueBeforeRises(plan: Plan, due: (World, nat) -> bool, w: World, teams: seq<nat>, k: nat, l: nat)
    requires k <= l <= |teams|
    ensures DueBefore(plan, due, w, teams, k) <= DueBefore(plan, due, w, teams, l)
    ensures k < l && IsDue(plan, due, w, teams[k]) ==> DueBefore(plan, due, w, teams, k) < DueBefore(plan, due, w, teams, l)
    decreases l - k
  {
    if k < l {
      DueBeforeRises(plan, due, w, teams, k, l - 1);
    }
  }

  /** A due team's first intent is listed behind those of the due teams before it, and nothing else is listed. */
  lemma {:induction false} OutstandingExact(plan: Plan, due: (World, nat) -> bool, w: World, teams: seq<nat>)
    requires Listed(plan, w, teams)
    ensures var r := Outstanding(plan, due, w, teams);
            && |r| == DueBefore(plan, due, w, teams, |teams|)
            && forall k: nat :: k < |teams| && IsDue(plan, due, w, teams[k]) ==>
                 DueBefore(plan, due, w, teams, k) < |r| && r[DueBefore(plan, due, w, teams, k)] == FirstIntent(w, teams[k])
    decreases |teams|
  {
    if teams != [] {
      var n := |teams| - 1;
      OutstandingExact(plan, due, w, teams[..n]);
      DueBeforePrefix(plan, due, w, teams, n, n);
      forall k: nat | k < |teams| && IsDue(plan, due, w, teams[k])
        ensures DueBefore(plan, due, w, teams, k) < |Outstanding(plan, due, w, teams)|
                && Outstanding(plan, due, w, teams)[DueBefore(plan, due, w, teams, k)] == FirstIntent(w, teams[k])
      {
        if k < n {
          DueBeforePrefix(plan, due, w, teams, n, k);
          assert teams[..n][k] == teams[k];
        }
      }
    }
  }

  lemma {:induction false} UntriedExact(items: seq<Item>, log: seq<Item>, item: Item)
    ensures item in Untried(items, log) <==> item in items && item !in log
  {
    if items != [] {
      var n := |items| - 1;
      UntriedExact(items[..n], log, item);
      assert items == items[..n] + [items[n]];
    }
  }

  /** The drain takes on a team's first intent exactly if it is due, among the first n due ones, and has not
      been tried in this drain. */
  lemma NextBatchExact(plan: Plan, due: (World, nat) -> bool, w: World, teams: seq<nat>, log: seq<Item>, n: nat, k: nat)
    requires Listed(plan, w, teams) && k < |teams|
    ensures FirstIntent(w, teams[k]) in NextBatch(plan, due, w, teams, log, n) <==>
            IsDue(plan, due, w, teams[k]) && DueBefore(plan, due, w, teams, k) < n && FirstIntent(w, teams[k]) !in log
  {
    var all, item := Outstanding(plan, due, w, teams), FirstIntent(w, teams[k]);
    var first := FirstOf(all, n);
    UntriedExact(first, log, item);
    OutstandingExact(plan, due, w, teams);
    if IsDue(plan, due, w, teams[k]) {
      var at := DueBefore(plan, due, w, teams, k);
      assert at < n ==> first[at] == item;
      if item in first {
        var i :| 0 <= i < |first| && first[i] == item;
        assert all[i].team == all[at].team;
      }
    } else if item in all {
      OutstandingDue(plan, due, w, teams, item);
    }
  }

  lemma {:induction false} OutstandingDue(plan: Plan, due: (World, nat) -> bool, w: World, teams: seq<nat>, item: Item)
    requires Listed(plan, w, teams) && item in Outstanding(plan, due, w, teams)
    ensures IsDue(plan, due, w, item.team)
    decreases |teams|
  {
    var n := |teams| - 1;
    if item in Outstanding(plan, due, w, teams[..n]) {
      OutstandingDue(plan, due, w, teams[..n], item);
    }
  }

  /** When a drain ends with attempts to spare, every due intent it could still have asked for has been tried. */
  lemma NothingLeft(plan: Plan, due: (World, nat) -> bool, w: World, teams: seq<nat>, log: seq<Item>, n: nat)
    requires Listed(plan, w, teams) && NextBatch(plan, due, w, teams, log, n) == []
    ensures forall k: nat :: k < |teams| && IsDue(plan, due, w, teams[k]) && DueBefore(plan, due, w, teams, k) < n ==>
              FirstIntent(w, teams[k]) in log
  {
    forall k: nat | k < |teams| && IsDue(plan, due, w, teams[k]) && DueBefore(plan, due, w, teams, k) < n
      ensures FirstIntent(w, teams[k]) in log
    {
      NextBatchExact(plan, due, w, teams, log, n, k);
    }
  }

  // ---------- In which order ----------

  /** Whatever r holds, it holds in the order of items. */
  ghost predicate KeepsOrder(items: seq<Item>, r: seq<Item>) {
    forall a, b, i, j :: 0 <= a < b < |r| && 0 <= i < |items| && 0 <= j < |items| && items[i] == r[a] && items[j] == r[b] ==> i < j
  }

  lemma {:induction false} UntriedOrder(items: seq<Item>, log: seq<Item>)
    requires Distinct(items)
    ensures KeepsOrder(items, Untried(items, log))
  {
    if items != [] {
      var n := |items| - 1;
      UntriedOrder(items[..n], log);
      OrderNext(items, Untried(items[..n], log), n);
    }
  }

  lemma OrderNext(items: seq<Item>, rest: seq<Item>, n: nat)
    requires |items| == n + 1 && Distinct(items) && KeepsOrder(items[..n], rest)
    requires forall a :: 0 <= a < |rest| ==> rest[a] in items[..n]
    ensures KeepsOrder(items, rest) && KeepsOrder(items, rest + [items[n]])
  {
    var r := rest + [items[n]];
    forall a, b, i, j | 0 <= a < b < |r| && 0 <= i < |items| && 0 <= j < |items| && items[i] == r[a] && items[j] == r[b]
      ensures i < j
    {
      var at :| 0 <= at < |items[..n]| && items[..n][at] == rest[a];
      assert items[at] == items[i];
      if b < |rest| {
        var bt :| 0 <= bt < |items[..n]| && items[..n][bt] == rest[b];
        assert items[bt] == items[j];
      }
    }
    assert forall a :: 0 <= a < |rest| ==> r[a] == rest[a];
  }

  /** It takes them on in the teams' order. */
  lemma NextBatchOrder(plan: Plan, due: (World, nat) -> bool, w: World, teams: seq<nat>, log: seq<Item>, n: nat, k: nat, l: nat, a: nat, b: nat)
    requires Listed(plan, w, teams) && k < |teams| && l < |teams| && a < b < |NextBatch(plan, due, w, teams, log, n)|
    requires NextBatch(plan, due, w, teams, log, n)[a] == FirstIntent(w, teams[k])
    requires NextBatch(plan, due, w, teams, log, n)[b] == FirstIntent(w, teams[l])
    ensures k < l
  {
    var all := Outstanding(plan, due, w, teams);
    var first := FirstOf(all, n);
    UntriedOrder(first, log);
    OutstandingExact(plan, due, w, teams);
    NextBatchExact(plan, due, w, teams, log, n, k);
    NextBatchExact(plan, due, w, teams, log, n, l);
    var i, j := DueBefore(plan, due, w, teams, k), DueBefore(plan, due, w, teams, l);
    assert first[i] == FirstIntent(w, teams[k]) && first[j] == FirstIntent(w, teams[l]);
    if l <= k {
      DueBeforeRises(plan, due, w, teams, l, k);
    }
  }
}
