/** Commands: the claim validator, and the commit that applies after-images and advances counters. */
module Commands {
  import opened Allocation
  import opened Team

  datatype Result<T> = Ok(value: T) | Err(error: Error)

  datatype Error = Stale | Refused | CounterMoved

  /** A claim on count ordinals of one counter, starting where the claimant saw it. */
  datatype Claim = Claim(counter: Counter, expected: nat, count: nat)

  /** A decision about one entity on one date, numbered by its own counter. */
  datatype Natural = Natural(decision: Decision, entity: nat, occurrence: nat, day: int)

  /** After-images of the rows a command writes; overlays are only ever added. */
  datatype WriteSet = WriteSet(
    items: map<nat, Item>, visits: map<(nat, nat), Visit>, sprints: map<nat, Sprint>,
    scope: map<(nat, nat), ScopeEntry>, book: Book, overlays: seq<Overlay>)

  datatype Command = Command(version: nat, cursor: int, writes: WriteSet, claims: seq<Claim>, naturals: seq<Natural>)

  // ---------- The claim validator ----------

  predicate UniqueCounters(claims: seq<Claim>) {
    forall a, b :: 0 <= a < b < |claims| ==> claims[a].counter != claims[b].counter
  }

  predicate UniqueNaturals(naturals: seq<Natural>) {
    forall a, b :: 0 <= a < b < |naturals| ==>
      (naturals[a].decision, naturals[a].entity) != (naturals[b].decision, naturals[b].entity)
  }

  predicate Binds(claim: Claim, natural: Natural) {
    claim == Claim(Occurrence(natural.decision, natural.entity), natural.occurrence, 1)
  }

  predicate HasClaim(claims: seq<Claim>, natural: Natural) {
    exists c :: 0 <= c < |claims| && Binds(claims[c], natural)
  }

  predicate HasDecision(claim: Claim, naturals: seq<Natural>) {
    exists n :: 0 <= n < |naturals| && Binds(claim, naturals[n])
  }

  predicate NaturalsBound(claims: seq<Claim>, naturals: seq<Natural>) {
    && (forall n :: 0 <= n < |naturals| ==> HasClaim(claims, naturals[n]))
    && (forall c :: 0 <= c < |claims| && claims[c].counter.Occurrence? ==> HasDecision(claims[c], naturals))
  }

  /** Whether ordinal k of this counter is written by the command. */
  predicate Written(w: WriteSet, counter: Counter, k: nat) {
    match counter
    case SprintOrdinal => k in w.sprints && w.sprints[k].ordinal == k
    case VisitOrdinal(i) => (i, k) in w.visits && w.visits[(i, k)].item == i && w.visits[(i, k)].ordinal == k
    case Occurrence(_, _) => true
  }

  predicate RangesWritten(w: WriteSet, claims: seq<Claim>) {
    forall c, k: nat :: 0 <= c < |claims| && claims[c].expected <= k < claims[c].expected + claims[c].count ==>
      Written(w, claims[c].counter, k)
  }

  /** Unique scopes, decisions bound to their claims one to one, every claimed ordinal allocated. */
  predicate ValidClaims(w: WriteSet, claims: seq<Claim>, naturals: seq<Natural>) {
    && (forall c :: 0 <= c < |claims| ==> claims[c].count > 0)
    && UniqueCounters(claims) && UniqueNaturals(naturals) && NaturalsBound(claims, naturals)
    && RangesWritten(w, claims)
  }

  // ---------- Commit ----------

  predicate CountersSeen(counters: map<Counter, nat>, claims: seq<Claim>) {
    forall c :: 0 <= c < |claims| ==> claims[c].counter in counters && counters[claims[c].counter] == claims[c].expected
  }

  /** Each claimed counter moves past its claimed range. */
  function AdvanceCounters(counters: map<Counter, nat>, claims: seq<Claim>): map<Counter, nat> {
    if claims == [] then counters
    else
      var last := claims[|claims| - 1];
      AdvanceCounters(counters, claims[..|claims| - 1])[last.counter := last.expected + last.count]
  }

  function Overwrite(items: seq<Item>, writes: map<nat, Item>): (r: seq<Item>)
    ensures |r| == |items|
  {
    seq(|items|, i requires 0 <= i < |items| => if i in writes then writes[i] else items[i])
  }

  /** Optimistic commit: refuse a stale version, bad claims or moved counters; otherwise apply the
      after-images, advance the claimed counters and count the version up. */
  function Commit(s: State, cmd: Command): Result<State> {
    if cmd.version != s.version then Err(Stale)
    else if !ValidClaims(cmd.writes, cmd.claims, cmd.naturals) then Err(Refused)
    else if !CountersSeen(s.counters, cmd.claims) then Err(CounterMoved)
    else
      var w := cmd.writes;
      Ok(State(cmd.cursor, s.version + 1, Overwrite(s.items, w.items), s.visits + w.visits,
               s.sprints + w.sprints, s.scope + w.scope, s.book + w.book, s.overlays + w.overlays,
               AdvanceCounters(s.counters, cmd.claims)))
  }

  // ---------- Commands from computed states ----------

  /** The rows of `after` that `before` does not hold in the same form. */
  function Changed<K(!new), V(==)>(before: map<K, V>, after: map<K, V>): (r: map<K, V>)
    ensures forall k :: k in r <==> k in after && (k !in before || before[k] != after[k])
    ensures forall k :: k in r ==> r[k] == after[k]
  {
    map k | k in after && (k !in before || before[k] != after[k]) :: after[k]
  }

  function ChangedItems(before: seq<Item>, after: seq<Item>): map<nat, Item>
    requires |before| == |after|
  {
    map i: nat | i < |after| && before[i] != after[i] :: after[i]
  }

  /** What a step computes: the state it wants, and the ordinals and decisions it claims. */
  datatype Outcome = Outcome(after: State, claims: seq<Claim>, naturals: seq<Natural>)

  /** Nothing is dropped, and overlays are only appended. */
  ghost predicate Grows(s: State, t: State) {
    && |t.items| == |s.items|
    && s.visits.Keys <= t.visits.Keys && s.sprints.Keys <= t.sprints.Keys
    && s.scope.Keys <= t.scope.Keys && s.book.Keys <= t.book.Keys
    && s.overlays <= t.overlays
  }

  function CommandFor(s: State, o: Outcome): Command
    requires Grows(s, o.after)
  {
    var t := o.after;
    Command(s.version, t.cursor,
            WriteSet(ChangedItems(s.items, t.items), Changed(s.visits, t.visits), Changed(s.sprints, t.sprints),
                     Changed(s.scope, t.scope), Changed(s.book, t.book), t.overlays[|s.overlays|..]),
            o.claims, o.naturals)
  }

  lemma ChangedRestores<K(!new), V>(before: map<K, V>, after: map<K, V>)
    requires before.Keys <= after.Keys
    ensures before + Changed(before, after) == after
  {
    var both := before + Changed(before, after);
    forall k | k in after ensures k in both && both[k] == after[k] {
    }
    forall k | k in both ensures k in after {
    }
  }

  lemma OverwriteRestores(before: seq<Item>, after: seq<Item>)
    requires |before| == |after|
    ensures Overwrite(before, ChangedItems(before, after)) == after
  {
  }

  /** The state a step leaves once its command is committed. */
  function Committed(s: State, o: Outcome): State {
    o.after.(version := s.version + 1, counters := AdvanceCounters(s.counters, o.claims))
  }

  /** The step's command is well formed, passes the claim validator and claims current ordinals. */
  ghost predicate Accepted(s: State, o: Outcome) {
    && Grows(s, o.after)
    && ValidClaims(CommandFor(s, o).writes, o.claims, o.naturals) && CountersSeen(s.counters, o.claims)
  }

  /** A command whose claims are valid and current is accepted and leads to exactly the state that was
      computed, with the claimed counters advanced and the version counted up once. */
  lemma CommitReaches(s: State, o: Outcome)
    requires Accepted(s, o)
    ensures Commit(s, CommandFor(s, o)) == Ok(Committed(s, o))
  {
    ChangedRestores(s.visits, o.after.visits);
    ChangedRestores(s.sprints, o.after.sprints);
    ChangedRestores(s.scope, o.after.scope);
    ChangedRestores(s.book, o.after.book);
    OverwriteRestores(s.items, o.after.items);
    assert s.overlays + o.after.overlays[|s.overlays|..] == o.after.overlays;
  }

  /** Counters end where the last claim on them says, and unclaimed counters stay. */
  lemma {:induction false} CounterAfter(counters: map<Counter, nat>, claims: seq<Claim>, counter: Counter)
    requires UniqueCounters(claims)
    ensures forall c :: 0 <= c < |claims| && claims[c].counter == counter ==>
              counter in AdvanceCounters(counters, claims) && AdvanceCounters(counters, claims)[counter] == claims[c].expected + claims[c].count
    ensures (forall c :: 0 <= c < |claims| ==> claims[c].counter != counter) ==>
              (counter in AdvanceCounters(counters, claims) <==> counter in counters)
              && (counter in counters ==> AdvanceCounters(counters, claims)[counter] == counters[counter])
  {
    if claims != [] {
      var rest := claims[..|claims| - 1];
      CounterAfter(counters, rest, counter);
      forall c | 0 <= c < |claims| && claims[c].counter == counter
        ensures counter in AdvanceCounters(counters, claims) && AdvanceCounters(counters, claims)[counter] == claims[c].expected + claims[c].count
      {
        if c < |rest| {
          assert rest[c] == claims[c];
        }
      }
    }
  }

  lemma {:induction false} CounterKeys(counters: map<Counter, nat>, claims: seq<Claim>)
    requires CountersSeen(counters, claims)
    ensures AdvanceCounters(counters, claims).Keys == counters.Keys
  {
    if claims != [] {
      CounterKeys(counters, claims[..|claims| - 1]);
    }
  }
}
