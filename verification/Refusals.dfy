/** Which commands the store refuses, from the claims and rows themselves. */
module Refusals {
  import opened Team
  import opened Commands

  /** Two claims on one counter, two decisions about one entity, a claim on nothing, a decision without its
      own claim or the other way round, or a claimed ordinal the command does not write. */
  ghost predicate Malformed(cmd: Command) {
    var claims, naturals := cmd.claims, cmd.naturals;
    || (exists a, b :: 0 <= a < b < |claims| && claims[a].counter == claims[b].counter)
    || (exists a, b :: 0 <= a < b < |naturals| && naturals[a].decision == naturals[b].decision && naturals[a].entity == naturals[b].entity)
    || (exists c :: 0 <= c < |claims| && claims[c].count == 0)
    || (exists n :: 0 <= n < |naturals| && Unclaimed(claims, naturals[n]))
    || (exists c :: 0 <= c < |claims| && claims[c].counter.Occurrence? && Undecided(claims[c], naturals))
    || (exists c, k: nat :: 0 <= c < |claims| && claims[c].expected <= k < claims[c].expected + claims[c].count
                            && Missing(cmd.writes, claims[c].counter, k))
  }

  /** The claim takes exactly the decision's own number. */
  ghost predicate Numbers(claim: Claim, natural: Natural) {
    && claim.counter == Occurrence(natural.decision, natural.entity)
    && claim.expected == natural.occurrence && claim.count == 1
  }

  ghost predicate Unclaimed(claims: seq<Claim>, natural: Natural) {
    forall c :: 0 <= c < |claims| ==> !Numbers(claims[c], natural)
  }

  ghost predicate Undecided(claim: Claim, naturals: seq<Natural>) {
    forall n :: 0 <= n < |naturals| ==> !Numbers(claim, naturals[n])
  }

  ghost predicate Missing(w: WriteSet, counter: Counter, k: nat) {
    match counter
    case SprintOrdinal => k !in w.sprints || w.sprints[k].ordinal != k
    case VisitOrdinal(i) => (i, k) !in w.visits || w.visits[(i, k)].item != i || w.visits[(i, k)].ordinal != k
    case Occurrence(_, _) => false
  }

  ghost predicate Moved(counters: map<Counter, nat>, claim: Claim) {
    claim.counter !in counters || counters[claim.counter] != claim.expected
  }

  lemma UnclaimedIs(claims: seq<Claim>, natural: Natural)
    ensures Unclaimed(claims, natural) <==> !HasClaim(claims, natural)
  {
    assert forall claim :: Numbers(claim, natural) <==> Binds(claim, natural);
  }

  lemma UndecidedIs(claim: Claim, naturals: seq<Natural>)
    ensures Undecided(claim, naturals) <==> !HasDecision(claim, naturals)
  {
    assert forall natural :: Numbers(claim, natural) <==> Binds(claim, natural);
  }

  lemma UnboundIs(claims: seq<Claim>, naturals: seq<Natural>)
    ensures !NaturalsBound(claims, naturals) <==>
            || (exists n :: 0 <= n < |naturals| && Unclaimed(claims, naturals[n]))
            || (exists c :: 0 <= c < |claims| && claims[c].counter.Occurrence? && Undecided(claims[c], naturals))
  {
    forall n | 0 <= n < |naturals| ensures Unclaimed(claims, naturals[n]) <==> !HasClaim(claims, naturals[n]) {
      UnclaimedIs(claims, naturals[n]);
    }
    forall c | 0 <= c < |claims| ensures Undecided(claims[c], naturals) <==> !HasDecision(claims[c], naturals) {
      UndecidedIs(claims[c], naturals);
    }
  }

  lemma UnwrittenIs(w: WriteSet, claims: seq<Claim>)
    ensures !RangesWritten(w, claims) <==>
            exists c, k: nat :: 0 <= c < |claims| && claims[c].expected <= k < claims[c].expected + claims[c].count && Missing(w, claims[c].counter, k)
  {
    assert forall counter, k: nat :: Missing(w, counter, k) <==> !Written(w, counter, k);
  }

  lemma MalformedIs(cmd: Command)
    ensures Malformed(cmd) <==> !ValidClaims(cmd.writes, cmd.claims, cmd.naturals)
  {
    UnboundIs(cmd.claims, cmd.naturals);
    UnwrittenIs(cmd.writes, cmd.claims);
  }

  /** A commit is refused exactly for a version other than the stored one, a malformed claim or decision, or
      a claimed counter that is not where the claimant saw it; the first of these names the error. */
  lemma RefusedExactly(s: State, cmd: Command)
    ensures Commit(s, cmd).Err? <==>
            cmd.version != s.version || Malformed(cmd) || exists c :: 0 <= c < |cmd.claims| && Moved(s.counters, cmd.claims[c])
    ensures cmd.version != s.version <==> Commit(s, cmd) == Err(Stale)
    ensures cmd.version == s.version && Malformed(cmd) <==> Commit(s, cmd) == Err(Refused)
  {
    MalformedIs(cmd);
    assert CountersSeen(s.counters, cmd.claims) <==> !exists c :: 0 <= c < |cmd.claims| && Moved(s.counters, cmd.claims[c]);
  }
}
