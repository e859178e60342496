# The live Scrum simulator core, verified

This project models the second-generation live Scrum simulator as a persisted state machine and proves
properties of it. A team has work items in simulator-rank order, status visits with their labor, queue and
pause clocks, sprints on a fixed cadence, labor consumed per member and business date, availability
overlays, and semantic counters. A *tick* either crosses a sprint boundary that is due at the cursor, or
evaluates the risk rules due, cuts the time ahead into business segments, gives visits owners and labor in
rank order, stops at the first completion, and opens the next visits. Every step is a command with
after-images and counter claims that an optimistic commit accepts or refuses. The scheduler repeats ticks
until a team has caught up, and after downtime crosses the boundaries that fell due, one commit each, so
that a restart can also be broken off between them. Separately, a worker delivers committed Jira intents at
least once.

`dafny verify dfyconfig.toml` checks everything.

How it is laid out, from the bottom up:

- time: `Calendar`, `Days`, `Segments`, `Cutting`, `Workdays`;
- allocation inside a segment: `Rounding`, `Allocation`, `AllocationLaws`, `Ownership`, `Granularity`, `Fractions`;
- where a tick stops: `Completion`, `FirstCompletion`, `CommittedEnd`, `CommittedTick`, `Nights`;
- state and commits: `Team`, `Availability`, `Commands`, `Refusals`, `Routes`, `RunInvariant`;
- sprints: `Scope`, `Lifecycle`, `LifecycleLaws`, `SprintRun`, `Bootstrap`, `Openings`;
- risks: `Risks`, `RiskLaws`, `Waits`, `RiskEffects`;
- ticks and runs: `Tick`, `Finish`, `TickLaws`, `TickTotals`, `TickRun`, `Steps`, `Accounts`, `Decisions`,
  `WaitRuns`, `Histories`, `Pace`;
- the scheduler: `Progress`, `Scheduler`, `Restart`, `Idle`, `Closed`, `Loops`, `Entries`, `DuePages`;
- Jira: `JiraSite`, `Outbox`, `Delivery`, `JiraEffects`, `Queue`;
- inputs on which the code fails: `Counterexamples`, `Overnight`, `Interrupted`.

Code that loops and updates variables is a method with loop invariants, proved equal to a function that
states what it computes (`Allocation.AdvanceSegment`, `FirstCompletion.AdvanceVisits`,
`Tick.RiskAwareAdvance`, `Scheduler.FinishAll`, the calendar scans). Persisted state that is replaced in
place is a class (`Scheduler.TeamStore`, `DuePages.Runtimes`, `JiraSite.Provider`, `Delivery.DeliveryStore`).

Conventions. Instants and durations are integers counting microseconds. Items are numbered by simulator rank,
members by blueprint index, statuses, activities and issue types by number; a visit is named by its item and
ordinal, as its identifier is derived from them. Estimates are 1, 2, 3, 5, 8 or 13 points. The time zone is a
function from instants to local days with a working interval per day: days are ordered, each interval lies
inside its day, and a local clock names one instant a day, which shows that day and clock, a later one on a
later day (`BusinessCalendar.Valid`, `ValidClock`); a clock that does not exist or is ambiguous on some day,
which `_resolve_local` refuses, is not modelled. Availability fractions are reals and rounding is half to
even. Sampled durations and risk outcomes are arbitrary functions (`Routes.Draws`), outcomes of the whole
state as well, since probabilities depend on it. The last step of every route is untimed, because
`_transition` has no later step to use otherwise, and every activity a route requires has a member with it,
which blueprint validation enforces. Long-stay rules change no state and are not among the model's rules, so
the empty rule list, which blueprint validation would refuse, stands for a team with long-stay rules only. A
state is *sound* if its invariant holds at its own cursor, and *standing* if it holds up to some instant
between the cursor and the next sprint boundary, as in the middle of a restart. A business clock asked to run
backwards is an error, which fails the tick (`FirstCompletion.Reading`).

## Findings

Six properties one might expect do not hold of the code. Each is given with the condition under which it
does and with an input on which it does not; where that input is a state, it is one a team can get into.

- **Catching up need not end.** Blueprint validation allows a route to repeat a status. `_transition` looks
  a closed visit's step up by the *first* step with its status, so an item on such a route goes round for
  ever; when its visits take no time, every tick is committed and none moves the cursor.
  `Loops.CatchUpEndsIff`: the loop ends for all draws from every reachable state, the ones a broken-off
  restart leaves included, exactly when no timed step repeats an earlier status, or the maximum capacity is
  zero, in which case nothing is ever started (`Idle.NothingStarts`), or the team never works after its first
  boundary. It then ends caught up, or, from the middle of a restart only, with a tick that fails.
  `Counterexamples.ReworkNeverCatchesUp` is a team whose loop does not end.
- **The completion boundary can come too early.** The dwell prediction adds the missing service time to the
  segment start, which is wrong while a pause exceeds the business time elapsed since entry, as a wait over
  the night leaves it. `Completion.DwellPredictionIff` gives the condition; in `Overnight.EndsTooEarly` a
  team has waited over its first night, and the tick after it stops where nothing is complete, three
  microseconds before the first completion.
- **Polling granularity matters for part-time members.** Segment availability is rounded, so cutting a
  segment in two changes the labor. `Fractions.LaborSplitsIff`: it never does exactly when the fraction is
  0 or 1.
- **A visit complete outside working hours is closed when asked.** A tick that starts with a complete visit
  ends at the first working instant, or at its effective end if that comes first (`Nights.CompleteWaits`);
  so it ends at the cursor exactly if the team works there, and otherwise where the poll happened to ask.
  `Overnight.ClosesWhenAsked` is such a visit.
- **Between the commits of a restart, ticks work on visits not yet entered.** A restart commits each
  crossing by itself and leaves the cursor behind; if it fails, polling goes on from there. Allocation does
  not look at entry (`Entries.EntryIgnored`), so visits opened by the restart earn labor before their entry
  (`Interrupted.WorksBeforeEntry`); as soon as a clock of theirs must be read before entry the tick fails,
  exactly when `Steps.StepReadable` is false (`Scheduler.TickTeam`), which can go on until a restart
  completes (`Interrupted.FailsUntilResumed`). Neither happens where no open visit was entered after the
  cursor: then no tick fails (`Steps.NotEarlyReadable`), and as long as every tick starts in such a state,
  no visit is credited with more labor than business time since its entry (`Pace.HistoryPace`). All sound
  states are such (`Steps.SoundReadable`, `Pace.SoundHistoryPace`), and even from the others no tick breaks
  the invariant (`Steps.StepStands`).
- **One sprint per identity depends on the board.** The sprint lookup reads one board. No sprint is
  created twice if every creation of it names one board, as the code's intents do
  (`Delivery.OneSprintEach`); a plan that names two creates two (`Delivery.TwoBoardsTwoSprints`).

## Model

| member | source | states |
|---|---|---|
| BusinessCalendar.NextWorkingInstant | backend/app/v2/domain/business_calendar.py:247-257 | the result is the least working instant at or after the given one; it is refused exactly when none exists inside the horizon |
| BusinessCalendar.Elapsed | backend/app/v2/domain/business_calendar.py:259-275 | business time is the number of working microseconds, never more than calendar time; refused exactly when the interval reaches past the horizon |
| BusinessCalendar.Add | backend/app/v2/domain/business_calendar.py:277-292 | the result is the least instant by which exactly that much business time has passed; refused exactly when the horizon holds too little |
| BusinessCalendar.AdditionUnique | backend/app/v2/domain/business_calendar.py:277-292 | at most one instant is the sum, so addition inverts elapsed |
| BusinessCalendar.AdditionComposes | backend/app/v2/domain/business_calendar.py:277-292 | adding d1 then d2 is adding d1 + d2 |
| BusinessCalendar.ElapsedThenAdd | backend/app/v2/domain/business_calendar.py:259-292 | adding what elapsed up to the end of a working microsecond returns to that instant |
| BusinessCalendar.CountAdds | backend/app/v2/domain/business_calendar.py:259-275 | elapsed business time is additive over adjacent intervals |
| BusinessCalendar.CadenceIncreases | backend/app/v2/domain/business_calendar.py:302-316 | a later sprint boundary is a later instant |
| BusinessCalendar.CadenceDay | backend/app/v2/domain/business_calendar.py:302-316 | boundary k lies cadence days times k local days after the anchor's date, at the anchor's local clock |
| Segments.BusinessSegments | backend/app/v2/domain/scrum_tick.py:281-305 | the day-by-day loop computes exactly the segments that the laws below describe |
| Segments.SegmentsPartition | backend/app/v2/domain/scrum_tick.py:281-305 | before every instant the segments hold exactly the business time elapsed |
| Segments.SegmentsGood | backend/app/v2/domain/scrum_tick.py:281-322 | segments are ordered, disjoint, non-empty, inside one day's working time, with no availability change strictly inside |
| Availability.SteadyInForce | backend/app/v2/domain/scrum_tick.py:308-322 | a configured window or overlay in force anywhere inside a segment is in force all through it |
| Segments.SteadyInside | backend/app/v2/domain/scrum_tick.py:308-322 | so the fraction and the ceiling that a seat is computed from (Availability.SeatFraction, SeatCeiling) are constant inside a segment |
| Availability.SeatFraction | backend/app/v2/domain/scrum_tick.py:644-666 | a member's fraction is at most that of every configured window and every overlay of theirs in force at the segment start, and is 1 or one of these; stated over the windows and overlays themselves |
| Availability.SeatCeiling | backend/app/v2/domain/scrum_tick.py:623-641 | the day's ceiling is the fraction's share of the least of the configured capacity and the ceilings in force; the labor available is the fraction's share of the segment |
| Availability.AbsentConsumesNothing | backend/app/v2/domain/scrum_tick.py:644-666 | a member whom an overlay, one already there or one the rules have just added, makes absent over a whole tick consumes nothing in it |
| Rounding.ShareNearest | backend/app/v2/domain/scrum_tick.py:623-627 | a share is the nearest whole number, the even one of two as near |
| Cutting.SegmentsUpto | backend/app/v2/domain/scrum_tick.py:281-322 | the segments of a shorter stretch are those of the longer one cut at its end |
| Allocation.AssignOwners | backend/app/v2/domain/scrum_tick.py:464-486 | the two owner loops compute retention, then fill in rank order |
| Allocation.Best | backend/app/v2/domain/scrum_tick.py:502-534 | the owner chosen is a candidate of greatest proficiency, the earliest on a tie; none exactly when nobody qualifies |
| Allocation.AdvanceSegment | backend/app/v2/domain/scrum_tick.py:440-461 | the allocation loop computes the function all segment laws are about |
| Allocation.AssignExplains | backend/app/v2/domain/scrum_tick.py:534-587 | every visit left unowned carries a denial, so queued labor always has a limiting constraint |
| Ownership.AssignExact | backend/app/v2/domain/scrum_tick.py:464-544 | the owner of every visit: kept by one who knows the activity and is available, with fewer than the limit ranked above; otherwise the most proficient member with room for what they keep and were given before, the earlier listed of two as proficient; with nobody, the denial that says why |
| Ownership.CauseExact | backend/app/v2/domain/scrum_tick.py:547-620 | a queued visit carries its denial, or what limits its owner: the day's ceiling, labor for visits ranked ahead, or availability |
| Ownership.QueueExact | backend/app/v2/domain/scrum_tick.py:547-579 | a visit queues for exactly the part of the segment in which nobody works on it, unless its status stops the clock or its work is done by the end |
| AllocationLaws.WipRespected | backend/app/v2/domain/scrum_tick.py:464-534 | whatever ownership a segment starts with, after it no member owns more open visits than their limit |
| AllocationLaws.GreedyTotal | backend/app/v2/domain/scrum_tick.py:547-620 | a member's labor in a segment is the smaller of their budget and the demand on them |
| AllocationLaws.GreedyShare | backend/app/v2/domain/scrum_tick.py:547-579 | each visit's labor in closed form from the demand ranked ahead of it |
| AllocationLaws.RankPriority | backend/app/v2/domain/scrum_tick.py:440-461 | a visit earns labor only if every higher-ranked non-pausing visit of its owner has no work left |
| AllocationLaws.LaborConserved | backend/app/v2/domain/scrum_tick.py:547-579 | labor credited to visits equals labor consumed from members |
| AllocationLaws.CeilingRespected | backend/app/v2/domain/scrum_tick.py:609-641 | no member passes the day's ceiling |
| AllocationLaws.SegmentEffect | backend/app/v2/domain/scrum_tick.py:547-587 | what a segment may change in a visit; labor plus queueing fills the segment while work is left, and the recorded cause carries exactly the queued time |
| Granularity.SplitIndependent | backend/app/v2/domain/scrum_tick.py:440-534 | for members present or absent, one step over a segment equals two steps cut anywhere: same owners, labor, remaining work, pause and consumption |
| Fractions.LaborSplitsIff | backend/app/v2/domain/scrum_tick.py:623-627 | labor is independent of every cut exactly for fractions 0 and 1 |
| Rounding.ShareSplitsIff | backend/app/v2/domain/scrum_tick.py:623-627 | rounded availability adds up over every split exactly for fractions 0 and 1 |
| Completion.ScanIsLeast | backend/app/v2/domain/scrum_tick.py:381-405 | the boundary is the least predicted completion inside the segment |
| Completion.TouchLeast | backend/app/v2/domain/scrum_tick.py:408-425 | at any fraction, the touch of a visit the probe finishes is predicted at the least offset whose share of the owner's time holds what higher-ranked visits take and the visit's own work |
| Completion.DwellPredictionIff | backend/app/v2/domain/scrum_tick.py:428-437 | the dwell prediction is right at every offset exactly when the pause is covered by business time or there is no dwell |
| Completion.BoundaryExact | backend/app/v2/domain/scrum_tick.py:381-437 | n microseconds into a segment some visit is complete exactly when the boundary is at most n |
| FirstCompletion.CompletionBoundary | backend/app/v2/domain/scrum_tick.py:381-405 | the scan over visits, reading the calendar, computes the boundary |
| FirstCompletion.AdvanceVisits | backend/app/v2/domain/scrum_tick.py:325-361 | the loop of probes and one shortened run computes the walk |
| FirstCompletion.WalkMoves | backend/app/v2/domain/scrum_tick.py:325-361 | a walk only moves labor from remaining to elapsed and credited together, and never changes a blocked visit |
| CommittedEnd.FirstCompletionExact | backend/app/v2/domain/scrum_tick.py:325-437 | the walk stops at the least instant at which some visit is complete, in the state that simply advancing to that instant gives |
| CommittedTick.CommittedEndExact | backend/app/v2/domain/scrum_tick.py:185-201 | the committed end of a whole tick, after risks and iteration, is the first instant up to the effective end at which some visit is complete, else that end; the committed state is the reference state there |
| CommittedTick.NeverPausedPredictable | backend/app/v2/domain/scrum_tick.py:325-437 | the exactness applies with everyone present or absent and open visits never paused, not made to wait by the draws the rules make in this tick, and not complete at the cursor, whatever rules the team has |
| CommittedTick.ClosesExactly | backend/app/v2/domain/scrum_tick.py:680-729 | in the committed state exactly the open visits complete at the committed end are closed, at that instant |
| Nights.CompleteWaits | backend/app/v2/domain/scrum_tick.py:325-361 | a tick that starts with a complete visit ends at the first working instant, or at its effective end; at the cursor exactly if the team works there |
| Nights.CompleteCloses | backend/app/v2/domain/scrum_tick.py:680-729 | if the rules still leave the visit complete, it is complete, and so closed, at that end |
| Commands.CommitReaches | backend/app/v2/domain/authoritative_slice.py:330-447 | an accepted command leads to exactly the computed state, with claimed counters advanced and the version up by one |
| Commands.CounterAfter | backend/app/v2/domain/authoritative_slice.py:92-110 | a claimed counter ends past its range, an unclaimed one stays |
| Refusals.RefusedExactly | backend/app/v2/domain/authoritative_slice.py:330-447 | a commit is refused exactly for a stale version, a malformed claim or decision, or a claimed counter that has moved; the first of these is the error |
| RunInvariant.ActiveIffOpen | backend/app/v2/domain/scrum_state.py:1134-1146 | an item is active exactly if it has an open visit, its only one, standing in its status, with elapsed equal to credited; backlog items have none |
| RunInvariant.SprintsTile | backend/app/v2/domain/sprint_lifecycle.py:184-210 | exactly one sprint is not completed and each starts where its predecessor ends |
| RunInvariant.SprintDays | backend/app/v2/domain/sprint_lifecycle.py:184-210 | every sprint ends cadence days after its start's local date, sprint k starts cadence days times k after the anchor's, all at the anchor's local clock |
| RunInvariant.OneCurrentScope | backend/app/v2/domain/scrum_state.py:1134-1143 | each item is in at most one current scope |
| Scope.TargetBounds | backend/app/v2/domain/sprint_lifecycle.py:230-235 | every drawn capacity target lies between the configured minimum and maximum |
| Scope.TargetExact | backend/app/v2/domain/sprint_lifecycle.py:230-235 | the target is the one whose step of the range, cut into one equal step a point, the draw falls in |
| Scope.SelectScope | backend/app/v2/domain/scrum_bootstrap.py:226-245 | the bootstrap loop computes the selection below |
| Scope.RankedBacklog | backend/app/v2/domain/sprint_lifecycle.py:224-244 | the rollover loop computes the selection below |
| Scope.SelectFills | backend/app/v2/domain/scrum_bootstrap.py:226-245 | bootstrap takes the first items up to the one place where filling stops |
| Scope.BacklogFills | backend/app/v2/domain/sprint_lifecycle.py:224-244 | rollover takes a rank prefix of the backlog up to the one place where filling stops |
| Scope.FillUnique | backend/app/v2/domain/sprint_lifecycle.py:237-243 | there is only one such place: backlog exhausted, or minimum reached and the next item past the target |
| Scope.RolloverIsBootstrap | backend/app/v2/domain/sprint_lifecycle.py:224-244 | with nothing carried over, rollover selects exactly what bootstrap selects from the backlog |
| SprintRun.CrossingDue | backend/app/v2/domain/sprint_lifecycle.py:89-112 | a crossing happens exactly at the open sprint's boundary, and to that sprint |
| SprintRun.CrossingKeeps | backend/app/v2/domain/sprint_lifecycle.py:115-172 | activation and rollover give a command the validator accepts and keep the run invariant |
| SprintRun.CrossingOnce | backend/app/v2/domain/sprint_lifecycle.py:89-112 | crossing the same boundary a second time does nothing |
| SprintRun.CrossingMoves | backend/app/v2/domain/sprint_lifecycle.py:175-210 | after a crossing the open sprint runs and ends later than the boundary crossed |
| SprintRun.RolloverCarries | backend/app/v2/domain/sprint_lifecycle.py:143-172 | the successor's scope is exactly the unfinished items and the selected backlog; the old sprint's current entries are closed |
| SprintRun.RolloverFills | backend/app/v2/domain/sprint_lifecycle.py:213-244 | the selected backlog is a rank prefix filled on top of the carried points |
| SprintRun.RolloverWithinMax | backend/app/v2/domain/sprint_lifecycle.py:224-244 | carried and selected points stay within the configured maximum unless the last item was needed to reach the minimum |
| SprintRun.CrossingTouchesNothing | backend/app/v2/domain/sprint_lifecycle.py:247-263 | a crossing changes no visit that was there, no consumption and no overlay |
| Openings.ActivationTakes | backend/app/v2/domain/sprint_lifecycle.py:115-140 | activation starts the planned sprint, takes in exactly the first items of the board up to where filling stops at the target drawn, and enters them in its scope at the boundary |
| Openings.RolloverTakes | backend/app/v2/domain/sprint_lifecycle.py:143-172 | rollover takes in exactly the selected backlog, enters it and the unfinished items in the successor's scope at the boundary, and leaves every other item and its visits alone |
| Openings.ActivateTakes | backend/app/v2/domain/scrum_bootstrap.py:271-376 | an item taken in goes to its route's first step that takes time, where visit 0 opens with the drawn work and dwell, nothing done, for the first member who knows the activity; without such a step it is done in the last status |
| Bootstrap.ContainingOrdinal | backend/app/v2/domain/scrum_bootstrap.py:215-223 | the loop finds the sprint that contains the instant, or sprint 0 before the first boundary |
| Bootstrap.ContainsUnique | backend/app/v2/domain/scrum_bootstrap.py:215-223 | no other sprint contains it |
| Bootstrap.StartTeam | backend/app/v2/domain/scrum_bootstrap.py:54-113 | building the first state gives the state the invariant is proved of |
| Openings.BootstrapTakes | backend/app/v2/domain/scrum_bootstrap.py:54-113 | before the first boundary the sprint is planned and nothing taken in; from it on the sprint runs and exactly the first items up to where filling stops are taken in |
| Bootstrap.InitialInvariant | backend/app/v2/domain/scrum_bootstrap.py:54-113 | every run starts in a state that meets the run invariant |
| Workdays.ScanStarts | backend/app/v2/domain/risks.py:820-826 | the day scan computes the first workday start in range |
| Workdays.WorkdayBoundaryLeast | backend/app/v2/domain/risks.py:812-826 | the decision boundary is the least workday start in [cursor, as_of), and exists whenever there is one |
| Workdays.NextWorkdayLeast | backend/app/v2/domain/scrum_tick.py:259-278 | a tick is bounded by the least workday start strictly after the cursor |
| Risks.EvaluateDueRisks | backend/app/v2/domain/risks.py:140-165 | the loop over rules, each seeing what earlier ones wrote, computes the evaluation |
| Risks.HandleRule | backend/app/v2/domain/risks.py:273-284 | scanning for the trigger and looping over items or members computes what one rule does |
| RiskLaws.EvaluateKeeps | backend/app/v2/domain/risks.py:287-359 | rules only cancel active items, make visits wait and add full absences, and keep every item well formed |
| RiskLaws.EvaluatePaired | backend/app/v2/domain/risks.py:653-668 | risk claims and decisions pair up one to one on distinct current counters |
| RiskEffects.CancelEffect | backend/app/v2/domain/risks.py:287-359 | an item is cancelled, in the rule's target status, exactly if it was active and a cancellation rule due at a workday start draws so in the state it sees; otherwise the item is unchanged |
| RiskEffects.CancelledVisitCloses | backend/app/v2/domain/risks.py:342-359 | the open visit of a cancelled item is closed at the workday start where the decision fell due, with no owner and no work left; every other open visit stays open and at most waits, and closed visits are unchanged |
| RiskEffects.DependencyEffect | backend/app/v2/domain/risks.py:362-485 | a visit left open waits, and loses its owner, exactly as the dependency rule configures and its draw in the state it sees says; without such a rule it does not wait |
| RiskEffects.AbsenceEffect | backend/app/v2/domain/risks.py:488-553 | exactly one absence, from the workday start where it fell due and for as many whole days as drawn, without availability or capacity, for each member who owns an open visit then and is drawn absent; nothing else is added |
| RiskEffects.DecisionEffect | backend/app/v2/domain/risks.py:488-553 | decisions are made only when a workday start is due, are dated on its UTC day, and about absence concern exactly the members who own an open visit |
| Waits.EvaluateWaits | backend/app/v2/domain/risks.py:373-485 | whatever the other rules do, a visit left open waits exactly as the dependency rule says |
| Tick.EffectiveEndBounds | backend/app/v2/domain/scrum_tick.py:241-278 | the effective end lies between cursor and request, at or before the sprint boundary, and not past a workday start that has work to decide about |
| Steps.EffectiveEndExact | backend/app/v2/domain/scrum_tick.py:241-278 | a tick is cut at the boundary of the sprint not completed and at the first later workday start that rules with active work wait for, and nowhere else |
| Tick.RiskAwareAdvance | backend/app/v2/domain/scrum_tick.py:185-201 | the iteration terminates between cursor and request, and the risks it returns were evaluated at exactly the end it returns |
| Tick.StableSettles | backend/app/v2/domain/scrum_tick.py:185-190 | the iteration ends with an attempt that ends where it was asked to |
| Scheduler.FinishAll | backend/app/v2/domain/scrum_tick.py:680-715 | the loop over visits computes the closing of complete visits and the opening of their successors |
| Openings.TickMovesOn | backend/app/v2/domain/scrum_tick.py:680-826 | the item of every visit complete at the end goes on to its next step that takes time, where a visit opens then with the drawn work and dwell and no owner, or is done; every other item stays |
| Openings.TickClosesServed | backend/app/v2/domain/scrum_tick.py:680-729 | a tick closes the open visit of an item exactly if at its end the work is done and the business time since entry beyond the pause covers the dwell, and closes it then |
| TickRun.TickAccepted | backend/app/v2/domain/authoritative_slice.py:330-447 | every advancing tick's command passes the claim validator |
| TickRun.TickKeeps | backend/app/v2/domain/scrum_tick.py:145-182 | an advancing tick keeps the run invariant, from states with visits entered after the cursor as well, if it closes none before its entry |
| Steps.TickStepSound | backend/app/v2/domain/scrum_tick.py:145-182 | every tick from a sound state is accepted, leads to a sound state, and moves the cursor neither back nor past the request or the sprint boundary |
| Steps.StepStands | backend/app/v2/domain/scrum_tick.py:145-182 | every tick from a standing state that does not fail is accepted and leads to a standing state, within the same bounds |
| Steps.SoundReadable | backend/app/v2/domain/scrum_tick.py:408-437 | no tick from a sound state fails |
| Steps.NotEarlyReadable | backend/app/v2/domain/scrum_tick.py:428-437 | a tick fails only if some open visit was entered after the cursor |
| Accounts.StepConservesLabor | backend/app/v2/domain/scrum_tick.py:343-361 | over a whole tick, from the middle of a restart as well, the rise of all credited labor equals the rise of all consumption |
| Accounts.TickWip | backend/app/v2/domain/scrum_tick.py:464-534 | once business time has passed in a tick, no member owns more open visits than their limit |
| Accounts.TickTime | backend/app/v2/domain/scrum_tick.py:547-579 | a visit that works, did not wait and has work left spent the tick's business time on labor and queueing |
| Accounts.TickCauses | backend/app/v2/domain/scrum_tick.py:368-378 | the recorded queue causes add up to the rise of the queue clock |
| TickTotals.WalkCapacity | backend/app/v2/domain/scrum_tick.py:609-641 | a tick never takes a member's day past the configured capacity |
| Decisions.EvaluateDecides | backend/app/v2/domain/risks.py:273-284 | one evaluation decides about an item exactly once if a workday start is due and the item is active, else not at all |
| Decisions.DecidedOnce | backend/app/v2/domain/scrum_tick.py:259-278 | over any run of ticks, from the middle of a restart as well, each workday start left behind brings exactly one decision per item active there, never two, zero-length ticks included |
| Decisions.DecidesOnlyAtStarts | backend/app/v2/domain/risks.py:812-826 | a tick that decides starts at a workday start and leaves it behind |
| WaitRuns.WaitsExact | backend/app/v2/domain/risks.py:373-485 | over any run of ticks an open visit in a working status has pause 0 or exactly the smaller of the configured wait and the time since entry |
| WaitRuns.DrawnOnce | backend/app/v2/domain/risks.py:396-438 | a visit's dependency outcome is drawn in at most one tick |
| WaitRuns.NoLaborWhileWaiting | backend/app/v2/domain/scrum_tick.py:1100-1106 | a visit earns no labor in any tick in which it waits, the first included |
| Histories.HistoryInOrder | backend/app/v2/domain/scrum_state.py:1127-1240 | in every state reachable by ticks, restarts and restarts broken off anywhere: active iff one open visit, standing in the item's status with its labor credited, dense ordinals, one current scope, one open sprint, tiling, cursor within the sprint, no visit closed before its entry, capacity kept |
| Histories.HistorySound | backend/app/v2/application/live_scheduler.py:131-170 | as long as no restart is broken off, every state is sound |
| Histories.HistoryWaits | backend/app/v2/domain/risks.py:373-485 | from the first state on, as long as there is no restart, waits are exact |
| Pace.HistoryPace | backend/app/v2/domain/scrum_tick.py:547-579 | no visit is credited with more labor than business time has passed since its entry, as long as no tick starts with an open visit entered after the cursor |
| Pace.SoundHistoryPace | backend/app/v2/domain/scrum_tick.py:547-579 | the same in every state reached without a broken-off restart |
| Routes.RouteEndsIff | backend/app/v2/domain/scrum_tick.py:744-757 | an item on a route is done after finitely many completions exactly when no timed step repeats an earlier status |
| Progress.StuckTickProgresses | backend/app/v2/application/live_scheduler.py:121-129 | a tick that neither crosses a boundary nor moves the cursor leaves strictly fewer timed steps to finish, in the middle of a restart as well |
| Closed.StableWorks | backend/app/v2/domain/scrum_tick.py:325-361 | a tick that stays where it starts does so at a working instant, with a visit entered by then |
| Scheduler.TickProgresses | backend/app/v2/application/live_scheduler.py:121-129 | every tick that neither fails nor catches up lowers (time left, boundary due, timed steps left) |
| Scheduler.CatchUp | backend/app/v2/application/live_scheduler.py:121-129 | with distinct statuses the catch-up loop makes one tick after another from every state polling may find, and ends at the first that leaves the team at the requested instant with no boundary due, or, never from a sound state, at one that fails |
| Scheduler.DueBoundaryIs | backend/app/v2/application/live_scheduler.py:173-194 | the next boundary found is the open sprint's, if it is due |
| Scheduler.TeamStore.Apply | backend/app/v2/domain/authoritative_slice.py:142-163 | a current valid command replaces the state; a refused one changes nothing |
| Scheduler.TickTeam | backend/app/v2/application/live_scheduler.py:107-129 | a tick of the service fails exactly when a clock is asked to run backwards, and then commits nothing; otherwise the state is the computed one |
| Loops.ClosedItemFollowsRoute | backend/app/v2/domain/scrum_tick.py:732-774 | after a closing tick the item is where its route says it is after one completion, or done |
| Loops.LoopAgain | backend/app/v2/domain/scrum_tick.py:744-774 | before a repeated status, with no time to spend, one more tick leads to the same situation at the same instant |
| Loops.CatchUpEndsIff | backend/app/v2/application/live_scheduler.py:121-129 | the catch-up loop ends for all draws from every reachable state exactly when no timed step of a route repeats an earlier status, or the maximum capacity is zero, or the team never works after its first boundary; from sound states it ends caught up exactly then |
| Idle.NothingStarts | backend/app/v2/domain/sprint_lifecycle.py:213-244 | with a maximum capacity of zero no item ever leaves the backlog |
| Restart.Resume | backend/app/v2/application/live_scheduler.py:131-170 | a restart, from a state an earlier restart was broken off in as well, crosses each due boundary exactly once, in order, ends at the restart instant short of the next boundary, and changes no existing visit and no consumption |
| Restart.LeftStands | backend/app/v2/application/live_scheduler.py:143-161 | wherever a restart is broken off, it leaves a standing state, with every visit and all consumption as they were |
| Entries.EntryIgnored | backend/app/v2/domain/scrum_tick.py:440-587 | owners, labor, queueing and consumption of a segment do not depend on when visits were entered |
| DuePages.Runtimes.RunDue | backend/app/v2/application/live_scheduler.py:87-119 | for any page size one poll advances every team due at its start exactly once, in order, each at the table the one before left, terminates, and reports as succeeded and failed exactly those whose advance went that way |
| DuePages.DuePast | backend/app/v2/persistence/due_team_store.py:30-51 | asking past the k-th due team gives exactly what came after it |
| DuePages.DueMembers | backend/app/v2/persistence/due_team_store.py:36-49 | a page query lists exactly the running teams whose wake time has come, past the cursor |
| JiraSite.Provider.Deliver | backend/app/integrations/v2_jira_intent_adapter.py:52-211 | each handler's reads and writes change the provider exactly as the handler function says |
| JiraEffects.HandleEffect | backend/app/integrations/v2_jira_intent_adapter.py:71-211 | over the provider and the mappings alone: exactly when each operation is delivered, and then the project, issue or sprint is there under its identity with the mapping pointing at it, the issue has the target status, the sprint is started or closed or holds the listed issues besides its own, and everything else is as it was |
| JiraSite.HandleUnique | backend/app/integrations/v2_jira_intent_adapter.py:71-153 | a create handler never makes a second project, issue, or sprint on one board, of one identity |
| Outbox.RedeliverySame | backend/app/integrations/v2_jira_intent_adapter.py:71-211 | delivering an intent again changes nothing and maps the same resource |
| Outbox.SettledStays | backend/app/integrations/v2_jira_intent_adapter.py:71-223 | what is delivered stays delivered while other teams' intents are |
| Delivery.ExactlyOnce | backend/app/v2/application/jira_delivery.py:70-94 | after any attempts, each lost, half done or receipted, the provider is what delivering once each team's receipted intents in order, and at most its next one, would give |
| JiraEffects.RunEffect | backend/app/v2/application/jira_delivery.py:70-94 | each attempt of any run has its intent's effect unless it is lost or refused, and stores the receipt and the mapping exactly if it gets that far and the identity is bound to nothing else |
| JiraEffects.ReceiptHasEffect | backend/app/v2/application/jira_delivery.py:70-94 | behind every receipt stands one attempt that stored it, which had the effect its intent asks for and left the mapping bound |
| Delivery.AtMostOneResource | backend/app/integrations/v2_jira_intent_adapter.py:71-153 | after any attempts at most one project and issue exists per identity, and at most one sprint per identity and board |
| Delivery.OneSprintEach | backend/app/integrations/v2_jira_intent_adapter.py:129-153 | after any attempts no sprint the plan creates is there twice, when every creation of it names one board and it was not there before |
| Delivery.TwoBoardsTwoSprints | backend/app/integrations/v2_jira_intent_adapter.py:129-153 | a plan that creates one sprint on two boards leaves two sprints of one identity |
| Delivery.DeliveryStore.DeliverOne | backend/app/v2/application/jira_delivery.py:70-83 | one delivery runs the handler and stores mapping and receipt together, if it gets that far |
| Delivery.DeliveryStore.DrainOnce | backend/app/v2/application/jira_delivery.py:50-68 | one drain attempts at most the limit, no intent twice, each when it is its team's first without a receipt; it stops before the limit only if, of the first intents it may still ask for, none is untried; it counts as delivered those that stored a receipt; an error that is not the provider's, a conflicting mapping included, ends it at once |
| Delivery.TriedInTurn | backend/app/v2/application/jira_delivery.py:50-68 | each attempt of a drain is at its team's first intent without a receipt at that moment |
| Delivery.TriedOnce | backend/app/v2/application/jira_delivery.py:50-68 | no intent is attempted twice in one drain |
| Queue.OutstandingExact | backend/app/v2/persistence/jira_delivery_store.py:34-48 | exactly the due teams' first intents without a receipt are listed, in team order |
| Queue.NextBatchExact | backend/app/v2/application/jira_delivery.py:50-68 | a drain takes on a team's first intent exactly if it is due, among the first due ones the query may list, and not tried yet |
| Queue.NextBatchOrder | backend/app/v2/application/jira_delivery.py:50-68 | it takes them on in the order of their teams |
| Queue.NothingLeft | backend/app/v2/application/jira_delivery.py:50-68 | a drain that ends with attempts to spare has tried every due intent it could still ask for |
| Counterexamples.ReworkNeverCatchesUp | backend/app/v2/domain/team_blueprint.py:391-405 | a validated blueprint and a reachable sound state from which every tick is committed and none moves the cursor |
| Overnight.EndsTooEarly | backend/app/v2/domain/scrum_tick.py:428-437 | a reachable state from which a tick commits an end at which nothing is complete, while the first completion comes three microseconds later |
| Overnight.ClosesWhenAsked | backend/app/v2/domain/scrum_tick.py:325-361 | a reachable state with a complete visit at night, closed at whatever instant up to the morning the tick is asked to end |
| Interrupted.WorksBeforeEntry | backend/app/v2/application/live_scheduler.py:107-161 | a restart broken off after its one crossing, and a tick from there that credits more labor than business time since entry |
| Interrupted.FailsUntilResumed | backend/app/v2/application/live_scheduler.py:107-161 | a restart broken off after its one crossing, after which every tick far enough fails |

## Left out

- Review rejection: with a later visit already open it adds a second open visit and claims an ordinal that closing may claim again in the same tick, so it breaks the invariant rather than keeping it.
- Long-stay evidence, ledger text, summaries, ground-truth payloads and projection payloads: they change no state.
- Seeded draws, digests, derived identifiers and sample authentication: draws are arbitrary functions and identities are coordinates.
- Floating point in sampling, risk probability and hour-to-microsecond rounding: durations and outcomes are given as integers and booleans.
- Real time zones, ambiguous local times and date overflow: the zone is an ordered function and calendar operations are refused past a horizon; a tick, catch-up or effective end past the horizon is not modelled.
- Waits across a restart: downtime moves the cursor without pausing, so the exact-wait statement covers runs of ticks only.
- Consumption rows that record no labor, and unchanged rows written again: commands hold only rows that differ.
- Owner checks of natural decisions against rows of the wrong kind: items and members are numbered apart.
- Granularity.SplitIndependent: does not include the queue clock and the recorded denial, which depend on where a segment is cut.
- JiraSite.HandleUnique: states uniqueness of sprints per identity and board, because the sprint lookup reads one board only; Delivery.OneSprintEach has it per identity.
- Retry delays, dependency keys and the commit order behind the order of teams in a drain: any due predicate and any order of teams is allowed, and the statements hold for every one.
- The HTTP client, persistence mappers, routers, the first-generation engine, the frontend, the recurrence-rule cadence and the federal holiday table.
