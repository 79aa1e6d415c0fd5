# Verification of the collectors, the history store and the review workflow

These files model the parts of the repository whose correctness depends on state that
survives crashes, other workers and untrusted answers, and prove what those parts are for.

- **Latest-first collection** (`Ranges`, `RangeMinimality`, `Freshness*`): interval sets with a
  lossy but conservative cap, the gallop-and-bisect search that is resumed across rounds, the
  scan queue, and the transition system of all rounds, crashes and recoveries. The main result
  is that no unresolved ID is ever forgotten.
- **Consecutive collection** (`Discovery*`): leased runs over one cursor row, with recovery of
  expired ones.
- **One-shot bootstrap** (`Bootstrap`, `Logarithm`): a budgeted bisection over answers that may
  change from one request to the next.
- **Account leases** (`Coordination*`, `AccountLease`): one shared database, many leases, any
  clocks. The log of what has happened determines every answer.
- **History store** (`History*`): a directory of immutable samples and a manifest. A process
  has `fuel`, the number of directory changes it makes before it dies, so what a method ensures
  for every fuel holds after a crash between any two of them.
- **Kill blob parser** (`Blob*`): tag scanner, attribute parser and forest builder, against the
  layouts that a text may have and an independent account of which tags spell which forest.
- **Price series** (`Series`): the one-pass statistics and the choice of at most 240 rows.
- **Corporation pages** (`Review*`): claims, drafts, submission, decision and publication.
- **Session bundles** (`Base64`, `BinaryTree`): the `$binary` tree codec.

Code that updates things step by step is a class or a loop proved against functions on values;
the claims about whole runs are lemmas about those functions. A transaction is one step.

Two documented intentions do not hold in every case, and the model keeps the code as it is.
`FreshnessMoves.NeverBackExactly`: recovery of a dead worker copies a provisional empty ID left by
the other collector into `next_probe_id`. If that ID is smaller, the position moves back at once; if
it is larger, unresolved IDs are passed over (`FreshnessPosition.HonestExactly`) until the next round
moves it back, but the other collector leaves none there (`DiscoveryRuns.LeavesNoStaleProvisional`).
`DiscoveryRuns.RecoveryLandsOnTarget`: after the exception exit of an earlier run a crash can be
recovered to a different place than a clean finish. The lemmas say exactly when, and
`FreshnessMoves.MovesBackExample`, `FreshnessMoves.NextRoundMovesBackExample` and
`DiscoveryRuns.RecoveryMissesTarget` give the inputs.

## Model

| member | source | states |
|---|---|---|
| Ranges.MergedFacts | backend/Killboard/freshness.py:27-39 | `_merge` returns at most 64 ascending, pairwise non-adjacent ranges that cover every ID of the input and stay between its smallest and largest ID |
| RangeMinimality.MergeIsCheapest | backend/Killboard/freshness.py:32-38 | no list of at most 64 ranges, in any order and with any overlap, covers the input with fewer IDs in all: merging narrowest gaps first is globally optimal |
| RangeMinimality.MergeIsExactWhenPossible | backend/Killboard/freshness.py:27-39 | if the input's IDs can be written with at most 64 ranges, `_merge` adds none |
| Ranges.Merge | backend/Killboard/freshness.py:27-39 | the loop that edits the list in place computes the merged list the rows above are about, on any list of well-formed ranges |
| Ranges.Compact | backend/Killboard/freshness.py:36-38 | the gap-filling loop leaves the result of always filling the leftmost narrowest gap while there are more than 64 ranges |
| Ranges.NarrowestGap | backend/Killboard/freshness.py:37 | the gap chosen is a narrowest one, and the first of those |
| Ranges.CoalescedInput | backend/Killboard/freshness.py:28-33 | sorting and joining keeps exactly the IDs of the input and leaves ascending, non-adjacent ranges |
| Ranges.CompactedFacts | backend/Killboard/freshness.py:36-38 | filling gaps keeps every ID, both ends and the canonical form, and stops at 64 ranges |
| Ranges.RemovedFacts | backend/Killboard/freshness.py:42-52 | `_remove` is exact set subtraction, keeps the canonical form and lengthens the list by at most one range |
| Ranges.Remove | backend/Killboard/freshness.py:42-52 | the loop computes that subtraction |
| FreshnessScan.ScanRule | backend/Killboard/freshness.py:282-304 | a scan halts with `caught_up` iff nothing is pending, with `waiting_visibility` iff something is pending but nothing is eligible, and otherwise probes the smallest eligible ID on every fourth scan of a round, if the oldest pending ID is below the last 64, and the largest one on any other |
| FreshnessScan.LargestFacts | backend/Killboard/freshness.py:291-301 | the downward search returns the largest pending ID whose retry time has passed, or nothing iff there is none |
| FreshnessScan.SmallestFacts | backend/Killboard/freshness.py:291-301 | the upward search returns the smallest such ID |
| FreshnessDelays.PostponedExactly | backend/Killboard/freshness.py:165-173 | putting off an ID stores exactly its new retry time and changes no other; with 128 other entries exactly one entry is dropped, one with the smallest time |
| FreshnessDelays.EmptyScanDefers | backend/Killboard/freshness.py:165-173 | an empty scan makes its ID wait until 30 minutes after it was recorded, unless the full dictionary gives that up at once |
| FreshnessDelays.StepKeepsDelay | backend/Killboard/freshness.py:154-188 | a delay stays as it is over every step, crash and recovery while its ID is pending and neither scanned nor dropped from a full dictionary |
| FreshnessDelays.EmptyIdsWait | backend/Killboard/freshness.py:165-173 | over all runs, between an empty scan of a pending ID and its next scan the clock passes 30 minutes, unless a full dictionary gave up the delay |
| FreshnessRounds.FirstStateExactly | backend/Killboard/freshness.py:68-84 | without a stored strategy a round starts iff a report is known and the history can begin at the stored position or after that report, and no further on |
| FreshnessRounds.StoredStateExactly | backend/Killboard/freshness.py:85-111 | a stored strategy is taken iff each of its parts fits the others and the limits, and its ranges are merged again |
| FreshnessRounds.TurnExactly | backend/Killboard/freshness.py:261-313 | over all runs the next turn of a round is what its committed probes determine: it ends when the budget is used up or a probe has given a reason; otherwise up to twelve probes locate, the stored upper end first, then the middle of the bracket or a step beyond its lower end, and then it scans |
| FreshnessRounds.QueueExactly | backend/Killboard/freshness.py:139-224 | over all runs a scan takes its ID from the pending ones iff it got the report without a deferred stop, a locate probe changes nothing until it finds the boundary, and then everything up to it is pending except the reports located in this round that a known value excludes |
| FreshnessRounds.LastReportIsHighest | backend/Killboard/freshness.py:153-157 | `last_success_id` is always the highest ID that was reported or known at first |
| FreshnessSafety.LoadedGood | backend/Killboard/freshness.py:68-111 | a state that passes validation and is reopened for a new round satisfies the invariant again, also after the stored ranges were merged lossily |
| FreshnessSafety.LocatedGood | backend/Killboard/freshness.py:206-224 | a locate answer keeps the search bracket ordered and below the last report, and committing a boundary puts every ID between the old and the new frontier into the pending ranges |
| FreshnessSafety.FinishedGood | backend/Killboard/freshness.py:158-160 | removing a resolved ID and its retry delay keeps every other unresolved ID pending |
| FreshnessSafety.AllFinishedGood | backend/Killboard/freshness.py:180-188 | so does removing all value-filtered IDs of the round that set the frontier |
| FreshnessSafety.PostponedGood | backend/Killboard/freshness.py:165-173 | postponing an empty ID, and dropping the oldest delay beyond 128, removes no pending ID, and deferred IDs stay pending |
| FreshnessRuns.StepGood | backend/Killboard/freshness.py:129-322 | every step of a round, its end, a crash and a recovery keep the global invariant over state, row and event log |
| FreshnessRuns.RunGood | backend/Killboard/freshness.py:129-322 | hence every sequence of steps from every invariant world does |
| FreshnessRuns.NothingForgotten | backend/Killboard/freshness.py:129-225 | over all rounds, outcomes, crashes and lossy merges, from any row this collector has not worked on, each ID from the start of the history to the frontier is pending or was resolved by a committed scan report without a deferred stop, or by a value-filtered locate report of a round that committed the frontier |
| FreshnessRuns.FrontierNeverDecreases | backend/Killboard/freshness.py:217-224 | however a run continues, the frontier never decreases, the start of the history never changes and committed events remain |
| FreshnessRuns.NothingForgottenLater | backend/Killboard/freshness.py:129-225 | so an ID that the history has reached is pending or resolved at every later moment, and once resolved stays so |
| FreshnessPosition.PositionIsHonest | backend/Killboard/freshness.py:134-137 | everything from the start of the history up to `next_probe_id` is resolved in that sense, after every run from a row without a stale provisional empty ID, or with a dead worker whose recovery consumes it |
| FreshnessPosition.HonestExactly | backend/Killboard/freshness.py:134-137 | and only from those rows: the position is honest after every run iff no provisional empty ID above the start of the history can be recovered later |
| FreshnessPosition.StaleRowLies | backend/Killboard/discovery.py:325-346 | from any other row a round that dies at once and its recovery leave a position above an unresolved ID |
| FreshnessPosition.PositionNeverDecreases | backend/Killboard/freshness.py:134-137 | from a row without a provisional empty ID, or with a dead worker whose recovery consumes it, `next_probe_id` never moves back however a run continues, and the start of the history never changes |
| FreshnessMoves.NeverBackExactly | backend/Killboard/freshness.py:129-322 | the exact condition over all runs: from the first round on the position never moves back iff the row carries no provisional empty ID, or a dead worker whose recovery consumes it, or is refused by every round, or the provisional ID is the first position and no round can leave that, because the last known report or the position is the largest ID |
| FreshnessMoves.MovesBackExactly | backend/Killboard/discovery.py:325-346 | in every reachable state a step moves the position back iff it is the recovery of a dead worker whose row has a smaller provisional empty ID, or the start of a round whose stored state is behind `next_probe_id`, as after the recovery of a larger one |
| FreshnessMoves.MovesBackExample | backend/Killboard/discovery.py:325-346 | an input for the first step: a round at position 6 with the provisional ID 5 dies, and its recovery moves the position to 5 |
| FreshnessMoves.NextRoundMovesBackExample | backend/Killboard/discovery.py:325-346 | and for the second: with the provisional ID 8 recovery moves the position to 8, and the next round back to 6 |
| FreshnessRuns.SavedStateIsAccepted | backend/Killboard/freshness.py:68-111 | with at most 64 requests a round, every state that a round saves, however it ends, passes validation in the next round |
| FreshnessSearch.GallopBound | backend/Killboard/freshness.py:210-214 | the doubling gallop followed by the bisection takes logarithmically many probes |
| FreshnessSearch.RunProgress | backend/Killboard/freshness.py:205-281 | while reports exist exactly up to n, from any stored search that has seen nothing above n, every run keeps lower <= n, asks a stored upper end at or below n again before it bisects, then keeps n < upper, keeps a frontier that is n, and each locate probe lowers a potential that a new round raises by at most one |
| FreshnessSearch.ProbesAreBounded | backend/Killboard/freshness.py:205-281 | from a row between any two rounds, with or without a stored strategy, and with a stored upper end on either side of n, all later locate probes number at most a logarithmic bound in n minus the frontier (at first, the last known report), plus one per round, however rounds are cut short and whether or not the search has ended |
| FreshnessSearch.RunPaced | backend/Killboard/freshness.py:205-214 | whatever the answers, the stored step is at most twice the distance from the frontier (or 64), and a closed bracket no wider than the step; hence the bound above needs no other quantity than n minus the frontier |
| FreshnessConvergence.RunSpends | backend/Killboard/freshness.py:262-281 | while the frontier is not n, every round that was not cut short has made its 12 locate probes |
| FreshnessConvergence.SearchEnds | backend/Killboard/freshness.py:205-281 | from such a row the frontier is n once eleven times the number of later rounds exceeds that bound plus twelve for each round that was cut short, by death, an exception or a small budget, before the search had ended |
| FreshnessConvergence.RunUncut | backend/Killboard/freshness.py:262-281 | a round that may make at least 12 requests and is served to its end is never cut short |
| FreshnessConvergence.ServedSearchEnds | backend/Killboard/freshness.py:205-281 | so logarithmically many such rounds bring the frontier to n |
| FreshnessConvergence.EverySearchEnds | backend/Killboard/freshness.py:205-281 | whatever rounds, outcomes, crashes and recoveries came before, and wherever they left the search, the rounds of at least 12 requests that are then served to their end bring the frontier to n for every n above which the row has seen no report |
| FreshnessConvergence.SearchCanEnd | backend/Killboard/freshness.py:205-281 | and from every row that a round accepts there is such a run for every such n, which ends with the frontier at n |
| FreshnessRunner.Runner.SaveState | backend/Killboard/freshness.py:130-137 | the row gets the state, and the first pending ID or one past the frontier as its position |
| FreshnessRunner.Runner.Postpone | backend/Killboard/freshness.py:168-173 | the dictionary gets the new retry time and loses its oldest entry beyond 128 |
| FreshnessRunner.Runner.FinishFiltered | backend/Killboard/freshness.py:180-188 | the loop over the located, value-filtered IDs removes exactly those from pending ranges and delays |
| FreshnessRunner.Runner.RecordFresh | backend/Killboard/freshness.py:139-203 | one outcome updates counters, stop reason, located IDs, pending ranges, delays, row and event log in one step, as the transition system says |
| FreshnessRunner.Runner.LocateRecord | backend/Killboard/freshness.py:205-225 | the search bracket is narrowed, a closed bracket becomes the frontier, and the outcome is recorded, in one step |
| FreshnessRunner.Runner.SetFrontier | backend/Killboard/freshness.py:217-224 | a bracket of width one commits the frontier and queues what lies between |
| FreshnessRunner.Runner.SelectScan | backend/Killboard/freshness.py:291-301 | the nested loops compute the specified choice, upwards on a history turn and downwards on any other |
| FreshnessRunner.Runner.Begin | backend/Killboard/freshness.py:227-249 | a round starts from the validated state, reopens a finished search and saves, or ends at once |
| FreshnessRunner.Runner.ChooseLocate | backend/Killboard/freshness.py:271-281 | the revalidation comes first, then the midpoint, then the gallop, with the ID limit |
| FreshnessRunner.Runner.ScanTurn | backend/Killboard/freshness.py:282-312 | a scan turn takes the planned ID and records its outcome, or halts |
| FreshnessRunner.Runner.Turn | backend/Killboard/freshness.py:262-313 | one turn of the loop takes exactly one step of the transition system |
| FreshnessRunner.Runner.RunLocked | backend/Killboard/freshness.py:261-322 | the loop leaves what the steps for its replies leave; running out of replies is the death of the worker |
| FreshnessRunner.ServedIsRun | backend/Killboard/freshness.py:261-322 | and that is one of the runs the claims above quantify over |
| CoordinationRuns.RunInv | backend/GameSessions/coordination.py:155-265 | over any interleaving of leases, operators and clock readings the event log is lawful and each account's row, latches, lease and cooldown are what the log says |
| CoordinationRuns.Spacing | backend/GameSessions/coordination.py:227-237 | admissible grants are at least RPC_INTERVAL_MS apart, all pairs of them |
| CoordinationRuns.SlidingWindow | backend/GameSessions/coordination.py:229-237 | fixed windows of 44 grants imply that no half-open interval of WINDOW_MS holds more than 88 |
| CoordinationRuns.GrantsAreBounded | backend/GameSessions/coordination.py:215-239 | both bounds hold for the grants of one account over all runs, across release, expiry and takeover, even if clocks run backwards |
| CoordinationRuns.EarlierHolderIsFenced | backend/GameSessions/coordination.py:174-178 | once another lease has acquired an account, the earlier one gets no grant, pause or completion unless it acquires again in between |
| CoordinationRuns.PausesNeedResume | backend/GameSessions/coordination.py:155-165 | between a pause and any later grant or acquisition of the account lies an operator's resume of that kind |
| CoordinationRuns.CooldownBindsEveryAccount | backend/GameSessions/coordination.py:251-259 | the global cooldown never decreases, and no grant or acquisition of any account has a stamp below one set before it |
| CoordinationRuns.TakeoverWaitsForExpiry | backend/GameSessions/coordination.py:180-213 | a lease is taken over only LEASE_MS after its last acquisition or grant unless it was released itself; the exit of a lease that had lost the account before frees nothing |
| CoordinationAnswers.AcceptedExactly | backend/GameSessions/coordination.py:155-265 | over all runs an acquisition, grant, pause, completion or resume is accepted iff the log admits it: an acquisition iff the lease is not in use, the cooldown is over, no latch is set and the last lease has left or its 12 minutes are over; a grant iff the lease holds the account, the last grant is a second ago and fewer than 44 were made in its five-minute window; and the cooldown set by a rate pause is 15, 30, then 60 minutes, starting over after a completion |
| CoordinationAnswers.AnsweredExactly | backend/GameSessions/coordination.py:155-265 | and every refusal, in its order, and every waiting time is what the log determines |
| CoordinationAnswers.BudgetIsWindow | backend/GameSessions/coordination.py:229-237 | the stored window, count and next time are the five-minute window of the last grant, the grants made in it, and one second after it |
| AccountLease.AccountLease.Enter | backend/GameSessions/coordination.py:180-199 | acquires exactly under the stated conditions, with the refusals in their order |
| AccountLease.AccountLease.Exit | backend/GameSessions/coordination.py:201-213 | clears the owner only if it is still this lease |
| AccountLease.AccountLease.BeforeRpc | backend/GameSessions/coordination.py:215-239 | the loop ends with the answer of its last attempt, made on whatever the steps of others left during the sleeps, and every attempt before it was told to wait |
| AccountLease.WaitingIsARun | backend/GameSessions/coordination.py:215-239 | the waiting loop, with the steps of others during its sleeps, is one of the runs that the claims are about, and its last attempt is that run's last step |
| AccountLease.AccountLease.TryRpc | backend/GameSessions/coordination.py:217-238 | one attempt refuses, waits or grants and updates window, count, spacing and expiry |
| AccountLease.AccountLease.PauseRate | backend/GameSessions/coordination.py:251-259 | an owner raises the failure count and never lowers the cooldown |
| AccountLease.AccountLease.PauseAuth | backend/GameSessions/coordination.py:241-244 | an owner sets the authentication latch and nothing else |
| AccountLease.AccountLease.PauseService | backend/GameSessions/coordination.py:246-249 | an owner sets the service latch and nothing else |
| AccountLease.AccountLease.Complete | backend/GameSessions/coordination.py:261-265 | an owner resets the failure count once the cooldown has passed |
| AccountLease.Store.Resume | backend/GameSessions/coordination.py:155-165 | clears the chosen latches unless the account is held |
| AccountLease.TransactionsAreSteps | backend/GameSessions/coordination.py:155-265 | what these methods answer and leave is a step of the interleaved world that the claims are about |
| DiscoveryRuns.RunInv | backend/Killboard/discovery.py:269-434 | over all claims, heartbeats, probes, finishes, failures and crashes the runs, workers, row and log satisfy the invariant behind the next rows |
| DiscoveryRuns.OwnerIsUniqueAndCurrent | backend/Killboard/discovery.py:348-369 | at most one run of a cursor is RUNNING, and its worker's copy of the row is the row |
| DiscoveryRuns.OnlyTheOwnerWrites | backend/Killboard/discovery.py:324-369 | a step changes the position fields only if it is taken by the owner of the running run, or is a claim that recovers an expired one |
| DiscoveryRuns.FinishLandsOnTarget | backend/Killboard/discovery.py:425-434 | a clean finish leaves the next run to start one past this run's last accepted report, or where this run started |
| DiscoveryRuns.RecoveryLandsOnTarget | backend/Killboard/discovery.py:324-346 | recovery after a crash at any commit point leaves it at the same place iff the run had committed a report or an empty ID, or began from a row without a provisional ID, or from one equal to its start |
| DiscoveryRuns.RecoveryMissesTarget | backend/Killboard/discovery.py:298-346 | an input for the other case: five steps from a row at 10, with a run that asks 10 in vain and fails and one that begins at 11 and dies, after which recovery goes to 10 and not to 11 |
| DiscoveryRuns.LeavesNoStaleProvisional | backend/Killboard/discovery.py:371-434 | a row that only this collector has used never carries a provisional ID above its position |
| DiscoveryProbes.AsksConsecutiveIds | backend/Killboard/discovery.py:371-414 | over all runs the probes of one run are the IDs from where it began, one after the other, without a gap |
| DiscoveryProbes.NothingSkipped | backend/Killboard/discovery.py:371-433 | hence every ID between the start of a run and the position that its finish or recovery stands for was asked by that run |
| DiscoveryProbes.ProbesAreLawful | backend/Killboard/discovery.py:371-414 | a probe is made only by a run that goes on, and a report is accepted iff its time is not earlier than that of the last accepted one |
| DiscoveryProbes.StopsExactly | backend/Killboard/discovery.py:371-475 | a run goes on iff it has requests left, its next ID is in range, and there was no failure, deferred stop, report out of order or full streak of empty IDs |
| DiscoveryProbes.RowTellsTheRun | backend/Killboard/discovery.py:371-414 | while a run is owned the row holds its last accepted report, that report's time, its streak of empty IDs and its next ID |
| DiscoveryLeases.ClaimAcceptedExactly | backend/Killboard/discovery.py:263-346 | over all runs a claim is accepted iff nobody holds the lease or 90 seconds have passed since the holder's claim or last heartbeat, and it begins from the row, with the empty ID of a dead holder asked again |
| DiscoveryLeases.WorkerActsExactly | backend/Killboard/discovery.py:324-433 | a heartbeat, start, probe or end takes effect iff the worker's run holds the lease |
| FreshnessPosition.OrderedIsNotStale | backend/Killboard/freshness.py:68-82 | so the latest-first collector can take such a row over with an honest position |
| DiscoveryRuns.CrashEqualsFinish | backend/Killboard/discovery.py:324-434 | without the exception exit, and from a row without a provisional ID, every recovery lands where a clean finish would have |
| DiscoveryRunner.Rows.RecoverOrphans | backend/Killboard/discovery.py:324-346 | expired runs are failed, all others kept, and the position goes back to the provisional ID iff there was an expired run |
| DiscoveryRunner.Runner.Claim | backend/Killboard/discovery.py:286-293 | the claiming transaction recovers, refuses beside a running run, or creates one and copies the row |
| DiscoveryRunner.Runner.Heartbeat | backend/Killboard/discovery.py:206-211 | the lease is extended iff this worker still owns it |
| DiscoveryRunner.Runner.RecordOutcome | backend/Killboard/discovery.py:371-423 | one outcome updates the worker's copy and the row together, or nothing if the lease is lost |
| DiscoveryRunner.Runner.FinishRun | backend/Killboard/discovery.py:425-434 | the position is rolled back to the first empty ID of the round and the run is stopped |
| DiscoveryRunner.Runner.StartRun | backend/Killboard/discovery.py:453-456 | the transaction before the loop resets the count of empty IDs if the lease is still held |
| DiscoveryRunner.Runner.TakeTurn | backend/Killboard/discovery.py:465-470 | one turn of the loop is a heartbeat and a recorded probe, with any actions of other workers before each, and ends the worker if its lease is lost |
| DiscoveryRunner.Runner.RunLocked | backend/Killboard/discovery.py:453-476 | from its first transaction to the finish the method does what the transition system does, while other workers act between its transactions and may take the lease away |
| DiscoveryRunner.TurnedIsRun | backend/Killboard/discovery.py:453-476 | and what it leaves, rows and memory, is left by one of the runs the claims above quantify over |
| Bootstrap.BootstrapRunner.Run | backend/Killboard/bootstrap.py:170-261 | whatever is answered, all probes lie inside the bracket and number at most `max_requests`; a candidate means that every observation is a report up to it and empty above it and that the whole neighbourhood was probed; every other stop reason is something that was observed; the order of times counts as verified iff every report has one and all have an offset or none has; on a fixed prefix ending at n a budget of 2 + ceil(log2 width) + 2 * radius + 2 yields n |
| Bootstrap.BootstrapRunner.Probe | backend/Killboard/bootstrap.py:192-225 | an accepted probe keeps all observations mutually consistent, a refused one names a contradiction, a failure or an exhausted budget, and on a fixed prefix none is refused before the budget ends |
| Bootstrap.BootstrapRunner.Bisect | backend/Killboard/bootstrap.py:243-251 | the bisection ends with adjacent ends, within the logarithm of the width |
| Bootstrap.BootstrapRunner.Reprobe | backend/Killboard/bootstrap.py:255-259 | every ID of the bracket within the radius has been probed, at the cost of at most 2 * radius + 2 requests |
| Bootstrap.BootstrapRunner.ConfirmBracket | backend/Killboard/bootstrap.py:227-241 | both ends are confirmed with two requests, or the stop reason says which failed |
| Bootstrap.PrefixStep | backend/Killboard/bootstrap.py:201-224 | no check of the probe can fail on an answer of a fixed prefix with ordered times |
| Bootstrap.ReversalExplained | backend/Killboard/bootstrap.py:213-224 | `time_reversed` is only reported with two comparable report times that run against their IDs |
| Bootstrap.DiscontinuityExplained | backend/Killboard/bootstrap.py:208-212 | `continuity_violation` is only reported with an empty ID below a reported one |
| Bootstrap.ChangeExplained | backend/Killboard/bootstrap.py:202-206 | `boundary_changed` is only reported when one ID was both empty and reported |
| Bootstrap.ComparableTimesIncrease | backend/Killboard/bootstrap.py:179-190 | `time_order_verified` means that the times of all reports exist and increase with their IDs |
| HistoryStore.Store.RecordSuccess | backend/AnomalyHotspots/history.py:287-322 | after a death between any two directory changes the manifest is the old or the new one and the invariant holds; no other sample and no attempts are touched but for deletions; it is rejected only for an invalid sample or one that conflicts with what is stored, always completes within one change per file and 13 more, and when done the stored samples are exactly those of the manifest and the published one is its newest |
| HistoryStore.ConflictsExactly | backend/AnomalyHotspots/history.py:296-311 | a sample conflicts iff another one is listed for its stamp or a later one, or has been staged for its stamp |
| HistoryStore.Store.PublishTwice | backend/AnomalyHotspots/history.py:287-322 | a process that dies at any point of a publication is followed by one that publishes a later sample: it succeeds and keeps everything that was in the manifest and is within the limits |
| HistoryStore.DirectorySize | backend/AnomalyHotspots/history.py:28-36 | the directory never holds more than the allowed samples and three other names, so a constant number of changes is always enough |
| HistoryStore.ReadersSucceed | backend/AnomalyHotspots/history.py:180-209 | in every state that satisfies the invariant each entry of the manifest names an existing file with one link and the recorded content |
| HistoryStore.LargerStampsAreAccepted | backend/AnomalyHotspots/history.py:287-322 | a stamp beyond everything staged meets no conflict, whatever a crash left |
| HistoryRetention.RetainedIsLongest | backend/AnomalyHotspots/history.py:315-319 | the new manifest is the longest suffix of the old entries and the new one that meets the age, count and byte limits |
| HistoryRetention.RetainedIsValid | backend/AnomalyHotspots/history.py:315-320 | it passes the manifest's own checks, ends with the new sample and holds nothing else that was not retained |
| HistoryRetention.Retain | backend/AnomalyHotspots/history.py:315-319 | the list edits compute that manifest |
| HistoryStore.RetainedBacked | backend/AnomalyHotspots/history.py:307-320 | every entry of the new manifest has its file before the manifest is written |
| HistoryInvariant.PhysicalBound | backend/AnomalyHotspots/history.py:28-36 | in every such state the files and the temporary take at most MAX_PHYSICAL_HISTORY_BYTES |
| HistoryStore.Store.Prepare | backend/AnomalyHotspots/history.py:132-147 | the budget never rejects a publication, and a torn temporary leaves every other file as it was |
| HistoryStore.Store.BudgetHolds | backend/AnomalyHotspots/history.py:258-284 | in every state from which the store publishes there is room for one more sample or one more generation of a metadata file |
| HistoryStore.Store.PhysicalBudget | backend/AnomalyHotspots/history.py:258-284 | the check compares exactly the number of samples and the bytes of the managed files, each counted once |
| HistoryStore.Measure | backend/AnomalyHotspots/history.py:265-281 | the directory scan counts the samples and sums the sizes, each file once |
| HistoryFiles.IndexFits | backend/AnomalyHotspots/history.py:212-214 | every valid manifest encodes to at most MAX_MANIFEST_BYTES, so it can always be written |
| HistoryInvariant.LinkSample | backend/AnomalyHotspots/history.py:148-152 | linking a complete temporary to a new sample name keeps the invariant |
| HistoryInvariant.ReplaceManifest | backend/AnomalyHotspots/history.py:153-154 | replacing the manifest by one whose samples exist keeps the invariant and changes nothing else |
| HistoryInvariant.ReplaceJournal | backend/AnomalyHotspots/history.py:153-154 | so does replacing the attempts file, which leaves the manifest alone |
| HistoryInvariant.AddTemporary | backend/AnomalyHotspots/history.py:138-147 | a new temporary, complete or torn, keeps the invariant |
| HistoryInvariant.DropTemporary | backend/AnomalyHotspots/history.py:234-255 | deleting a temporary, linked or not, keeps it |
| HistoryInvariant.DropOrphan | backend/AnomalyHotspots/history.py:217-231 | deleting a sample that the manifest does not name keeps it |
| HistoryStore.Store.CleanupTemporaries | backend/AnomalyHotspots/history.py:234-255 | all temporaries go, no other file changes, and nothing a crash can leave makes it fail |
| HistoryStore.Store.RemoveOrphans | backend/AnomalyHotspots/history.py:217-231 | all samples that are not to be kept go, and no other file changes |
| HistoryStore.Store.WriteManifest | backend/AnomalyHotspots/history.py:212-214 | the manifest is the old one until it is the new one |
| HistoryStore.Store.PublishSample | backend/AnomalyHotspots/history.py:148-152 | the sample appears complete or not at all, also when the process dies |
| HistoryStore.Store.Stage | backend/AnomalyHotspots/history.py:310-314 | the sample is in place before the manifest names it; only a different sample of the same stamp is a conflict |
| HistoryStore.Store.Commit | backend/AnomalyHotspots/history.py:315-321 | the manifest, then the pruning |
| HistoryStore.Store.RecordAttempt | backend/AnomalyHotspots/history.py:410-430 | the attempt is added to the journal, or after a death or a rejection the old one is kept; a journal that would be too long is the only rejection, and manifest and samples are never touched |
| HistoryStore.NewestFirst | backend/AnomalyHotspots/history.py:420-428 | the journal of any sequence of attempts is the last 200 of them, the newest first |
| BlobTheorems.ParseMeaning | backend/Killboard/parser.py:39-164 | a text is accepted as a forest iff it is small and free of control characters, the forest is within the limits on names, attributes, values, nodes and depth, and the text is a layout of tags that spell exactly that forest: tags with any white space within and between them, names in any case, values in either quotes or, without spaces, in none, and nothing else |
| BlobTheorems.EveryLayoutIsRead | backend/Killboard/parser.py:39-164 | so however its tags are laid out a forest is read back, iff text and forest are within the limits |
| BlobTheorems.RoundTrip | backend/Killboard/parser.py:39-164 | a forest whose values each lack one kind of quote is read back from its canonical form iff it is within the limits and the form within the size limit |
| BlobTheorems.Normalises | backend/Killboard/parser.py:39-164 | printing an accepted forest and parsing it again gives the same forest, if each value lacks one kind of quote and the print is within the size limit |
| BlobTheorems.SpellingIsUnique | backend/Killboard/parser.py:125-164 | different forests within the limits are spelled by different tags |
| BlobTheorems.ApplyAllSpells | backend/Killboard/parser.py:140-161 | what has been built and what is still open is always exactly what the tags read so far spell: nothing is lost, moved or made up |
| BlobTheorems.ApplyAllGrows | backend/Killboard/parser.py:140-161 | node count, depth, names and attributes are within the limits after every tag |
| BlobTheorems.SpelledBuilds | backend/Killboard/parser.py:140-161 | reading the tags of any forest that fits appends exactly that forest |
| BlobForest.ParseAppliesTags | backend/Killboard/parser.py:125-164 | parsing succeeds iff reading all tags, applying them and finishing succeed |
| BlobForest.ExpandedTagsApply | backend/Killboard/parser.py:140-161 | a self-closing tag has the effect of an opening and a closing tag |
| BlobForest.LayoutRead | backend/Killboard/parser.py:39-164 | the tags of every layout are read, in sequence |
| BlobForest.LayoutWritten | backend/Killboard/parser.py:39-164 | and every text whose tags can all be read is such a layout: text other than white space between tags is refused |
| BlobReading.TagRead | backend/Killboard/parser.py:39-122 | each well-written tag is read as its lower-case name, attributes in order and closing flags, whatever white space stands before it and whatever follows, also with angle brackets and slashes inside quoted values |
| BlobWriting.TagWritten | backend/Killboard/parser.py:39-122 | and each tag that is read was written so |
| BlobReading.AttrsRead | backend/Killboard/parser.py:76-122 | the attribute loop reads back any list of distinct names with clean values, in quotes or without |
| BlobWriting.AttrsWritten | backend/Killboard/parser.py:76-122 | and accepts nothing else |
| BlobPrinter.PlainTagPasses | backend/Killboard/parser.py:39-56 | a tag whose values without quotes around them hold neither quotes nor angle brackets ends at its own '>' |
| BlobPrinter.CanonicalIsGood | backend/Killboard/parser.py:39-122 | every legal tag whose values lack one kind of quote has a layout |
| BlobScanner.TagsAreLegal | backend/Killboard/parser.py:39-122 | every tag that is read has a lower-case name and at most 64 attributes with distinct lower-case names and values of at most 255 characters without control characters or entities |
| BlobText.TrimKeepsStart | backend/Killboard/parser.py:52-62 | the closing flags of the tag scanner and of the attribute parser agree |
| BlobParser.EndOfTag | backend/Killboard/parser.py:41-55 | the index loop finds the first '>' outside quotes, if there is one |
| BlobParser.ReadTag | backend/Killboard/parser.py:39-56 | raw text, closing flag and end of the tag, or the error, are as specified |
| BlobParser.ReadAttributes | backend/Killboard/parser.py:77-121 | the nested index loops compute the specified attributes or error |
| BlobParser.ReadElement | backend/Killboard/parser.py:59-122 | `_parse_attrs` as a whole |
| BlobParser.Place | backend/Killboard/parser.py:144-161 | one tag pushes, pops or appends as specified, with the node limit before the depth limit |
| BlobParser.ParseForest | backend/Killboard/parser.py:125-164 | the loop over the text returns the specified forest or error on every input |
| Series.SeriesState.Update | backend/Market/views.py:275-287 | the streamed statistics are those of the series with one more observation: latest, first and last price, and the earliest attaining the maximum and the minimum |
| Series.Get | backend/Market/views.py:319-405 | for any rows the highs and lows of window and month are exact; at most 240 rows of the window are shown, in strictly increasing order: all that are sampled or set a new high or low if they are few enough, else the ends and each side's high and low, then the even sample from its start, then the others; if the count still holds, the last row is among them, and as many rows as there are up to 240 |
| Series.Stream | backend/Market/views.py:348-376 | the one-pass loop keeps exactly the sampled rows and the rows that set a new high or low of a side, and the statistics of all four series |
| Series.Choose | backend/Market/views.py:377-396 | of more than 240 candidates exactly 240 are chosen: all protected ones, then the sampled ones in order, and others in order only after all of those |
| Series.Fill | backend/Market/views.py:388-394 | the filling loop takes candidates in order until there are 240: none is left out before one that is taken |
| Series.SampleExactly | backend/Market/views.py:340-345 | the sampled positions are all of them, or index * (count - 1) // 239 for the indexes below 240 |
| Series.SampleHasEnds | backend/Market/views.py:340-345 | the even sample always holds the first and the last position and nothing outside |
| Series.SpreadIsEven | backend/Market/views.py:340-345 | and they are spread evenly: the steps between neighbours differ by at most one |
| Series.SpreadSize | backend/Market/views.py:340-345 | with more rows than points the 240 sampled positions are distinct |
| Series.MonthSeriesPrices | backend/Market/views.py:357-361 | the month statistics are about the prices of all rows, in and before the window |
| Series.WindowIsSuffix | backend/Market/views.py:363-366 | the window is the rows from the cutoff on, to the last one |
| Review.RequestKeeps | backend/Community/views.py:239-690 | every request, accepted or refused, keeps the invariant and lets rows change only forwards |
| ReviewRuns.OnlyTheWorkingRevisionIsOpen | backend/Community/views.py:239-251 | over all runs only a corporation's working revision is a draft or pending, its author is the owner, and a published revision is approved |
| ReviewRuns.VersionPinsRevision | backend/Community/views.py:248-251 | versions never decrease and a revision with the same version is unchanged; a closed revision never changes, nor does the content of a submitted one |
| ReviewRuns.NoLostUpdate | backend/Community/views.py:239-251 | of two writes that expect the same version at most one is accepted |
| ReviewRuns.WasSubmitted | backend/Community/views.py:490-510 | a revision that is no draft was submitted by its author, complete, with the content it has now |
| ReviewRuns.WasApproved | backend/Community/views.py:640-690 | an approved revision was approved while pending, with the content it has now |
| ReviewRuns.PublishedAsSubmitted | backend/Community/views.py:490-690 | what a corporation shows was submitted by its owner and then approved, and has had the same content at every moment since the submission |
| ReviewRuns.OwnerIsForever | backend/Community/views.py:655-674 | an owner once set never changes, and is the applicant of the corporation's one approved claim |
| ReviewRuns.PendingCanBeDecided | backend/Community/views.py:675-690 | in every reachable state a revision can be decided iff it is pending: the check that it is the working one never fails |
| ReviewRuns.DraftsAreIdempotent | backend/Community/views.py:406-429 | an accepted draft request can be repeated at any later time, whatever the quota, without effect, and its ID is refused for another corporation |
| ReviewRuns.ClaimsAreIdempotent | backend/Community/views.py:371-392 | so can a claim, and its ID is refused for another payload |
| Review.OnlyOneApproval | backend/Community/views.py:655-674 | approving a claim leaves at most one approved claim per corporation |
| ReviewHistory.AcceptedExactly | backend/Community/views.py:239-707 | in every reachable state a request is accepted iff it is admissible: a repeated one with the same payload; a claim within the quota for a corporation without owner and without a pending claim of this user; a draft of the owner while nothing is under review; an edit, submission or withdrawal by the author of a draft or pending revision who knows its version; a decision on what is pending, and an approval of a claim only if there has been none |
| ReviewHistory.EditStores | backend/Community/views.py:482-491 | an accepted edit stores exactly the edited content in the author's draft, one version later, and changes nothing else |
| ReviewHistory.ContentIsLastEdit | backend/Community/views.py:406-491 | at every moment a revision has the content of its last accepted edit, or that of the corporation's newest revision when it was created |
| ReviewHistory.StatusIsLastWrite | backend/Community/views.py:482-690 | its status is what the last accepted request about it says |
| ReviewHistory.VersionCountsWrites | backend/Community/views.py:239-251 | and its version is one more than the number of accepted requests about it |
| ReviewHistory.RevisionAdded | backend/Community/views.py:416-428 | a revision is added only by a first draft request without an open draft; it continues from the corporation's newest revision, or from an empty page |
| ReviewHistory.RevisionChange | backend/Community/views.py:482-690 | and changes only by an admissible request about it |
| ReviewHistory.CorporationChange | backend/Community/views.py:350-707 | owner, working and published revision and listing change only by an approved claim, a new draft, an approved revision and a setting |
| ReviewHistory.CorporationAdded | backend/Community/views.py:375-383 | a corporation is added only by a first claim of an unused name |
| ReviewHistory.ClaimChange | backend/Community/views.py:655-674 | a claim changes only by its decision |
| ReviewHistory.ClaimAdded | backend/Community/views.py:371-392 | a new claim is pending, for the corporation that is meant or was founded for it |
| ReviewHistory.DraftRequestAdded | backend/Community/views.py:406-429 | a first draft request is remembered with the draft that it found or opened |
| ReviewDesk.Desk.PostClaim | backend/Community/views.py:350-392 | the handler finds or creates the corporation and adds a pending claim, or fails and changes nothing |
| ReviewDesk.Desk.PostDraft | backend/Community/views.py:406-429 | the handler reuses the draft or copies the last content into a new working revision, or fails and changes nothing |
| ReviewDesk.Desk.Edit | backend/Community/views.py:482-491 | the content and version of the working draft change, or nothing does |
| ReviewDesk.Desk.Transition | backend/Community/views.py:495-510 | a complete draft becomes pending, a pending revision is withdrawn, or nothing changes |
| ReviewDesk.Desk.DecideClaim | backend/Community/views.py:640-690 | an approved claim sets the owner, or nothing changes |
| ReviewDesk.Desk.DecideRevision | backend/Community/views.py:640-690 | an approved revision is published, or nothing changes |
| ReviewDesk.Desk.SetListed | backend/Community/views.py:693-707 | the listing flag changes and nothing else |
| ReviewDesk.HandledRequestsAreARun | backend/Community/views.py:239-707 | requests handled one after the other are one of the runs the claims above quantify over, and are accepted exactly if they report no failure |
| BinaryTree.RoundTrip | backend/Killboard/session_bundle.py:82-102 | decoding an encoding gives the value with tuples as lists, and fails for depth exactly where encoding would |
| BinaryTree.EncodesExactly | backend/Killboard/session_bundle.py:82-102 | a value is encoded iff it holds nothing but JSON values, byte strings and text keys other than `$binary`, nested at most 32 deep |
| BinaryTree.EncodingIsInjective | backend/Killboard/session_bundle.py:82-102 | values that differ by more than tuples and lists have different encodings |
| BinaryTree.DecodedIsPlain | backend/Killboard/session_bundle.py:82-102 | whatever decodes is such a value, without tuples |
| BinaryTree.LoadedCanBeSaved | backend/Killboard/session_bundle.py:82-102 | whatever decodes can be encoded, and decodes to itself again |
| BinaryTree.EncodedMatches | backend/Killboard/session_bundle.py:82-102 | what is written is the same value in the same order, with byte strings as Base64 under the one key `$binary` and tuples as lists |
| Base64.RoundTrip | backend/Killboard/session_bundle.py:85-93 | decoding undoes the encoding of section 4 of RFC 4648 |
| Base64.Alphabet | backend/Killboard/session_bundle.py:85-86 | the letters are those of table 1 of that RFC in their order |
| Base64.TestVectors | backend/Killboard/session_bundle.py:85-86 | the encoding agrees with the test vectors of section 10 of that RFC |
| Base64.Canonical | backend/Killboard/session_bundle.py:85-93 | a text that decodes is the encoding of its bytes iff padding leaves no stray bits, so decoding alone is not injective |

## Left out

- Sockets, wire formats, HTTP, serializers, sessions, throttles and mail: plumbing around the modelled logic.
- The database engine: a transaction happens fully or not at all, row locks are implied by that, and the clock is an input wherever it is read.
- Report contents, policies and persistence: an outcome is a report (value-filtered or not, with or without a time), empty or failed, with or without a deferred stop.
- Pauses, cooldowns, failure counters, diagnostics, `resume` and `dry_run` of the collectors: they decide whether a round starts, not what it does to the position.
- Malformed JSON shapes of `strategy_state`: the model's state has the right shape, and validation decides on its values.
- The order in which equal retry times are dropped after a reload of `deferred_ids`: the model drops the first inserted one.
- FreshnessRuns.SavedStateIsAccepted: for rounds of at most 64 requests; a longer round can save more than the 128 ranges that validation accepts.
- FreshnessSearch.ProbesAreBounded: counts the probes from a moment on at which the reports are exactly the IDs up to n; for other answers only the safety claims hold.
- Exclusive ownership of the row is proved for the consecutive collector (`DiscoveryRuns`); the latest-first collector inherits the same claim, heartbeat and recovery transactions, and its model has one worker at a time, whose recovery ends it, with `strategy_state` written by that worker alone.
- AccountLease.AccountLease.BeforeRpc: the source waits without a bound; here the loop also ends when the given clock readings run out, and only then with an answer that tells it to wait.
- Account references, file permissions, schema checks and busy errors of the coordinator: the path to a database that can be used.
- Owners are fresh numbers instead of random tokens, and a hash is the text it was taken from.
- HistoryStore.Store.RecordSuccess: starts from the encoded sample; validation of its rows, the older sample version, file modes and owners, and errors of the file system other than death are not modelled.
- HistoryStore.Store.RecordAttempt: starts from the checked item, as text.
- `read_changes` and its differences between samples, and readers that run beside the writer.
- Durability after a power failure: a directory change that was made stays made.
- BlobParser.ParseForest: works on text; a node is added to its parent when its tag closes, while the source adds it when the tag opens and fills it afterwards.
- BlobTheorems.RoundTrip: a value with both kinds of quotes, which only an unquoted source can produce, has no canonical form; BlobTheorems.ParseMeaning covers it.
- `_participant`, `_item`, `_match_final` and the summary merging of the parser: per-field rules of the report's contents, which are not modelled.
- Series.Get: prices are integers of the smallest unit; texts, price levels and the rounded change are left out.
- Review.RequestKeeps: names and short names of claims, media uploads, the wording of reasons and the daily quotas themselves, whose outcome is an input; the fields of a page other than the two that a submission checks are one opaque value, and a corporation's name is the key made from it.
- BinaryTree.RoundTrip: dictionaries are lists of entries in order; the JSON text around the tree is left out.
- Base64.Decode: padding must fill the last group of four; older interpreters also accept a surplus `=` after a full group.
- Collection health, taxonomy, licences, feedback, bazaar and fraud lists are not modelled.
