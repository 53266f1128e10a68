# A verified model of sgt's engine

sgt is a local engine that dispatches coding agents into isolated worktrees. Its state is one
SQLite store, driven by HTTP handlers, background goroutines, retries and restarts. This project
models the protocols and state machines in that state and proves what the code and its comments
promise of them.

Tables are sequences and maps, outside answers (an agent's exit, a gate, git, a provider, a
delivery attempt) are parameters, and a statement of SQL is one step. Where the source updates
something in place, a class holds the same fields and every method is proved equal to a function of
the old state; the theorems are about those functions and about arbitrary sequences of steps. Where
handlers interleave, every read and every write is a step of its own and a handler is a value that
carries what it has read so far, so that a proof about all step sequences is a proof about all
interleavings. What each of those functions computes is itself stated over the rows, by a lemma or
on the method, without the function.

| modules | what they model |
|---|---|
| `ChangeLog`, `Stream`, `Replay`, `WakeUp`, `RunFollow` | the change log, paging and replay, reconnects by last event id (WHATWG HTML Standard, section 9.2.4), and the wake-up protocol of the stream loop and the run waiter |
| `Export` | the export runner and its durable cursor |
| `Delivery`, `DeliveryHistory`, `DeliveryRace`, `DeliveryAlone` | bounded-retry delivery, dead letters, replay, quarantine, one call at a time and interleaved, and that a call left alone does the same in both |
| `AgentPhase`, `GateNames`, `StageEngine`, `StageRuns` | an agent phase's attempts, the stage engine, resume and the corrective loop |
| `Counts`, `Analytics`, `Rotation`, `RetentionStore` | work analytics and the rotation that must not move them |
| `Records`, `Lifecycle`, `LifecycleStore` | runs, bullets and intents with each handler as one step |
| `BulletHistory`, `BulletAlone` | the same tables with handlers interleaved row by row, and that a handler left alone does what it does as one step |
| `Dispatch` | concurrent dispatch requests with idempotency keys |
| `Migration`, `MigrationOutcome`, `Migrator` | the retry-aware upgrade migration |
| `Glob`, `GraphFilter`, `Compaction` | the glob matcher, the graph filter and how the encoder spells what it keeps |
| `Reconcile`, `ChangeId` | smaller algorithmic cores |

Each module's rows hold the columns its code reads, so a run is a smaller record in some of them.

Assumptions used throughout: SQLite serialises single statements, minted ids are unique,
timestamps increase in append order, and a write succeeds unless the model names its failure.

Claims that do not hold of the code as it is, each with exactly when they do:

- A second `DeliverEnvelope` on a key that has rows but no success starts again at attempt 1, so
  numbering across episodes survives it exactly when a success makes the call do nothing
  (`DeliveryHistory.SecondDeliverBreaksNumbering`). A quarantine does not stop it either: the key
  gains a row exactly when it is delivered again (`DeliveryHistory.QuarantineHoldsIff`).
- A delivery is recorded once but its attempt may succeed twice when calls interleave
  (`DeliveryRace.AttemptsMaySucceedTwice`). From any state, another attempt of a key can succeed
  exactly when it has no success row, or a dead letter on top of one, or a caller already past its
  check that has not succeeded (`DeliveryRace.AnotherSuccessIff`); calls that never overlap past
  their checks succeed at most once (`DeliveryRace.ApartSucceedOnce`), and any two that do overlap
  can both (`DeliveryRace.TogetherBothSucceed`).
- "Delivered freezes a history" holds for calls one at a time; interleaved, a key's rows can still
  grow exactly when one of those holds or a quarantine is past its check
  (`DeliveryRace.HistoryGrowsIff`).
- The placeholder test gate's result is ignored, and negative retries make an agent phase return
  without a pass. The passed steps of a repo are a prefix of its list in every world exactly when no
  such step is followed by one that can still pass (`StageRuns.TightIsExact`), and a pass without an
  error means everything passed exactly when there is no such step (`StageRuns.StrictIsExact`).
- "No error means no review objected" holds within one pass (`StageRuns.FreshPassHeardAll`) and
  fails over a resume exactly for lists with a review and retries that are not negative, because the
  review is recorded as passed and skipped (`StageRuns.ObjectionForgottenIff`).
- A run outcome can make an intent satisfied when handlers interleave
  (`BulletHistory.OutcomeCanSatisfy`): exactly when the intent has bullets and the last status
  written for each of them before the outcome read them was merged (`BulletHistory.SatisfiedIff`),
  which takes an observed merge of each between the outcome's own run write and that read
  (`BulletHistory.SatisfiedOnlyByMerges`). With each handler as one step it never can
  (`Lifecycle.SatisfiedIsOutOfReach`).
- A kept element of a filtered graph does not keep its bytes: it is written through the JSON encoder,
  which drops white space and escapes some characters. It keeps its value and its place
  (`GraphFilter.FilteredKeepsExactly`), and its bytes exactly when it has no white space between
  tokens and nothing to escape (`Compaction.CompactIsIdentityIff`). A filter without patterns is the
  identity to the byte exactly on closed documents without null arrays that are in that spelling
  (`GraphFilter.NoPatternsIsIdentityIffClosed`).
- Two pairs of envelope and consumer may share a delivery key, exactly when the longer id is the
  shorter one with ":" and a piece, and the shorter one's consumer is that piece with ":" and the
  longer one's consumer (`Delivery.KeysEqualIff`).
- Exactly-once export needs every cursor save: deliveries outnumber the exportable changes at or
  below the cursor by those of the ticks that were not saved (`Export.DeliveriesCount`).

## Model

| member | source | states |
|---|---|---|
| `ChangeLog.ChangeStore.AppendChange` | internal/store/changes.go:79-97 | an append takes the number above the highest ever assigned, keeps every row, keeps every subscriber, and leaves one pending value in each channel: the one that was there, or the new number in an empty one |
| `ChangeLog.ChangeStore.ListChangesSince` | internal/store/changes.go:103-128 | the page is the held changes above the cursor in order, cut at the limit, with the default limit for a limit that is not positive |
| `ChangeLog.PageMeans` | internal/store/changes.go:103-128 | what a page holds of any table: rows above the cursor, at most the limit of them or 500, and all of them when they are fewer |
| `ChangeLog.PageIsLowest` | internal/store/changes.go:103-128 | of a log pruned only from the front it holds the lowest such rows, ascending |
| `ChangeLog.PageIsNextRun` | internal/store/changes.go:103-128 | over a log pruned only from the front, a page from a covered cursor is the next consecutive numbers, and one that is not full reaches the high-water mark |
| `ChangeLog.PagesCompose` | internal/store/changes.go:103-128 | resuming from the last number of a page loses and repeats nothing |
| `ChangeLog.ChangeStore.CanReplayFrom` | internal/store/changes.go:180-203 | true exactly when the cursor was assigned and every change after it is still held |
| `ChangeLog.CanReplayIsExact` | internal/store/changes.go:137-203 | the watermark and earliest-number tests decide exactly that |
| `ChangeLog.ChangeStore.NotifyChange` | internal/store/changes.go:244-253 | the subscribers stay the same, every channel then holds exactly one value, a channel that held one keeps it, and an empty one holds this number |
| `Stream.UrlDecidesIff` | internal/ui/stream.go:152-167 | a readable last event id decides the position; the URL does exactly when there is none |
| `Stream.WriteChangesSince` | internal/ui/stream.go:196-216 | one page is written in order, the cursor moves to its last number, and "full" means exactly a whole page |
| `Stream.DrainToWait` | internal/ui/stream.go:100-138 | before it waits the loop has written every change above its cursor once, in order, and stands at the high-water mark |
| `Replay.ExactlyOnceInOrder` | internal/ui/stream.go:46-139 | across any appends, prunes, drops and resumes a client holds every change after its base up to its last id, each once and ascending |
| `Replay.BaseMovesOnlyBySnapshot` | internal/ui/stream.go:72-124 | only a snapshot starts a client afresh; every other step keeps what it has |
| `Replay.SnapshotOnlyWhenPruned` | internal/ui/stream.go:72-98 | a resume is answered with a snapshot exactly when a change after its cursor is gone |
| `Replay.ConnectAnswers` | internal/ui/stream.go:72-98 | what a connect is answered with: a snapshot of everything so far exactly when the named position is missing or cannot be replayed |
| `Replay.ReceivingAllCatchesUp` | internal/ui/stream.go:100-138 | receiving all that is on the wire gives a client every change from its base to where its connection stands |
| `Replay.DrainedMeansCaughtUp` | internal/ui/stream.go:100-138 | a client that received everything after a page that was not full holds the whole history above its base |
| `Replay.PruneAboveCursorLosesAChange` | internal/store/changes.go:170-203 | for any log: everything after a cursor is still to come exactly when a prune did not pass it, and past it the next page silently goes on behind the pruned rows |
| `WakeUp.NoLostWakeUp` | internal/ui/stream.go:63-138 | a stream loop waiting on an empty channel has sent every change this process notified, in any interleaving and without any tick |
| `WakeUp.AnnounceIsNotify` | internal/store/changes.go:244-253 | what a notification leaves in the store's channels is what announcing leaves in the inboxes, and it moves nothing else |
| `WakeUp.ReadsThenWaits` | internal/ui/stream.go:100-138 | a reading loop takes up to 500 changes and waits exactly when it took fewer, which is when it stands at the end of the log |
| `WakeUp.WaiterMissesNothingNotified` | internal/mcp/run_follow.go:166-249 | a waiter blocked on an empty channel read a live row, and every write to its run since that read is still un-notified and in its writer's hands; without one the row is what it read |
| `WakeUp.EndingWriteIsUnheard` | internal/mcp/run_follow.go:172-248 | if its run is finished or gone meanwhile, the one write that ended it has not been notified to this process |
| `WakeUp.QuietWaiterIsRight` | internal/store/changes.go:218-253 | once this process has notified all its writes, such a waiter's run is live or was ended by another process |
| `WakeUp.TurnOfWait` | internal/mcp/run_follow.go:166-249 | one turn of a wait: a missing row, then one of the five terminal statuses, then the bound, and otherwise it blocks |
| `RunFollow.RunWait` | internal/mcp/run_follow.go:166-249 | the wait answers at the first turn whose row is missing, is passed, failed, cancelled, timed out or interrupted, or whose bound is over, with what the row then said, and a terminal row beats the bound |
| `WakeUp.AnswerIsTheRow` | internal/mcp/run_follow.go:182-230 | in every run a wait's answer is what the row held at its own last read: finished with a terminal row, not found without one, out of time with a live one |
| `WakeUp.HeldStatusIsAccountedFor` | internal/ui/stream.go:169-194 | a status a client holds is current, or a change for the run is above its cursor, or a write of it is not appended yet |
| `WakeUp.QuietFollowerIsCurrent` | internal/store/store.go:847-870 | with every write appended, a client at the end of the log holds current statuses |
| `WakeUp.RowsBeforeSequenceWouldBeStale` | internal/ui/stream.go:169-194 | reading the rows before the sequence could leave a stale status that nothing corrects |
| `Export.Runner.Tick` | internal/export/runner.go:66-107 | one tick hands over the exportable changes of its page up to the first failure and saves a cursor past what it got through |
| `Export.TickMeans` | internal/export/runner.go:66-107 | a tick hands over, in order and with success, exactly the intent and bullet changes between its cursor and where it got to, and stops only at the end of the log, after 500 changes, or before one that was not delivered |
| `Export.CursorNeverDecreases` | internal/export/runner.go:66-107 | the cursor never goes back |
| `Export.BelowCursorIsDelivered` | internal/export/runner.go:66-107 | every intent or bullet change at or below the cursor was delivered, whatever failed or crashed |
| `Export.OnlyTheTwoChannels` | internal/export/runner.go:79-84 | whatever was delivered is an intent or a bullet change that was appended |
| `Export.FirstDeliveriesAscend` | internal/export/runner.go:66-107 | first deliveries happen in ascending order and skip no exportable change |
| `Export.ExactlyOnceWhenSavesSucceed` | internal/store/store.go:1871-1890 | without crashes or failed saves each is delivered exactly once |
| `Export.DeliveriesCount` | internal/export/runner.go:96-106 | deliveries outnumber the exportable changes at or below the cursor by exactly those of the unsaved ticks |
| `Export.ExactlyOnceIff` | internal/export/runner.go:66-107 | each is delivered exactly once, and nothing else, exactly when no tick that handed something over missed its save |
| `Delivery.DeliveryStore.Insert` | internal/store/delivery.go:37-53 | the partial unique index refuses exactly a second success row of a key |
| `Delivery.DeliveryStore.DeliverRetryLoop` | internal/store/delivery.go:283-315 | the rows, the number of attempts and the last error of a bounded retry loop from any starting number |
| `Delivery.DeliveryStore.DeliverEnvelope` | internal/store/delivery.go:345-372 | nothing after a success, else up to three attempts from number one; a critical call answers an error exactly when it appended a dead letter, with its text, and any other call answers none |
| `Delivery.DeliveryStore.ReplayDelivery` | internal/store/delivery.go:391-444 | replays a dead letter from one above the highest attempt and answers by the row that ends it, is a no-op after a dead letter was resolved and refused otherwise |
| `Delivery.DeliveryStore.QuarantineDelivery` | internal/store/delivery.go:452-468 | quarantines exactly a dead letter, with its row, and is refused otherwise |
| `Delivery.KeysEqualIff` | internal/store/delivery.go:192-196 | exactly which pairs of envelope and consumer share a key |
| `Delivery.IndexedMeansOneSuccess` | internal/store/delivery.go:51-53 | through the index no key holds two success rows |
| `Delivery.DeliverMeans` | internal/store/delivery.go:345-372 | the rows, answer and attempts of a delivery, attempt by attempt, over the rows alone |
| `Delivery.ReplayMeans` | internal/store/delivery.go:391-444 | the same of a replay, with the number it starts from |
| `DeliveryHistory.HistoryIsWellFormed` | internal/store/delivery.go:283-468 | one delivery with any replays and quarantines: episodes of pending, up to two retrying, then delivered or dead letter, numbered on, and as many attempts as the highest number |
| `DeliveryHistory.DeliveredFreezes` | internal/store/delivery.go:198-213 | delivered freezes a history: no later call adds a row or an attempt |
| `DeliveryHistory.QuarantineHoldsIff` | internal/store/delivery.go:391-468 | after a quarantine no later replay or quarantine adds a row; the key gains one exactly when it is delivered again |
| `DeliveryHistory.SecondDeliverBreaksNumbering` | internal/store/delivery.go:345-372 | a second delivery keeps the numbering exactly when a success makes it do nothing |
| `DeliveryRace.AtMostOneSuccess` | internal/store/delivery.go:51-53 | with every read and insert interleaved, no key ever holds two success rows |
| `DeliveryRace.HistoryOnlyGrows` | internal/store/delivery.go:152-174 | the log is insert-only in every interleaving |
| `DeliveryRace.OneCallerSucceeds` | internal/store/delivery.go:283-444 | at most one caller of a key is told that its own delivery succeeded |
| `DeliveryRace.AnotherSuccessIff` | internal/store/delivery.go:283-444 | from any state, exactly when another attempt of the key can still succeed |
| `DeliveryRace.ApartSucceedOnce` | internal/store/delivery.go:345-444 | calls of one key that never overlap past their checks succeed at most once |
| `DeliveryRace.TogetherBothSucceed` | internal/store/delivery.go:283-318 | two callers of a key past their checks together can both succeed on their own |
| `DeliveryRace.AttemptsMaySucceedTwice` | internal/store/delivery.go:283-372 | from the empty store two deliveries of any key reach two successful attempts, one recorded and one refused by the index |
| `DeliveryRace.HistoryGrowsIff` | internal/store/delivery.go:283-468 | from any state, exactly when the history of a key can still grow, a success row or not |
| `DeliveryAlone.DeliverAlone` | internal/store/delivery.go:283-372 | a delivery that no other comes between writes the rows, and is given the answer, of the call taken as one step |
| `DeliveryAlone.ReplayAlone` | internal/store/delivery.go:391-444 | so does a replay |
| `DeliveryAlone.QuarantineAlone` | internal/store/delivery.go:452-468 | and a quarantine |
| `AgentPhase.PhaseRunner.RunAgentPhase` | internal/runner/runner.go:501-774 | the phase records, deliveries and result of one call, attempt by attempt; it has no error exactly when the last attempt passed and its envelope was delivered |
| `AgentPhase.AttemptsFollow` | internal/runner/runner.go:545-774 | each attempt is recorded as it ended, a failed one is followed by another while retries are left, each that exited hands its envelope over, and the result is that of the last |
| `AgentPhase.AttemptAccounting` | internal/runner/runner.go:545-774 | between one and retries + 1 attempts, all before the last failed, failed last only with retries used up, at most three delivery tries each |
| `AgentPhase.RecordsAreExact` | internal/runner/runner.go:501-774 | records 1..k without a gap, and none left running exactly when retries are not negative |
| `GateNames.SortedGateNames` | internal/dag/engine.go:336-346 | every gate name once, in ascending order |
| `GateNames.SortedIsUnique` | internal/dag/engine.go:325-346 | the order in which the map is ranged over cannot show |
| `StageEngine.Engine.PhasePassed` | internal/dag/engine.go:54-68 | true exactly on a resume for a step with a passed record |
| `StageEngine.Engine.RunStage` | internal/dag/engine.go:440-588 | the nested loops of a stage run the flattened step list of each repo and stop at the first failure |
| `StageEngine.StepsOfMeans` | internal/dag/engine.go:430-588 | a repo's steps are those of each phase of its pipeline in turn, its gates once each in ascending order, and plan, build and test without a pipeline |
| `StageEngine.WhatStops` | internal/dag/engine.go:524-588 | what a step that is executed records, and exactly when it ends the stage |
| `StageEngine.StageStopsAt` | internal/dag/engine.go:440-588 | a stage goes through its repos in order and ends at the first that is not configured, cannot be prepared or stops |
| `StageRuns.RunFixCycles` | internal/ui/gatefix.go:132-226 | the corrective loop within its limit, cycle after cycle, reading the same repo's last failure in each |
| `StageRuns.FixLoop` | internal/ui/gatefix.go:145-226 | the loop goes on after every cycle that does not pass; it concludes exactly by one that passes without a cancel, stops exactly by a cancel, and gives up only with the limit used up, unless nothing had failed |
| `StageRuns.LastFailedPhase` | internal/ui/gatefix.go:256-274 | the most recent failed record of the repo |
| `StageRuns.PassedStepsArePrefix` | internal/ui/gatefix.go:145-244 | through a fresh pass and any resumes and corrective cycles a repo's passed steps are a prefix of its list |
| `StageRuns.TightIsExact` | internal/dag/engine.go:524-586 | exactly which step lists keep that prefix in every world |
| `StageRuns.TightWithRetries` | internal/dag/engine.go:541-543 | without negative retries that is: no placeholder before the end, and none at all for completeness |
| `StageRuns.NoErrorMeansAllPassed` | internal/dag/engine.go:440-588 | a stage without an error leaves the full list of each of its repos passed |
| `StageRuns.ConcludedMeansAllPassed` | internal/ui/gatefix.go:187-221 | a corrective loop that concludes passed leaves the full list of its repo passed |
| `StageRuns.ResumeRepeatsNothing` | internal/dag/engine.go:48-68 | a resume records nothing for a step that had passed |
| `StageRuns.StrictIsExact` | internal/dag/engine.go:524-586 | exactly when no error means everything passed |
| `StageRuns.FreshPassHeardAll` | internal/dag/engine.go:544-561 | a fresh pass without an error ran every review and none had a blocking finding |
| `StageRuns.ObjectionForgottenIff` | internal/dag/engine.go:440-588 | exactly for which step lists a resume can end without an error after a review objected, without running it again |
| `Counts.TotalFrom` | internal/store/analytics.go:184-207 | the sum of a map's counters does not depend on the order of ranging over it |
| `Analytics.ComputeWorkAnalytics` | internal/store/analytics.go:138-209 | under every key the answer is the live runs of the query plus its rotated ones; bullets from live rows alone |
| `Analytics.LiveMeans` | internal/store/analytics.go:138-209 | each live run adds one exactly to the counts it falls under: of its own project or of all, by its own values |
| `Analytics.ProvenanceMeans` | internal/store/analytics.go:138-209 | a run's work is put down to the first of its phases that names an agent, and to nobody without one |
| `Rotation.RotationIsExact` | internal/store/retention.go:224-322 | a rotation takes exactly the eligible runs and leaves bullets, intents and every other run's phases, envelopes and deliveries as they were |
| `Rotation.RotationTakes` | internal/store/retention.go:224-322 | a run goes exactly when it is of the project, passed, failed, cancelled or interrupted, created before the cutoff, and without an intent or with every bullet of it merged; its phases, envelopes and deliveries go with it, and the answer is how many went |
| `Rotation.LaterCutoffSubsumes` | internal/store/retention.go:260-296 | a rotation followed by one with a later cutoff is the later one alone |
| `Rotation.FoldMeans` | internal/store/retention.go:332-378 | a fold touches its project's rollup alone and adds one to each of its counters that the run falls under |
| `Rotation.RotationsConserve` | internal/store/retention.go:260-378 | any rotations of any projects with any cutoffs leave every count of every query, and every rollup's four statuses and breakdowns sum to its runs |
| `Rotation.SecondRotationTakesNothing` | internal/store/retention.go:260-296 | rotating again with the same cutoff finds nothing |
| `Rotation.FoldingTimedOutLosesIt` | internal/store/store.go:1230-1240 | why a timed out run must not be folded: its status has no place in a rollup |
| `RetentionStore.Store.RotateProject` | internal/store/retention.go:260-296 | a run is gone exactly when it is of the project, of one of the four statuses, created before the cutoff, and without an intent or with all its bullets merged; the answer is the number gone |
| `RetentionStore.Store.FoldRunIntoRollup` | internal/store/retention.go:332-378 | one run added to its project's rollup row, which is created when missing |
| `RetentionStore.Store.RotateThenCompute` | internal/store/analytics.go:184-207 | the code itself answers the same before and after a rotation |
| `Records.BlockedReasonForRun` | internal/ui/dispatch.go:701-731 | the last envelope that names a reason wins, and blocked never goes without one |
| `LifecycleStore.Store.AdvanceBulletsForRun` | internal/store/store.go:1655-1682 | every bullet of the run's intent moves, those already there are skipped, and the intent is derived again |
| `LifecycleStore.Store.SealBulletForRun` | internal/store/store.go:1721-1744 | seals the repo's bullet only from green and writes nothing on a refusal |
| `LifecycleStore.Store.RecordTerminalRun` | internal/ui/dispatch.go:617-652 | a terminal status, its bullets and its intent, blocked with the reason the run's envelopes give and otherwise with none |
| `LifecycleStore.Store.HandleRunResume` | internal/ui/run_lifecycle.go:87-175 | resumes only resumable runs and clears the blocked bullets of targeted repos |
| `LifecycleStore.Store.HandleApprovePlan` | internal/ui/plans.go:55-127 | approves only a proposed plan, releasing all its bullets and starting one run |
| `LifecycleStore.Store.HandleCheckMergeStatus` | internal/ui/server.go:639-823 | each bullet of the run's intent that was sealed with a URL, or green and found, is merged exactly by a merge into the run's base, blocked exactly by any other merge, and sealed while open or unknown; every other is unchanged |
| `Lifecycle.CheckMeans` | internal/ui/server.go:748-823 | the same of the one-step check, bullet by bullet |
| `Lifecycle.OutcomeMeans` | internal/store/store.go:1655-1682 | what each run outcome does to the run, to every bullet of its intent and to the intent, row by row |
| `Lifecycle.SealMeans` | internal/store/store.go:1721-1744 | the one bullet a seal moves, and the URL it then gets |
| `Lifecycle.ResumeMeans` | internal/ui/run_lifecycle.go:87-175 | a resume is refused exactly for a run that is missing, running or passed, and clears exactly the blocked bullets of the targeted repos |
| `Lifecycle.PlansMean` | internal/ui/plans.go:55-162 | what approving and rejecting a proposed plan change, and that they change nothing else |
| `Lifecycle.DispatchMeans` | internal/ui/dispatch.go:256-331 | a dispatch opens one intent in progress, its run and one pending bullet for each repository |
| `Lifecycle.BlockedMeansReason` | internal/ui/dispatch.go:617-731 | after any handlers a bullet has a blocked reason exactly when it is blocked |
| `Lifecycle.UnapprovedPlansAreInert` | internal/ui/plans.go:55-162 | a plan still proposed or rejected has no run, and none of its bullets has moved |
| `Lifecycle.AbandonedStays` | internal/ui/plans.go:135-162 | a rejection is for good |
| `Lifecycle.SatisfiedIsOutOfReach` | internal/store/store.go:1753-1794 | with each handler as one step no intent ever reads satisfied |
| `BulletHistory.SealedAfterGreen` | internal/store/store.go:1721-1744 | every sealed is preceded by a green of the same bullet, however stale the read |
| `BulletHistory.GreenAfterPassed` | internal/ui/dispatch.go:639-655 | every green is preceded by a passed status on a run naming the bullet's intent |
| `BulletHistory.MergedAfterSealed` | internal/ui/server.go:748-823 | every merged is preceded by a sealed, a non-empty URL and that URL seen merged into a run's base |
| `BulletHistory.SatisfiedIff` | internal/store/store.go:1746-1794 | an outcome makes an intent satisfied exactly when bullets were created for it and each was last written merged before the outcome read them |
| `BulletHistory.SatisfiedOnlyByMerges` | internal/store/store.go:1655-1794 | which takes a merge of every bullet read between the outcome's run write and its read |
| `BulletHistory.OutcomeAloneNeverSatisfies` | internal/store/store.go:1776-1794 | without a merge in that window it never does |
| `BulletHistory.OutcomeCanSatisfy` | internal/store/store.go:1655-1682 | an interleaving, for any intent, in which the outcome of a passed run itself writes satisfied |
| `BulletHistory.RowsHaveHistory` | internal/store/store.go:1697-1712 | a green, sealed or merged row was written as such |
| `BulletAlone.OutcomeAlone` | internal/store/store.go:1655-1794 | a run outcome that no handler comes between leaves the tables of the outcome taken as one step |
| `BulletAlone.CheckAlone` | internal/ui/server.go:639-823 | so does a merge check |
| `BulletAlone.SealAlone` | internal/store/store.go:1721-1744 | a seal with its change request |
| `BulletAlone.ResumeAlone` | internal/ui/run_lifecycle.go:87-175 | a resume |
| `BulletAlone.ApproveAlone` | internal/ui/plans.go:55-127 | and an approval |
| `Dispatch.OneRunPerKey` | internal/store/store.go:510-522 | of any concurrent requests with one key exactly one gets a run |
| `Dispatch.AnswersAgree` | internal/ui/dispatch.go:380-413 | all successful answers to a key name the same run |
| `Dispatch.LosersWriteNothing` | internal/ui/dispatch.go:289-299 | a repeat writes no run, intent or bullet |
| `Dispatch.RepeatIsAnswered` | internal/ui/dispatch.go:380-413 | a repeat is answered with the stored run only if that is of the change it resolved or its own change was found, and refused only when it was not |
| `Dispatch.NoneWaits` | internal/ui/dispatch.go:244-331 | whatever others do, each step of its own brings a request nearer to its answer |
| `Dispatch.WinnerWroteItAll` | internal/ui/dispatch.go:301-331 | the winner has its run, its intent and one bullet for each repository, at positions 1..n in target order |
| `Dispatch.KeylessNeverDeduplicate` | internal/store/store.go:795-805 | requests without a key each get their own run |
| `Dispatch.KeylessIff` | internal/store/store.go:764-805 | a request has no key exactly when what it sent is blank, and otherwise its key is that without the white space at its ends |
| `Dispatch.NothingBesides` | internal/ui/dispatch.go:256-331 | every intent and bullet belongs to a run some request won |
| `Dispatch.TrimTwice` | internal/store/store.go:764-768 | trimming a key again gives the same key |
| `Migration.RunNeverOverwrites` | internal/upgrademigrate/migrate.go:33-331 | no run changes a source or an existing destination, and what is new equals its source unless its own copy broke and the run failed |
| `Migration.VerifiedIsForGood` | internal/upgrademigrate/migrate.go:43-47 | a verified sentinel makes every later run the identity, whatever is edited |
| `Migration.DivergedIsNeverOurs` | internal/upgrademigrate/migrate.go:258-331 | a worktree once reported as diverged is never again treated as ours while it exists |
| `Migration.VerifiedMeans` | internal/upgrademigrate/migrate.go:339-420 | what a verified run vouches for: every source item equal, in the same git state or counted alike, or reported |
| `Migration.RetryCopiesNothing` | internal/upgrademigrate/migrate.go:74-87 | running again without edits copies nothing |
| `MigrationOutcome.WithoutWork` | internal/upgrademigrate/migrate.go:43-72 | with a verified sentinel, or without a file, a database and worktrees at the sources, a run answers the sentinel it found and touches nothing |
| `MigrationOutcome.RunMeans` | internal/upgrademigrate/migrate.go:33-135 | any other run ends well exactly when all it needs does; it then reports exactly what is there and not its own, leaves every source at its destination, and is verified exactly on a condition over what was there before |
| `MigrationOutcome.FleetMeans` | internal/upgrademigrate/migrate.go:258-331 | exactly which worktrees are copied or taken over, which are reported, and what is remembered of each |
| `Migrator.FileSystem.Run` | internal/upgrademigrate/migrate.go:33-135 | the code's order of checks, copies, verification and sentinel |
| `Migrator.FileSystem.MigrateConfig` | internal/upgrademigrate/config.go:34-75 | copies what is missing, takes what is identical, reports what differs |
| `Migrator.FileSystem.MigrateStoreRetryAware` | internal/upgrademigrate/migrate.go:158-207 | an existing database is ours only while its hash is the recorded one |
| `Migrator.FileSystem.MigrateFleetRetryAware` | internal/upgrademigrate/migrate.go:258-331 | an existing worktree is ours only while git says what it said after the copy |
| `Glob.MatchIsExact` | internal/graphify/exclude.go:178-199 | a name matches exactly when it splits into pieces that fit the pattern's segments |
| `Glob.MatchOfConcat` | internal/graphify/exclude.go:178-199 | matching distributes over pattern concatenation |
| `Glob.DoubleStarCollapses` | internal/graphify/exclude.go:183-191 | repeated double stars are one |
| `Glob.PlainIsPointwise` | internal/graphify/exclude.go:192-199 | without a double star matching is segment by segment |
| `Glob.MatchByTable` | internal/graphify/exclude.go:178-199 | a polynomial table gives the recursion's answer |
| `Glob.SplitRoundTrip` | internal/graphify/exclude.go:169-171 | splitting a name loses nothing |
| `GraphFilter.FilterGraphFile` | internal/graphify/exclude.go:24-159 | the loops keep exactly what the filter keeps and write it through the encoder, the arrays twice; a document that cannot be read fails |
| `GraphFilter.FilterMeans` | internal/graphify/exclude.go:24-126 | exactly when a document can be filtered, and what is then left: what no pattern matches by its own file, links with both ends left, hyperedges with two places left, and no array made or lost |
| `GraphFilter.FilterComposes` | internal/graphify/exclude.go:24-126 | filtering by P then Q is filtering by both |
| `GraphFilter.FilterCommutes` | internal/graphify/exclude.go:24-126 | in either order |
| `GraphFilter.FilterIsIdempotent` | internal/graphify/exclude.go:24-126 | filtering again changes nothing, to the byte |
| `GraphFilter.FilteredKeepsExactly` | internal/graphify/exclude.go:47-159 | what is written spells, in order and as often as they were there, exactly the elements that no pattern matches and that have their endpoints, and every other key |
| `GraphFilter.FilteredIsClosed` | internal/graphify/exclude.go:64-109 | every link's endpoints and at least two of every hyperedge's survive |
| `GraphFilter.NoPatternsIsIdentityIffClosed` | internal/graphify/exclude.go:12-23 | without patterns it is the identity to the byte exactly on closed graphs without null arrays whose pieces are in the encoder's spelling |
| `GraphFilter.NoPatternsOnlySpellsIff` | internal/graphify/exclude.go:12-23 | and it only re-spells a document exactly when it is closed and without null arrays |
| `GraphFilter.WrittenIsReadBack` | internal/graphify/exclude.go:132-159 | reading what was written gives the elements with the values they had |
| `Compaction.CompactIsStable` | internal/graphify/exclude.go:145-159 | compacting what was compacted changes nothing |
| `Compaction.CompactIsIdentityIff` | internal/graphify/exclude.go:118-121 | a piece keeps its bytes exactly when it has no white space between tokens and nothing to escape |
| `Compaction.CompactSaysTheSame` | internal/graphify/exclude.go:145-159 | the encoder changes how a piece is spelled and no token of what it says, its escapes included |
| `Compaction.ReadersAgree` | internal/graphify/exclude.go:132-159 | so every reader that goes by the tokens reads back what was written |
| `Reconcile.Store.ReconcileOrphanedRuns` | internal/store/reconcile.go:53-140 | the chunked loops do one exact reconciliation and count what moved |
| `Reconcile.Store.RunningPhases` | internal/store/reconcile.go:83-118 | chunks of 500 collect every orphan's running phases once |
| `Reconcile.ReconciledIsExact` | internal/store/reconcile.go:30-52 | every running run and its running phases become interrupted and nothing else changes |
| `Reconcile.OneChangePerRow` | internal/store/reconcile.go:143-192 | exactly one change for each moved row, and the counts match |
| `Reconcile.RunBeforeItsPhases` | internal/store/reconcile.go:120-138 | a run's change comes before its phases' |
| `Reconcile.SecondCallDoesNothing` | internal/store/reconcile.go:77-81 | a second call moves and appends nothing |
| `ChangeId.DeriveChangeID` | internal/ui/openspec.go:98-131 | the loop with its pending hyphen joins the words of the brief and caps them: at most 48 lower case letters, digits and single inner hyphens, and none exactly without an ASCII letter or digit |
| `ChangeId.DerivedMeans` | internal/ui/openspec.go:93-131 | a prefix of the joined words, at most 48 long, no stray hyphens, empty exactly without an ASCII letter or digit |
| `ChangeId.CapCutsAtLastHyphen` | internal/ui/openspec.go:120-131 | the cut is right before the last hyphen of the first 48 characters, or inside a longer first word |
| `ChangeId.WordsAreRuns` | internal/ui/openspec.go:98-118 | the words are the maximal runs of ASCII letters and digits of the brief, all of them, from left to right, in lower case |
| `ChangeId.DerivedValidates` | internal/ui/openspec.go:81-91 | a derived id passes validation, and holds no separator and no dot |
| `ChangeId.ValidatesMeans` | internal/ui/openspec.go:81-91 | an id is refused exactly when it is empty, holds a separator or two dots in a row, or is a single dot |
| `ChangeId.DerivingAgainChangesNothing` | internal/ui/openspec.go:93-131 | deriving an id from an id gives that id |

## Left out

- The snapshot's cap of 50 runs: a snapshot is any subset of the runs, so a run outside it is not claimed to be known.
- `SetRunBaseBranch` and rotation change rows without appending a change, so staleness is claimed for run status through the four announcing writers only.
- Keep-alive and fallback tickers, deadlines and timeouts as time: every tick is an optional step and a deadline an outcome; liveness is not claimed.
- Several export runners sharing one cursor: one runner is modelled.
- Deliveries: back-off times, error classes and recovery instructions, which no branch reads.
- AgentPhase.PhaseRunner.RunAgentPhase: does not model the artifacts, the prompt, the envelope's contents or the omitted fix-cycle number of a cancelled record; none decides an outcome.
- A failed read of the phase records, which makes the engine run a step again: reads of the store succeed.
- A step named "fix", or two steps of one repo with one name: the records could not tell them apart, and the prefix claims are for distinct names.
- Worktree creation, handoff injection, seeding and commits: each is one outcome of preparing a repo.
- Red and green gate evidence and shipping gates: separate records that no modelled transition reads.
- A crash between folding a run and deleting it: fold and delete are taken together, so the double count of such a crash is not modelled.
- Rotation of artifacts, and the JSON encoding of rollups.
- Deleting a run between a lost claim and reading its winner; `Dispatch` has no deletes.
- Slugs, wiki pages and change resolution on disk: outcomes or absent.
- Deletion of runs in `BulletHistory`; there a run's intent and a bullet's intent never change.
- MigrationOutcome.RunMeans: for listings that name no file and no worktree twice, as a directory's do.
- Migration.RunNeverOverwrites: a destination is a file, a database or a worktree with opaque bytes; permissions, symlinks and directories at a file's place are not modelled.
- The order of a document's top-level keys and the text between its pieces: the encoder writes them sorted and compact, and the model compares documents piece by piece.
- `path.Match` within one segment, SHA-256, SQLite's snapshot and schema upgrade, and git state are functions of the bytes given to them.
- SQL text, indexes other than the two unique ones, HTTP and JSON plumbing, the MCP tool table, the command line, static assets and the dashboard.
- Redaction, prompts, naming, configuration resolution, provider detection and fleet cleanup: one-branch facts that would add only easy members.
