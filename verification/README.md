# TideMux: a verified model of its ledger, routing, streaming and stores

TideMux is a local gateway between clients and model providers. This project models the parts of it whose
correctness no single branch settles, and proves what they keep over every run.

* **Reconciliation ledger** (`ReconciliationSchema`, `ReconciliationTriggers`, `ReconciliationReport`,
  `ReconciliationBalances`, `ReconciliationQueries`, `ReconciliationMeaning`, with sums in `Sums`). Three views define
  what the reconciliation tables mean; four insert triggers keep copies of them row by row; the report reads only the
  copies, and its figures are told again from the inserted rows alone. A committed transaction is one atomic step,
  tables are maps, money is `real`. Nothing in the ledger turns foreign keys on, so a token comparison or a statement
  may arrive before its audit row: every order is covered.
* **Budget** (`Budget`, `BudgetDecisions`, `BudgetOvershoot`). Admission looks at settled spend only, so the guarantee
  is a bound on the overshoot, and the bound is shown not to be slack.
* **Recovery protocol**: `Availability`, `AvailabilityRuns`, `AvailabilityRest`, `AvailabilityFence`,
  `AvailabilityRoom`, `AvailabilityWitness`, `AvailabilityState` (leases that probe failed providers and models),
  `RouteRecovery`, `RouteOutcome` (one request through both claims), `KeyPool`, `KeyPoolAdmission`, `KeyPoolRecovery`,
  `KeyPoolWitness`, `ProviderKeyPools` (keys, and the server wait several pools share), `AutoChain`, `AutoChainRest`,
  `AutoChainState` (the configured order of entries and its reload), and `RecoveryBackoff`. Every method that runs
  under a lock is one atomic step; requests and reloads interleave them in any order. Each protocol has a pure step
  function, theorems over all runs of steps that are stated from the records' fields, and a class whose methods are
  proved to perform exactly those steps.
* **Streaming** (`StreamMessages`, `OpenAIStreamTranslator`, `AnthropicStreamTranslator`, `StreamMeaning`,
  `AnthropicStreamMeaning`, `StreamRoundTrip`, `StreamBrackets`, `StreamReader`, `StreamUpstream`, `StreamSignals`,
  `StreamRendering`, `StreamDelivery`, `StreamOutcome`, `StreamPassThrough`, with `Text`). A reader cuts and judges
  the frames of the upstream, two translators carry state across them, each side has an assembler that says what a
  message means, and a gate withholds the completion signal, read off the text itself, until the audit row is in.
* **Bounded stores**: `PromptCache`, `PromptCacheMeaning` (a recency list, a map and a byte counter against a plain
  time-stamped store) and `ContentLog`, `ContentLogAdmission`, `ContentLogWriter` (a lossy queue, one writer, and
  terminal records that claim completeness).

Instants and durations are integers (nanoseconds in the recovery protocol, where 0 is the zero time). The identity of
an object that the Go code compares by pointer is a number in the model: records of the availability table and failure
records of the chain carry an `id`, leases are numbered. Clocks, randomness, outcomes of calls, of disk operations and
of encoders are parameters.

Results worth knowing before reading the code:

* An older completion can erase a newer failure. `AvailabilityFence.NewerRecordIsLostOnlyToMakeRoom` says exactly when:
  on a full table, when a target that has no record, and had none when the lease dispatched, is given one, the record
  that makes room is lost, be it newer and a failure. It is deleted, or, if it stood at the lease's own model, written
  anew as healthy. `AvailabilityRoom.NewerRecordCanBeLost` tells it from the table before the call, and
  `AvailabilityWitness.OlderSuccessErasesNewerFailure` gives a run that ends in both.
* `rateLimitedAt` returns the key's delay as it was before the long-streak branch pushes every key to 24 hours. The
  returned delay is too short if and only if ten rejections in a row went before, every other key cools, and neither the
  key's cooldown nor its new delay is a day (`KeyPool.KeyDelayIsExact`). `KeyPoolWitness.ReportedKeyDelayCanBeShort` is a
  run of two keys, rejected five times each, after which sixteen minutes are returned for a day.
* For an OpenAI client the translated frame of a message delta already completes the turn, so it and everything after
  it is held; for an Anthropic client only the terminal does (`StreamRendering`).
* Events translated from an OpenAI stream are properly bracketed exactly when each tool call's fragments are
  contiguous (`StreamBrackets.BracketedIffContiguous`; two interleaved calls in
  `StreamBrackets.InterleavedCallsAreNotBracketed`); the message they assemble to is right in any case.
* The balance interval window is closed at the end of the period while other period filters are half-open; the
  telescoping theorem is stated for that closed window, as the code has it.
* A failed hand-off of a file at the minute tick counts as a write failure without marking any capture; completeness
  claims stay true, because the events of that file were written.

## Model

| member | source | states |
|---|---|---|
| ReconciliationSchema.PreviousIs | internal/ledger/reconciliation_schema.go:72-77 | the snapshot picked as predecessor is the latest earlier one of the same currency |
| ReconciliationSchema.PreviousExists | internal/ledger/reconciliation_schema.go:72-77 | a snapshot has a predecessor whenever an earlier one of its currency exists |
| ReconciliationTriggers.AuditTriggerMaintains | internal/ledger/reconciliation_schema.go:78-82 | after an audit insert, however late, all three copies equal the views |
| ReconciliationTriggers.AuditMovesInterval | internal/ledger/reconciliation_schema.go:81 | adding one audit to the interval rows in place gives the recomputed sums and unknown counts |
| ReconciliationTriggers.TokenTriggerMaintains | internal/ledger/reconciliation_schema.go:83-85 | a token comparison updates at most its own request row and the copies equal the views, before or after its audit |
| ReconciliationTriggers.StatementTriggerMaintains | internal/ledger/reconciliation_schema.go:86-89 | after a statement insert all three copies equal the views, although only its own row and one request's count and amount were touched |
| ReconciliationTriggers.SnapshotKeepsPrevious | internal/ledger/reconciliation_schema.go:90-92 | a snapshot inserted anywhere in time moves the predecessor of its successor only |
| ReconciliationTriggers.BalanceTriggerRows | internal/ledger/reconciliation_schema.go:90-92 | the trigger rewrites the rows of the new snapshot and of its successor and no other |
| ReconciliationTriggers.BalanceTriggerMaintains | internal/ledger/reconciliation_schema.go:90-92 | after a balance insert the copies equal the views |
| ReconciliationTriggers.TriggerMaintainsViews | internal/ledger/reconciliation_schema.go:56-92 | each accepted insert with its trigger takes views to views |
| ReconciliationTriggers.StepMaintainsViews | internal/ledger/reconciliation_schema.go:56-92 | a transaction, accepted or refused, keeps copies equal to views |
| ReconciliationTriggers.MaterializedTablesEqualViews | internal/ledger/reconciliation_schema.go:56-92 | after any sequence of inserts in any order the three copies equal the three views |
| ReconciliationTriggers.TablesEqualViewsFromEmpty | internal/ledger/reconciliation_schema.go:56-92 | in particular from an empty ledger, where every row is valid |
| ReconciliationMeaning.RowsAreProper | internal/ledger/reconcile.go:79-93 | after any inserts every line has a proper period, a currency and no negative amount, and comparisons and balances are as proper |
| ReconciliationTriggers.ArrivalOrderIsIrrelevant | internal/ledger/reconciliation_schema.go:56-92 | inserts into different tables commute, source and copies alike |
| ReconciliationMeaning.MatchedMeans | internal/ledger/reconciliation_schema.go:56-65 | a line is matched if and only if it names an audited request of its currency, of its model if it has one, inside its period |
| ReconciliationMeaning.StatusMeans | internal/ledger/reconciliation_schema.go:56-65 | any other status names the first thing that is wrong |
| ReconciliationMeaning.MatchedInRuns | internal/ledger/reconciliation_schema.go:56-92 | after any inserts in any order a line is held as matched if and only if it was billed for an audited request |
| ReconciliationTriggers.SelectPrevious | internal/ledger/reconciliation_schema.go:72-77 | the scan finds the predecessor the view defines, or reports that there is none |
| ReconciliationTriggers.SelectNext | internal/ledger/reconciliation_schema.go:90-92 | the scan finds the successor whose row must be rewritten |
| ReconciliationTriggers.SelectInterval | internal/ledger/reconciliation_schema.go:72-77 | the loops compute the interval row the view defines |
| ReconciliationTriggers.SelectRequest | internal/ledger/reconciliation_schema.go:56-71 | the loop computes the request row the view defines |
| ReconciliationTriggers.BackfillRequests | internal/ledger/reconciliation_schema.go:97-108 | filling the request table row by row gives the request view |
| ReconciliationTriggers.BackfillIntervals | internal/ledger/reconciliation_schema.go:97-108 | filling the interval table row by row gives the interval view |
| ReconciliationTriggers.Ledger.Open | internal/ledger/reconciliation_schema.go:11-110 | opening leaves copies equal to views, whether they are filled now or were before |
| ReconciliationTriggers.Ledger.Backfill | internal/ledger/reconciliation_schema.go:97-108 | the one-time backfill makes the copies equal the views and changes no source row |
| ReconciliationTriggers.Ledger.AppendAudit | internal/ledger/reconciliation_schema.go:78-82 | performs exactly the audit transaction; false and no change for a known request |
| ReconciliationTriggers.Ledger.AppendTokenComparison | internal/ledger/reconcile.go:79-85 | performs exactly the token transaction; false and no change for an invalid or repeated one |
| ReconciliationTriggers.Ledger.AppendStatementLine | internal/ledger/reconcile.go:197-201 | performs exactly the statement transaction; false and no change for an invalid line |
| ReconciliationTriggers.Ledger.AppendBalanceSnapshot | internal/ledger/reconcile.go:87-93 | performs exactly the balance transaction; false and no change for an invalid snapshot or a second one at one instant |
| Sums.SumRows | internal/ledger/reconciliation_schema.go:56-77 | adding rows in any order gives their total |
| Sums.TotalByGroup | internal/ledger/reconcile.go:334-359 | summing per request and then over requests gives the sum over lines |
| ReconciliationReport.CompleteIff | internal/ledger/reconcile.go:404-414 | coverage is complete if and only if there are contained lines, none overlaps the edge, all are matched, and requests of the period are the matched ones with known cost |
| ReconciliationReport.CompleteMatchesExactly | internal/ledger/reconcile.go:260-359 | under complete coverage the requests found by one query are those found by the other |
| ReconciliationReport.CompleteSuppliersAgree | internal/ledger/reconcile.go:285-359 | under complete coverage the supplier amounts of matched requests add up to the contained lines |
| ReconciliationReport.CompleteCoverage | internal/ledger/reconcile.go:404-414 | under complete coverage the matched estimate equals the estimate, and the matched difference exists and equals the difference |
| ReconciliationBalances.KnownCostsSplit | internal/ledger/reconciliation_schema.go:72-77 | costs between two instants split at any instant between them |
| ReconciliationBalances.WindowMeans | internal/ledger/reconcile.go:360-384 | the balance window of a period is closed at both given ends |
| ReconciliationMeaning.IntervalMeans | internal/ledger/reconciliation_schema.go:72-77 | an interval holds the change since the previous snapshot and the requests from that instant on and before its own |
| ReconciliationMeaning.FirstInterval | internal/ledger/reconciliation_schema.go:72-77 | an interval has no beginning if and only if its snapshot is the first of its currency |
| ReconciliationBalances.Telescopes | internal/ledger/reconcile.go:360-379 | over consecutive snapshots interval changes sum to last minus first, and estimates to all costs in between |
| ReconciliationBalances.IntervalsOfWindow | internal/ledger/reconcile.go:360-379 | the intervals counted for a period are those of every snapshot in it but the first |
| ReconciliationBalances.BalanceTelescopes | internal/ledger/reconcile.go:360-384 | the reported balance change is last total minus first, and the unattributed rest follows from all costs between them |
| ReconciliationBalances.NoBalanceChange | internal/ledger/reconcile.go:360-384 | with fewer than two snapshots no balance change is reported |
| ReconciliationQueries.QueryRequests | internal/ledger/reconcile.go:260-284 | the loop adds exactly the requests of the period to each currency's row |
| ReconciliationQueries.QueryLines | internal/ledger/reconcile.go:285-308 | the loop adds exactly the contained lines to each currency's row |
| ReconciliationQueries.QueryPartialLines | internal/ledger/reconcile.go:309-333 | the loop counts exactly the lines that overlap the edge of the period |
| ReconciliationQueries.QueryMatched | internal/ledger/reconcile.go:334-359 | the loop adds exactly the requests matched by contained lines |
| ReconciliationQueries.QueryBalances | internal/ledger/reconcile.go:360-384 | the loop adds exactly the intervals of the period |
| ReconciliationQueries.SortReports | internal/ledger/reconcile.go:417 | every currency once, in the order of strings |
| ReconciliationQueries.ReconciliationStats | internal/ledger/reconcile.go:244-419 | fails exactly on an invalid period; otherwise lists exactly the currencies with data, in order, each with its specified report, whose line counts are those of the inserted lines inside the period and across its edge |
| ReconciliationMeaning.ContainedMeans | internal/ledger/reconcile.go:452-475 | a line is contained if and only if every instant of its period is in the report's, and overlaps if and only if some instant is |
| ReconciliationMeaning.PeriodsPartition | internal/ledger/reconcile.go:433-448 | adjacent periods divide the instants between them |
| ReconciliationMeaning.PeriodsAddUp | internal/ledger/reconcile.go:260-284 | estimates and unknown costs of a period are the sums over its parts |
| ReconciliationMeaning.RequestFigures | internal/ledger/reconcile.go:260-284 | estimate, unknown costs, missing statements and tokenizer figures, computed from the inserted audits, lines and comparisons |
| ReconciliationMeaning.LineFigures | internal/ledger/reconcile.go:285-333 | statement amount and the four line counts, computed from the inserted lines and the instants of their periods |
| ReconciliationMeaning.MatchedFigures | internal/ledger/reconcile.go:334-359 | the matched estimate is that of the requests billed in the period, and a difference is given if and only if there are some and all their costs are known |
| ReconciliationMeaning.MatchedDifferenceMeans | internal/ledger/reconcile.go:334-359 | the matched difference is the sum of the billed lines of the period less the matched estimate |
| ReconciliationMeaning.ListedMeans | internal/ledger/reconcile.go:244-419 | a currency is listed if and only if it has a request or a balance in the period or a line that touches it |
| ReconciliationMeaning.ReportOfRuns | internal/ledger/reconcile.go:244-419 | in every run the report read off the copies is the report of the source tables |
| Budget.SpendFalls | internal/ledger/budget.go:57-127 | time alone never raises the spend of a rolling window |
| Budget.AdmissionKeepsBound | internal/ledger/budget.go:57-127 | an admission leaves room for every pending request to settle within the bound |
| Budget.SettleKeepsBound | internal/ledger/budget.go:153-202 | a settlement moves at most the largest charge from pending to spent |
| Budget.ReleaseKeepsBound | internal/ledger/budget.go:133-149 | releasing a reservation keeps the bound |
| Budget.ResetKeepsBound | internal/ledger/budget.go:205-212 | resetting a window keeps the bound |
| Budget.RestartKeepsBound | internal/ledger/gateway.go:46 | turning pending rows to unknown at a restart keeps the bound |
| Budget.RunKeepsBound | internal/ledger/budget.go:57-212 | the bound holds after every disciplined run from an empty ledger |
| Budget.HardBudgetOvershoot | internal/ledger/budget.go:57-212 | in hard mode spend stays below the limit plus the most pending requests times the largest charge |
| BudgetOvershoot.OvershootIsReached | internal/ledger/budget.go:57-202 | the bound is not slack: for every slack a disciplined run comes nearer to limit plus the most pending requests times the largest charge |
| Budget.Ledger.Spent | internal/ledger/budget.go:57-127 | the loop sums exactly the charges of the window since the last reset |
| Budget.Ledger.CheckBudget | internal/ledger/budget.go:57-127 | admits, warns or refuses as specified and inserts one pending row only on admission |
| BudgetDecisions.CountsMeans | internal/ledger/budget.go:72-101 | a row counts for its provider or for all, from its instant for five hours or seven days, unless the window was reset since |
| BudgetDecisions.SpendMeans | internal/ledger/budget.go:72-101 | the spend of a window is the sum of the rows that count |
| BudgetDecisions.AdmittedIff | internal/ledger/budget.go:57-127 | a request is admitted if and only if it is valid and new, no unknown usage counts, a hard limit is not reached, and a soft threshold is not reached or was confirmed |
| BudgetDecisions.RefusalMeans | internal/ledger/budget.go:57-127 | which of the five refusals is told, from the rows |
| BudgetDecisions.UnknownUsageBlocks | internal/ledger/budget.go:57-127 | in every run usage that was settled without a cost blocks every later check of its provider and currency until the window ends or is reset |
| BudgetDecisions.HardLimitsHold | internal/ledger/budget.go:57-127 | in hard mode no request is admitted once five hours or seven days of charges reach their own limit |
| BudgetDecisions.PolicyMeans | internal/ledger/budget.go:34-55 | what a valid policy promises of limits, threshold, mode and currency |
| BudgetDecisions.UpperCaseCodesAreValid | internal/ledger/budget.go:34-55 | a policy with a code of three capital letters, a limit, a threshold and a mode is valid, and so is none |
| Budget.Ledger.ReleaseBudgetReservation | internal/ledger/budget.go:133-149 | removes a pending row; fails on a blank identifier and on any other row |
| BudgetDecisions.ReleaseMeans | internal/ledger/budget.go:133-149 | a release takes back a pending row of a request that is not blank, and nothing else |
| Budget.Ledger.RecordBudgetCharge | internal/ledger/budget.go:153-169 | settles the row at the cost of its audit row, as unknown without one, reports a missing audit row, and touches no other charge |
| Budget.Ledger.RecordBudgetChargeWithCost | internal/ledger/budget.go:171-176 | settles at a known cost, refuses a negative one |
| Budget.Ledger.ResetProviderBudget | internal/ledger/budget.go:205-212 | records the reset, refuses a blank provider |
| BudgetDecisions.ResetClears | internal/ledger/budget.go:205-212 | a reset leaves nothing of the past in its window |
| Budget.Ledger.Reopen | internal/ledger/gateway.go:46 | after reopening no row is pending |
| BudgetDecisions.RestartMeans | internal/ledger/gateway.go:46 | a restart makes unknown exactly the pending rows and changes nothing else of them |
| RecoveryBackoff.BoundedRecoveryBackoff | internal/gateway/availability.go:311-335 | the doubling loop gives the closed form of the delay, always between 30 seconds and 24 hours |
| RecoveryBackoff.DelayBounds | internal/gateway/availability.go:311-335 | a rest is at least 30 seconds and the upstream's wait, at most a day |
| RecoveryBackoff.BaseMeans | internal/gateway/availability.go:315-326 | the rest before jitter, in seconds, doubles from the second failure on up to half an hour |
| RecoveryBackoff.BaseMonotone | internal/gateway/availability.go:315-326 | more failures of one kind never shorten the rest before jitter |
| RecoveryBackoff.UsualDelay | internal/gateway/availability.go:311-335 | a day is for long runs of rate limits only: anything else rests an hour at most unless upstream asks for more |
| Availability.SomeEvictable | internal/gateway/availability.go:144-160 | when any record is not probing there is a least recently touched one to evict |
| AvailabilityRuns.SettledHasEffect | internal/gateway/availability.go:377-430 | settling a target writes at most that target, evicts at most one idle record and only from a full table |
| AvailabilityRuns.AdmitKeepsInv | internal/gateway/availability.go:211-239 | claiming at dispatch keeps every claim known to its lease and owned once |
| AvailabilityRuns.CompleteKeepsInv | internal/gateway/availability.go:343-435 | completion in the same or a later epoch keeps the invariant and frees the lease's claims |
| AvailabilityRuns.ReloadKeepsInv | internal/gateway/availability.go:99-118 | publishing a view drops records of other generations and keeps claims with their leases |
| AvailabilityRuns.ProbesAreOwnedByOpenLeases | internal/gateway/availability.go:99-435 | in every interleaving a probing record is owned by one unfinished lease that covers it, the table keeps its limit, and finished leases own nothing |
| AvailabilityRuns.DispatchIsExclusive | internal/gateway/availability.go:211-239 | a dispatch passes if and only if every target is healthy, due without a probe, or probed by this lease, and then this lease alone probes each failed one |
| AvailabilityRest.RestingTargetBlocks | internal/gateway/availability.go:211-239 | in every run a dispatch is refused while a target of it rests or is probed by another lease |
| AvailabilityRest.NewRequestIsRefused | internal/gateway/availability.go:177-239 | a new request on a resting target is refused and told exactly the remaining wait, or that a probe is out |
| AvailabilityRest.BlamedIsWritten | internal/gateway/availability.go:377-430 | a completion writes the target it blames, whatever the other target's turn does |
| AvailabilityRest.FailureIsCounted | internal/gateway/availability.go:394-425 | a failure counts one more up to sixteen and rests the target at least 30 seconds, or until the instant the key pool knows |
| AvailabilityRest.StepKeepsHealth | internal/gateway/availability.go:99-435 | only the completion of a lease that covers a target changes its health |
| AvailabilityRest.RestIsHonoured | internal/gateway/availability.go:211-430 | in every run, after a completion blamed a target at T, no new request of the published view goes out to it before T plus the cooldown while the record stands |
| AvailabilityRest.UnclassifiedEnd | internal/gateway/availability.go:385-425 | an unclassified end of a probe extends the rest if it was sent, and otherwise gives it up unchanged |
| AvailabilityRest.OtherScopeIsSpared | internal/gateway/availability.go:385-425 | a failure of the model spares the provider's record and the other way round |
| AvailabilityRest.OutdatedIsIgnored | internal/gateway/availability.go:343-363 | a completion for a replaced generation changes nothing, and one of an older view no health |
| AvailabilityRest.RoomMeans | internal/gateway/availability.go:144-160 | a new record finds room below 4096 records, and the table never holds more |
| AvailabilityRest.PruneMeans | internal/gateway/availability.go:132-142 | at most once a minute, exactly the idle records untouched for a day go |
| AvailabilityRest.ReloadMeans | internal/gateway/availability.go:99-118 | a published view keeps exactly the records of its generations and models, with health and probe |
| AvailabilityRest.TargetsMean | internal/gateway/availability.go:120-130 | a request is leased on its provider, and on its model if the name is at most 128 plain characters |
| AvailabilityFence.WrittenRecord | internal/gateway/availability.go:394-425 | a success makes the target eligible at once; a failure rests it 30 seconds to a day unless the key pool knows the instant |
| AvailabilityFence.StaleCompletionOnlyReleases | internal/gateway/availability.go:349-363 | a completion from an earlier epoch frees exactly its own claims and leaves health and all other records alone |
| AvailabilityFence.NewerRecordIsLostOnlyToMakeRoom | internal/gateway/availability.go:364-430 | a completion deletes or rewrites a record made after the last dispatch if and only if it makes room on a full table for a target that was and is without a record |
| AvailabilityFence.TwoTurnsLose | internal/gateway/availability.go:377-430 | the same for the two turns of a provider and a model, the second on what the first left |
| AvailabilityFence.RoomLosesNothing | internal/gateway/availability.go:144-160 | with room for its targets a completion loses nothing newer; a probed record makes room at most for the second target of a lease that knows it |
| AvailabilityRoom.FullTurn | internal/gateway/availability.go:144-160 | on a full table the first target takes the oldest idle record, and which record is then the oldest is told from the table before |
| AvailabilityRoom.RoomyTurn | internal/gateway/availability.go:377-430 | otherwise the first turn changes its own record only, and again the oldest is told from the table before |
| AvailabilityRoom.NewerRecordCanBeLost | internal/gateway/availability.go:144-160 | in every run a completion can lose a newer record if and only if, in the table before the call, that record is the oldest idle one of a full table, or the next oldest, for a target that is added |
| AvailabilityWitness.OlderSuccessErasesNewerFailure | internal/gateway/availability.go:144-160 | a run whose last state lets an older success delete, or rewrite as healthy, a newer failure |
| AvailabilityState.AvailabilityState.Prune | internal/gateway/availability.go:132-142 | once a minute drops exactly the idle records that are a day old |
| AvailabilityState.AvailabilityState.PutEntry | internal/gateway/availability.go:144-160 | the scan evicts a least recently touched idle record, and stores nothing only if all are probing |
| AvailabilityState.AvailabilityState.Activate | internal/gateway/availability.go:99-118 | the loop performs the reload step: survivors are copies under a new identity |
| AvailabilityState.AvailabilityState.Available | internal/gateway/availability.go:162-175 | true exactly for another epoch or when provider and model are both eligible |
| AvailabilityState.AvailabilityState.DispatchLease | internal/gateway/availability.go:211-239 | performs the dispatch step and reports the first blocking target |
| AvailabilityState.AvailabilityState.BeginLease | internal/gateway/availability.go:200-207 | a new lease over the provider, and the model if its name is safe, dispatched once |
| AvailabilityState.AvailabilityState.CompleteLease | internal/gateway/availability.go:343-435 | performs the completion step; confirms only a success of a current lease |
| AvailabilityState.NextRecord | internal/gateway/availability.go:394-425 | the field updates give the record the step writes |
| RouteRecovery.RouteCall.Ready | internal/gateway/provider_dispatch.go:163-187 | performs exactly the recheck before sending: targets, shared claim, key |
| RouteRecovery.RouteCall.Failed | internal/gateway/provider_dispatch.go:188-245 | a server wait is kept in every view, key health changes only while the view is the published one, by exactly the specified step |
| RouteRecovery.FailureMeans | internal/gateway/provider_dispatch.go:188-245 | which failures cool which keys and for how long, and that any other failure cools none |
| RouteRecovery.RejectedKeyRestsThroughServerWait | internal/gateway/provider_dispatch.go:195-211 | a key rejected with an instant rests until the longest shared wait is over, at most a day, and no less than it did |
| RouteRecovery.RouteCall.Completed | internal/gateway/provider_dispatch.go:152-162 | the completion is reported as handled unless the view is published and the observation stands, and counts for the pool only then |
| RouteRecovery.UnpublishedFailureKeepsKeys | internal/gateway/availability.go:85-97 | outside the published view a failure changes neither cooldowns nor streaks, and never shortens the shared wait |
| RouteRecovery.UntrustedRecordsNothing | internal/gateway/provider_dispatch.go:152-162 | a completion reported as handled gives claims up and records nothing about health |
| RouteRecovery.RouteCall.Run | internal/gateway/route_recovery.go:99-145 | however the adapter behaves, the lease is completed exactly once and neither claim survives; pools and table are exactly those of the specified call |
| RouteRecovery.CallRoute | internal/gateway/route_recovery.go:99-145 | admitted exactly if the pool waits for nothing and no target blocks; refused or run, the call leaves no claim, and pools and table are exactly as specified |
| RouteOutcome.RecheckMeans | internal/gateway/provider_dispatch.go:163-187 | the recheck passes if and only if no target rests or is probed by another, the provider's wait is over or claimed, and the key's cooldown and the shared wait are over |
| RouteOutcome.GoesOutWhenFree | internal/gateway/provider_dispatch.go:163-187 | after any sequence of checks a key is taken only in a state in which all of that holds |
| RouteOutcome.WithoutAttempt | internal/gateway/route_recovery.go:99-145 | a request that was not sent leaves the health of keys and provider as it was |
| RouteOutcome.ReplacedViewSaysNothing | internal/gateway/provider_dispatch.go:152-245 | a request whose view was replaced meanwhile may lengthen the server wait and says nothing else of keys, provider or targets |
| RouteOutcome.SuccessHeals | internal/gateway/route_recovery.go:99-145 | after a successful request its key, provider and targets are as if they had never failed |
| RouteOutcome.FailureRests | internal/gateway/route_recovery.go:99-145 | after a request that failed to the charge of a target, that target rests at least 30 seconds and at most a day |
| KeyPool.CandidatesAreUsableKeys | internal/gateway/provider_key_pool.go:69-99 | candidates are exactly the keys not cooling, none during a server wait; otherwise the wait is to the earliest key; the lead rotates |
| KeyPool.CandidatesRotate | internal/gateway/provider_key_pool.go:79-94 | each candidate is listed once, the cursor moves by one key when candidates are looked for, and elapsed cooldowns are cleared |
| KeyPool.KeyDelayIsExact | internal/gateway/provider_key_pool.go:233-277 | the returned key delay is the key's real rest unless, before the call, ten rejections in a row went before, every other key cools, and neither the key's cooldown nor its new delay is a day; then the key rests a day |
| KeyPoolWitness.ReportedKeyDelayCanBeShort | internal/gateway/provider_key_pool.go:233-277 | a run of two keys whose last state lets a rejection report sixteen minutes while the key rests a day |
| KeyPool.ProviderDelayIsExact | internal/gateway/provider_key_pool.go:233-278 | the provider delay is positive if and only if every key cools, and is then the distance to the earliest, also after the long-streak branch |
| KeyPool.KeyDelayBounds | internal/gateway/provider_key_pool.go:247-256 | a key rests between a second and a day, for the upstream's own delay when it gave one |
| KeyPoolAdmission.ReadyMeans | internal/gateway/provider_key_pool.go:156-173 | a key is ready if and only if its cooldown and the shared wait are over; else the delay is the distance to the later |
| KeyPoolAdmission.CooledMeans | internal/gateway/provider_key_pool.go:105-124 | cooling rests one key between a second and a day, never less than before, and no other |
| KeyPoolAdmission.CooledAllMeans | internal/gateway/provider_key_pool.go:126-145 | cooling all keys does the same to each |
| KeyPoolAdmission.RejectionRests | internal/gateway/provider_key_pool.go:233-277 | how long a rejection rests its key, and that the eleventh in a row of which no key is spared rests all keys a day |
| KeyPoolAdmission.BegunMeans | internal/gateway/provider_key_pool.go:317-350 | which of the four outcomes a request meets at the shared claim, from probes, streak and waits |
| KeyPoolAdmission.RunCovers | internal/gateway/provider_key_pool.go:69-368 | in every run, while a provider rests every key of it does, and its streak shows it |
| KeyPoolAdmission.ProviderRests | internal/gateway/provider_key_pool.go:233-350 | in every run, after a rejection that rests a provider until U, no claim is granted and no key is a candidate before U unless a success of the pool came between |
| KeyPoolRecovery.StepKeepsCounted | internal/gateway/provider_key_pool.go:156-307 | every version counts the events it fences, through every step of every pool |
| KeyPoolRecovery.SuccessClearsWhenQuiet | internal/gateway/provider_key_pool.go:282-307 | a success clears streak and shared wait if and only if no limit or hold hit this pool and no hold or clear hit a sharing pool since its attempt was admitted |
| KeyPoolRecovery.ServerWaitIsMonotone | internal/gateway/provider_key_pool.go:198-213 | without a clearing success the shared wait never decreases |
| KeyPoolRecovery.ServerClaimIsExclusive | internal/gateway/provider_key_pool.go:317-368 | the shared claim is one pool's own probe, every begin is refused meanwhile, and only the holder's finish ends both |
| KeyPoolRecovery.StepKeepsClaimed | internal/gateway/provider_key_pool.go:309-368 | each step keeps leases distinct and the shared claim with its holder |
| KeyPoolRecovery.StepKeepsRested | internal/gateway/provider_key_pool.go:105-278 | with a monotone clock no key's cooldown lies more than a day ahead |
| KeyPoolRecovery.ReportedDelayIsExact | internal/gateway/provider_key_pool.go:233-278 | in every run the reported provider delay is exact, and the reported key delay is if and only if that case is absent |
| ProviderKeyPools.ProviderKeyPool.CandidatesAt | internal/gateway/provider_key_pool.go:69-99 | the rotating loop over the arrays performs the choosing step |
| ProviderKeyPools.ProviderKeyPool.CooldownAt | internal/gateway/provider_key_pool.go:105-124 | cools one key, never earlier than before |
| ProviderKeyPools.ProviderKeyPool.CooldownAll | internal/gateway/provider_key_pool.go:126-145 | cools every key, none earlier than before |
| ProviderKeyPools.ProviderKeyPool.CandidateStateAt | internal/gateway/provider_key_pool.go:156-173 | readiness, remaining wait and the three versions seen |
| ProviderKeyPools.ProviderKeyPool.CooldownWaitAt | internal/gateway/provider_key_pool.go:177-194 | the longest of the waits in force, or a second while a probe is out |
| ProviderKeyPools.ProviderKeyPool.CooldownWaitLocked | internal/gateway/provider_key_pool.go:215-229 | zero if a key is usable, else the distance to the earliest |
| ProviderKeyPools.ProviderKeyPool.HoldProviderUntil | internal/gateway/provider_key_pool.go:198-213 | performs the hold step on pool and shared state |
| ProviderKeyPools.ProviderKeyPool.RateLimitedAt | internal/gateway/provider_key_pool.go:233-278 | performs the rate-limit step, and nothing for an index out of range |
| ProviderKeyPools.ProviderKeyPool.RateSucceeded | internal/gateway/provider_key_pool.go:282-307 | performs the success step |
| ProviderKeyPools.ProviderKeyPool.BeginRateRecovery | internal/gateway/provider_key_pool.go:317-350 | performs the begin step with its four outcomes |
| ProviderKeyPools.ProviderKeyPool.FinishRateRecovery | internal/gateway/provider_key_pool.go:352-368 | performs the finish step |
| AutoChain.NewBindingIsFirst | internal/gateway/auto_chain.go:140-158 | with a covered cursor a new binding gets the first usable entry of the configured order |
| AutoChain.SelectIsFirstOrSticky | internal/gateway/auto_chain.go:110-159 | a usable live binding is kept; anyone else gets the first usable entry, or nothing if none is |
| AutoChain.RecordFailureKeepsInv | internal/gateway/auto_chain.go:204-226 | recording a failure advances the cursor over failed entries only |
| AutoChain.FinishRecoveryKeepsInv | internal/gateway/auto_chain.go:245-264 | ending a probe keeps the cursor covered |
| AutoChain.RestoreProviderKeepsInv | internal/gateway/route_recovery.go:149-163 | forgetting a provider's failures lowers the cursor far enough |
| AutoChain.LoweredIsLeast | internal/gateway/route_recovery.go:149-163 | lowering goes to the least index that was freed |
| AutoChain.OneProbeAtATime | internal/gateway/auto_chain.go:228-243 | while a probe is out no other is granted for that entry |
| AutoChain.SupersededProbeSettlesNothing | internal/gateway/auto_chain.go:245-253 | a probe whose record was replaced changes nothing |
| AutoChain.ReloadKeepsInv | internal/gateway/auto_chain.go:59-104 | a reload keeps the cursor covered, under a new order or the old one |
| AutoChain.ReloadKeepsSessions | internal/gateway/auto_chain.go:81-90 | a session survives if and only if it is live and its entry is configured and preserved, on the same provider and model |
| AutoChain.ReloadKeepsFailures | internal/gateway/auto_chain.go:75-80 | a failure survives if and only if its entry is preserved, without its probe |
| AutoChain.RunBindsFirstUsable | internal/gateway/auto_chain.go:59-264 | through every run the cursor stays covered and a new binding goes to the first usable entry |
| AutoChainRest.FailureMeans | internal/gateway/auto_chain.go:177-226 | from the error's fields: which failures are recorded against an entry, and for how long it rests |
| AutoChainRest.FailedEntryRests | internal/gateway/auto_chain.go:106-264 | in every run, after a failure that counts at T, no selection before T plus the cooldown gives out that entry, unless restored, confirmed or reloaded |
| AutoChainRest.BeginMeans | internal/gateway/auto_chain.go:228-243 | a failed entry is probed if and only if it is due and no probe is out |
| AutoChainRest.FinishMeans | internal/gateway/auto_chain.go:245-264 | a confirmed probe frees the entry, an undecided one gives it back, a failed one rests it again |
| AutoChainRest.SessionKeepsEntry | internal/gateway/auto_chain.go:110-139 | a session keeps its usable entry while it is used at least once a day |
| AutoChainRest.LifetimeMeans | internal/gateway/auto_chain.go:39-53 | a session lives as long as was asked for, and a day at least |
| AutoChainRest.IdleSessionIsNew | internal/gateway/auto_chain.go:110-139 | a session idle for its lifetime is bound anew |
| AutoChainRest.PruneMeans | internal/gateway/auto_chain.go:119-126 | once a minute the sessions idle for their lifetime are dropped, and no others |
| AutoChainRest.ReloadPrunes | internal/gateway/auto_chain.go:59-104 | a reload drops idle sessions too, and no sweep is due for a minute |
| AutoChainRest.RestoreMeans | internal/gateway/route_recovery.go:149-163 | a restore forgets exactly one provider's failures and opens its entries to new bindings |
| AutoChainState.AutoChainState.SelectForSession | internal/gateway/auto_chain.go:110-159 | the loops perform the selection, and a new binding is the first usable entry |
| AutoChainState.AutoChainState.BoundRoute | internal/gateway/auto_chain.go:275-294 | renews a live binding |
| AutoChainState.AutoChainState.RecordFailed | internal/gateway/auto_chain.go:204-226 | the loops record a failure, drop its bindings unless retained, and advance the cursor |
| AutoChainState.AutoChainState.BeginProbe | internal/gateway/auto_chain.go:228-243 | grants at most one probe of a failed entry |
| AutoChainState.AutoChainState.FinishProbe | internal/gateway/auto_chain.go:245-264 | settles the probe only while its record is in place |
| AutoChainState.AutoChainState.Restore | internal/gateway/route_recovery.go:149-163 | the loop forgets exactly the provider's failures and lowers the cursor |
| AutoChainState.AutoChainState.ReconfiguredWithFailures | internal/gateway/auto_chain.go:59-104 | builds the successor state of a reload and leaves this one as it was |
| AutoChainState.PreservationSets | internal/gateway/routing_reload.go:21-27 | sessions are preserved for entries in scope on a present provider, failures only over a reused connection |
| OpenAIStreamTranslator.FramesFeedFragments | internal/adapter/translate.go:1254-1382 | frames feed exactly the fragments of their choices, in order |
| OpenAIStreamTranslator.FedWhenNamed | internal/adapter/translate.go:1349-1376 | fragments are accepted if and only if each call's first one carries id and name |
| OpenAIStreamTranslator.AcceptedIff | internal/adapter/translate.go:1254-1449 | exactly which streams translate: named calls, a known finish reason, and no reasoning without visible output |
| OpenAIStreamTranslator.FeedTextKeepsLink | internal/adapter/translate.go:1322-1348 | text lands in a text block and in the assembled text alike |
| OpenAIStreamTranslator.FeedCallKeepsLink | internal/adapter/translate.go:1349-1376 | a fragment lands in its own call's block, also when it returns to an earlier one |
| OpenAIStreamTranslator.TranslationPreservesMeaning | internal/adapter/translate.go:1254-1449 | assembling the events by block index gives the text and each call's id, name and arguments, even when fragments interleave |
| StreamMeaning.FinishIsLast | internal/adapter/translate.go:1254-1382 | the finish reason that counts is the last non-empty one of the first choice |
| StreamMeaning.StopReasonOfEvents | internal/adapter/translate.go:924-938 | the one message delta is the second last event; its reason is tool_use if and only if the last finish reason is tool_calls, max_tokens if and only if it is length, and end_turn otherwise |
| StreamMeaning.AssembledTools | internal/adapter/translate.go:1349-1376 | each call is one tool with the id and name of its first fragment and all its argument fragments in order |
| StreamMeaning.ToolsInOrder | internal/adapter/translate.go:1349-1376 | tools stand in the order in which their calls first appeared |
| StreamMeaning.TranslatedMessage | internal/adapter/translate.go:1254-1449 | read by block index the events hold the text the chunks showed and their calls, in order of appearance |
| StreamMeaning.MessageStartOf | internal/adapter/translate.go:1254-1292 | the message start carries the id and model of the first chunk, or the requested model |
| OpenAIStreamTranslator.StreamTranslator.WriteFrame | internal/adapter/translate.go:1254-1382 | the translator object performs exactly the frame step |
| OpenAIStreamTranslator.StreamTranslator.StartBlock | internal/adapter/translate.go:1384-1406 | a block of another kind, or any tool call, stops the active block and opens the next index |
| OpenAIStreamTranslator.StreamTranslator.WriteTerminal | internal/adapter/translate.go:1420-1449 | the translator object performs exactly the terminal step |
| AnthropicStreamTranslator.FrameKeepsLink | internal/adapter/translate.go:1080-1210 | each event keeps blocks and renumbered tool calls in step |
| AnthropicStreamTranslator.FramesPreserveMeaning | internal/adapter/translate.go:1080-1217 | well placed events translate, and their chunks assemble to the same tools, text and finish reason |
| StreamMeaning.FinishOfEvents | internal/adapter/translate.go:964-982 | the finish reason of the chunks is length for max_tokens, tool_calls for tool_use, and stop for end_turn, stop_sequence, refusal or none |
| AnthropicStreamMeaning.FramesTranslateIff | internal/adapter/translate.go:1080-1210 | exactly which event sequences translate frame by frame |
| AnthropicStreamMeaning.TranslatesIff | internal/adapter/translate.go:1080-1217 | exactly which messages translate: as above, and not only content the other protocol has no place for |
| AnthropicStreamMeaning.ReasoningIsKept | internal/adapter/translate.go:1080-1210 | the thinking of the events is the reasoning of the chunks, in order |
| AnthropicStreamMeaning.ChunksCarryIdentity | internal/adapter/translate.go:1219-1227 | chunks carry the id and model of their message |
| AnthropicStreamTranslator.StreamTranslator.WriteFrame | internal/adapter/translate.go:1080-1210 | the translator object performs exactly the frame step |
| StreamRoundTrip.ReasonsRoundTrip | internal/adapter/translate.go:924-982 | the two stop-reason maps are inverse on the reasons a translation accepts |
| StreamRoundTrip.RoundTrip | internal/adapter/translate.go:1080-1449 | translating there and back gives the same text, tools numbered by first appearance, and finish reason |
| StreamSignals.StreamSignalsCompletion | internal/adapter/stream.go:21-49 | the loop over the pieces of a chunk decides whether one of them signals completion |
| StreamSignals.SignalOfChunks | internal/adapter/stream.go:19-49 | a stream of whole frames signals if and only if one of its chunks does |
| StreamSignals.ToldByPrefix | internal/adapter/stream.go:19-49 | no prefix tells a client what the whole text does not signal |
| StreamSignals.FrameIsTerminated | internal/adapter/stream.go:80-89 | a frame the reader cuts at a line feed ends with an empty line, in LF or CRLF |
| StreamRendering.RenderedEvents | internal/adapter/translate.go:1489-1494 | the text of events signals if and only if one of them is a message stop or a delta with a stop reason |
| StreamRendering.RenderedChunks | internal/adapter/translate.go:1216-1227 | the text of chunks signals if and only if one has a finish reason |
| StreamRendering.OnlyTerminalSignals | internal/adapter/translate.go:1254-1449 | for an Anthropic client no translated frame signals and the terminal always does |
| StreamRendering.OnlyMessageDeltaSignals | internal/adapter/translate.go:1080-1210 | for an OpenAI client exactly the frame of a message delta signals |
| StreamRendering.DoneSignals | internal/adapter/translate.go:1212-1217 | the terminal of an OpenAI client signals, and ends with an empty line |
| StreamRendering.AnthropicClientIsServedLive | internal/adapter/client.go:665-700 | translated for an Anthropic client, every frame is sent live and nothing is held |
| StreamRendering.OpenAIClientIsHeldFromStop | internal/adapter/client.go:665-700 | translated for an OpenAI client, frames are live up to the first message delta and held from there |
| StreamBrackets.BracketedIffContiguous | internal/adapter/translate.go:1294-1449 | events are bracketed blocks numbered from zero if and only if every call's fragments are contiguous |
| StreamBrackets.InterleavedCallsAreNotBracketed | internal/adapter/translate.go:1363-1366 | an accepted stream of two interleaved calls whose events are not bracketed |
| StreamUpstream.ParseFields | internal/adapter/stream.go:102-112 | the loop over the lines gives the last event field and all data fields |
| StreamUpstream.FieldMeans | internal/adapter/stream.go:102-112 | a field's value is what stands behind the colon but for one space and the line end |
| StreamUpstream.CheckChoices | internal/adapter/stream.go:159-177 | the loop over the choices finds a bad delta, and whether the first choice started and finished |
| StreamUpstream.JudgeFrame | internal/adapter/stream.go:113-242 | a frame is emitted, ends the turn, or fails with its code, as specified from its fields and the progress so far |
| StreamUpstream.PassedIsClean | internal/adapter/stream.go:113-158 | a frame that was emitted or ended the turn holds no error object, names an allowed event and is well formed |
| StreamUpstream.CleanIsPassed | internal/adapter/stream.go:113-221 | conversely such a frame is emitted when it comes in the order of its protocol, and a ping at any time |
| StreamUpstream.ErrorMeans | internal/adapter/stream.go:113-148 | an error in the event or in the object ends the reading with the upstream's own code |
| StreamUpstream.ScanLine | internal/adapter/stream.go:59-95 | which limit a line exceeds: its own length first, then the total, then the frame's |
| StreamUpstream.NoErrorIsPassed | internal/adapter/stream.go:113-158 | no frame of a whole reading that was passed on, the terminal included, holds an error |
| StreamUpstream.ProgressMeans | internal/adapter/stream.go:159-221 | which frames start and which finish the turn |
| StreamUpstream.FinalMeans | internal/adapter/stream.go:127-242 | the end is exactly the protocol's marker after a start and a reason, with usage that parses |
| StreamUpstream.EndOfInput | internal/adapter/stream.go:243-254 | input without its final frame is incomplete, or a read error if the connection broke |
| StreamUpstream.ReadStream | internal/adapter/stream.go:59-254 | the scan loop emits exactly the frames before the final or first bad one and returns that frame or code; a limit error names a limit that is exceeded, after a prefix of those frames, and the total only if no line it saw is too long |
| StreamReader.FramesPartitionInput | internal/adapter/stream.go:59-117 | frames and tail are the input, byte for byte |
| StreamReader.EachFrameIsOne | internal/adapter/stream.go:59-117 | each frame ends at its own first blank line, and the tail holds none |
| StreamPassThrough.FrameOfReader | internal/adapter/stream.go:21-49 | the completion check decides on a frame of the reader by the very data the reader saw, with LF or CRLF |
| StreamPassThrough.FinalSignals | internal/adapter/stream.go:127-242 | the frame the reader returns as terminal signals completion |
| StreamPassThrough.FinishSignals | internal/adapter/stream.go:159-221 | the frame that brings the first finish or stop reason signals completion |
| StreamPassThrough.EndIsSignalled | internal/adapter/stream.go:59-254 | a stream that is read to its end has a signalling frame before the final one, which signals too |
| StreamPassThrough.InputIsHeldBeforeAudit | internal/adapter/client.go:261-284 | for every input, however far it was read, no prefix of what the client received before the audit row was committed tells it that the turn is over |
| StreamPassThrough.InputIsDelivered | internal/adapter/client.go:658-722 | for every input read to its end the client has all frames before the first signalling one live, and after the commit the input up to the end of the final frame, byte for byte, with its signal |
| StreamOutcome.ToldOnlyWhenRead | internal/adapter/client.go:261-284 | of an untranslated stream: a client told that its turn is over had its upstream read to the end and the row committed |
| StreamDelivery.PassAllIsFaithful | internal/adapter/client.go:665-700 | what was sunk and what is held back are the frames passed so far, and nothing sunk signals completion |
| StreamDelivery.NothingLost | internal/adapter/client.go:658-722 | sunk frames followed by the returned bytes equal all frames followed by the terminal |
| StreamDelivery.CompletionAfterAudit | internal/adapter/client.go:261-284 | no prefix of what a client received before the audit row was committed tells it that the turn is over, nor does the error that follows a failed commit |
| StreamDelivery.CompletionIsDelivered | internal/gateway/gateway.go:726-736 | after the commit the client has all frames and the terminal with its signal |
| StreamDelivery.HeldFromFirstSignal | internal/adapter/client.go:681-693 | from the first signalling frame on everything is held, and all before it was sent live |
| StreamDelivery.ReaderFramesAreFramed | internal/adapter/stream.go:59-117 | the frames of an untranslated stream are whole, all but perhaps the last of a cut stream |
| StreamDelivery.FirstErrorIsFinal | internal/adapter/client.go:665-700 | after the first error later frames change nothing |
| StreamOutcome.GateErrorHasCause | internal/adapter/client.go:665-700 | an error of the gate is that of the first frame that is untranslatable, too long to hold, or refused by the client's connection |
| StreamOutcome.AttemptSucceedsIff | internal/adapter/client.go:658-722 | bytes are returned if and only if all frames passed, the reading ended well, the terminal was translated, and it fits the limit |
| StreamOutcome.SentOnlyWhenFinished | internal/adapter/client.go:261-284 | the held bytes are sent if and only if the attempt succeeded and the audit row was committed |
| StreamOutcome.ToldOnlyWhenFinished | internal/adapter/client.go:261-284 | a client told of a finished turn by anything in the log had a successful attempt and a committed row |
| StreamDelivery.StreamCall.OnFrame | internal/adapter/client.go:665-700 | the frame closure performs the gate step |
| StreamDelivery.StreamCall.DoAttempt | internal/adapter/client.go:658-722 | the attempt loop gives the specified result and sunk frames |
| StreamDelivery.StreamCall.Serve | internal/gateway/gateway.go:726-736 | the handler's log of actions is the specified session |
| PromptCache.FittingIsLongest | internal/adapter/prompt_cache.go:114-118 | eviction keeps the longest prefix of the recency list that leaves room, and terminates within it |
| PromptCacheMeaning.BytesMean | internal/adapter/prompt_cache.go:91-120 | the byte counter counts keys and prompts |
| PromptCacheMeaning.RememberedMeans | internal/adapter/prompt_cache.go:107-120 | a prompt that fits stands first, before the longest part of the list that leaves room for it; one that does not fit is not kept |
| PromptCacheMeaning.LostMeans | internal/adapter/prompt_cache.go:107-120 | the keys lost to a limit are those that were in the list, or new, and are no longer |
| PromptCache.LiveWhenBackIsLive | internal/adapter/prompt_cache.go:98-105 | once the back is live, everything is |
| PromptCache.LiveMembers | internal/adapter/prompt_cache.go:98-105 | what remains after expiry is exactly what had not expired |
| PromptCache.FreshLookup | internal/adapter/prompt_cache.go:138-153 | after expiry a key is cached if and only if it was stored, is not idle and was not lost to a limit |
| PromptCache.CommonPrefix | internal/adapter/estimate.go:59-72 | the longest common prefix that does not end inside a rune |
| PromptCacheMeaning.SharedRunes | internal/adapter/estimate.go:59-72 | of two UTF-8 texts it is the longest common part that consists of whole runes |
| PromptCache.Cache.RemoveLocked | internal/adapter/prompt_cache.go:91-96 | map, list and byte counter lose the same entry |
| PromptCache.Cache.ExpireLocked | internal/adapter/prompt_cache.go:98-105 | popping from the back removes exactly the expired entries |
| PromptCache.Cache.Evict | internal/adapter/prompt_cache.go:114-118 | least recently used entries go until one more fits |
| PromptCache.Cache.RememberLocked | internal/adapter/prompt_cache.go:107-120 | the list becomes the new entry before what still fits, the keys lost to a limit are those cut off or too large, and map, list, counter and store agree |
| PromptCache.Cache.Remember | internal/adapter/prompt_cache.go:122-136 | an empty prompt changes nothing, any other is remembered after expiry |
| PromptCache.Cache.PrefixAndRemember | internal/adapter/prompt_cache.go:138-153 | the hit is the shared prefix with what a plain time-stamped store holds, zero if it holds nothing live; the list and the keys lost to a limit are exactly those of remembering |
| PromptCache.Cache.Stats | internal/adapter/prompt_cache.go:81-89 | counts and bytes of the live entries, within both limits |
| PromptCache.Cache.Close | internal/adapter/prompt_cache.go:64-78 | closing empties the cache and may be repeated |
| ContentLog.EmitKeepsInv | internal/contentlog/content.go:372-402 | an emitted event is queued in order or leaves a gap, for every capture at once |
| ContentLog.WriteKeepsInv | internal/contentlog/content.go:174-217 | writing or losing the head of the queue keeps every claim already written true |
| ContentLog.CompleteMeansComplete | internal/contentlog/content.go:150-217 | a written record with complete=true has every chunk of its capture before it, contiguous, adding up to the observed bytes and counts |
| ContentLog.LosslessRunKeepsEverything | internal/contentlog/content.go:150-217 | while nothing was dropped or failed, a drained log holds exactly what each capture emitted, claims included |
| ContentLogAdmission.EmittedMeans | internal/contentlog/content.go:150-172 | an event that fits is taken by an open log with room, and otherwise leaves a gap and counts as dropped |
| ContentLogAdmission.AdvancedMeans | internal/contentlog/content.go:372-412 | a chunk adds its bytes to its own direction, an end finishes its capture |
| ContentLogAdmission.WroteMeans | internal/contentlog/content.go:174-217 | events are written in order, a claim only if its capture has no gap; a failed write leaves a gap |
| ContentLogAdmission.EveryEventIsCounted | internal/contentlog/content.go:150-217 | in every run each emitted event is queued, written, dropped or counted as a failure, exactly once |
| ContentLogWriter.PartsCoverData | internal/contentlog/content.go:383-396 | 8 KiB parts, all full but the last, join to the data |
| ContentLogWriter.PartsAreObserved | internal/contentlog/content.go:383-396 | cutting adds exactly the data to one direction of one capture |
| ContentLogWriter.Log.Enqueue | internal/contentlog/content.go:150-172 | queued unless too long, closed or full; otherwise counted as dropped |
| ContentLogWriter.Log.EmitEvent | internal/contentlog/content.go:372-381 | performs the emit step |
| ContentLogWriter.Log.EmitChunks | internal/contentlog/content.go:383-396 | the loop emits the parts and observes the data whatever the queue does |
| ContentLogWriter.Log.StartCapture | internal/contentlog/content.go:363-370 | a new capture has observed its input |
| ContentLogWriter.Log.Finish | internal/contentlog/content.go:404-412 | the terminal event carries the true counts and claims completeness only without a seen gap |
| ContentLogWriter.Log.Seal | internal/contentlog/content.go:273-287 | a file is handed off or left behind, and no event is lost from the record |
| ContentLogWriter.Log.Append | internal/contentlog/content.go:310-319 | a whole line is added to the open file, or the file is closed for good after a partial one |
| ContentLogWriter.Log.Store | internal/contentlog/content.go:289-320 | stores one line exactly when files, limits and disk allow, and records it once |
| ContentLogWriter.Log.WriteHead | internal/contentlog/content.go:174-217 | one turn of the writer performs the write step |
| ContentLogWriter.Log.Tick | internal/contentlog/content.go:183-190 | the minute tick hands the file off and counts a failure |
| ContentLogWriter.Log.Close | internal/contentlog/content.go:127-139 | closing stops admission and keeps the queue for the writer |

## Left out

- SQLite, its transactions and locks, float rounding, and reading or writing rows: a committed transaction is one step.
- ReconciliationTriggers.Ledger.AppendAudit: argument validation and audit columns that no reconciliation table reads are not modelled.
- ReconciliationTriggers.Ledger.AppendTokenComparison: the tokenizer's name and version and the instant of measuring, which no table reads.
- ReconciliationTriggers.Ledger.AppendBalanceSnapshot: the granted and topped-up parts of a total, which no table reads.
- Statement file import, its parsing and fingerprints, and the listing of single rows; a line that was read is checked and inserted as modelled.
- Budget.Ledger.CheckBudget: a currency is three bytes of which none is a lower-case ASCII letter; the upper case of other scripts is not modelled.
- RouteRecovery.RouteCall.Ready: the delay that goes with a refusal is told by the parts and not carried through.
- RouteRecovery.RouteCall.Run: composes the steps of one request without the steps of others between them, which the runs of AvailabilityRuns and KeyPoolRecovery cover; the chain's own records and the choice between releasing and charging a budget reservation are not part of it.
- Classification of errors (availabilityFailure and the adapter's categories): the classified result is a parameter of a completion.
- AvailabilityRuns.ProbesAreOwnedByOpenLeases: a request is taken to begin a lease once, complete it once and not to dispatch it afterwards, which RouteRecovery shows of the code; publishing is taken to raise the epoch.
- AvailabilityFence.NewerRecordIsLostOnlyToMakeRoom: among records touched at the same instant the one evicted is not determined, as the iteration order of a Go map is not.
- KeyPoolRecovery.SuccessClearsWhenQuiet: stated while the saturating version counters have not reached their maximum.
- Pools that are absent (a nil key pool), key labels, failure classes, counters and recent failovers of the key pool.
- AutoChain.RunBindsFirstUsable: a reload without a new order is taken to have the same entries, and entries are distinct, as configuration validation demands; the cursor is not claimed to be the least index without a failure.
- advanceForNewSessions has no caller in the modelled code and would break the covered cursor.
- Hashing of session identifiers: a session is known by its key.
- The legacy path without an availability state is covered by the chain's own probe steps only.
- JSON and HTTP parsing, usage counters, omitted-field warnings and request bodies of the translators: chunks and events are decoded values.
- StreamUpstream.ReadStream: JSON decoding is a parameter that says which objects are well formed; the merging of usage counters is the flag that they parse in the end.
- StreamPassThrough.InputIsDelivered: for one protocol on both sides and no renamed model; the decoder of the completion check is taken to accept what the reader accepts as a chunk, a message delta or a message stop, so fields only the check decodes are taken to have their proper types.
- StreamDelivery.CompletionAfterAudit: a client is taken to act on a frame at the empty line that ends it; JSON decoding and encoding are parameters that agree, and renaming the model in a frame is taken to keep it whole.
- PromptCache.Cache.PrefixAndRemember: blank sessions and the normalization of prompts happen before the modelled call; the housekeeping goroutine takes the expiry step only.
- ContentLog.CompleteMeansComplete: digests are represented by the bytes they cover, and a capture emits nothing after its terminal event, as its one owner ensures.
- ContentLogWriter.Log.EmitChunks: a capture is a record of the log object and packets refer to it by number; other captures may run between two emits only in the step model.
- Recovery of interrupted files at startup and the limit on directory entries.
- Configuration, command line, reports, telemetry, the concurrency gate, session limits and shared-model affinity.
