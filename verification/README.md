# Verified models of the research desk's durable state

This project models, in Dafny 4.11, the parts of the repository whose correctness
spans many steps or many functions, and proves what they promise.

- **Note evaluation** (`scripts/evaluate_note_models.py`). Coroutines share a
  semaphore, a rate-limit stop, a set of stopped models and a directory of result
  files that outlives every process. `Dispatcher` is the transition system: one
  step is the code between two suspension points of one coroutine, or a process
  taking or leaving the run lock. `DispatcherInvariant` proves what every step
  keeps, `DispatcherTheorems` the results about all runs and all resumes,
  `DispatcherBudget` how many attempts and provider calls they make, `DispatcherProcess` the same code as a
  class with the original's fields.
  `ObservedProvider` is the wrapper around each provider call, `Accounting` and
  `AccountingTheorems` are `summarize` and `error_ledger` over the directory.
- **Journal identity repair** (migration 0069): `IdentityRules` (the canonical
  option id), `IdentityRepair` (what the rewriting loop leaves under every key, for
  every loop order), `JournalIdentityMigration` (the statements on the tables).
- **Notification outbox** (migrations 0024, 0025 and 0030): `OutboxMigrations`.
- **Other data-carrying migrations**: `EvidenceLinksMigration` (0073, guarded
  downgrade), `WorkflowReplayMigration` (0022), `NoteReviewBackfill` (0071).
- **Full-text index** (migration 0004): `SearchIndex`, the three external-content
  triggers.
- **Capability audit** (`scripts/audit_capabilities.py`): `CommentStripper`,
  `SourceScanner`, `UsageReader`.
- **Organisation map** (`scripts/generate_cninfo_org_map.py`): `InventoryMerge`.
- **Argument template** (`console/app/capabilities/page.tsx`): `TemplateBuilder`.

`Wrappers`, `TextOrder` (order of texts by code point) and `JsonValue` are shared.

Where the original updates fields or tables in place the model is a class whose
methods are proved equal to specification functions; the lemmas are about those
functions. Tables with a one-column or composite key that the statement only looks
up by key are maps; tables whose constraints are the point are sequences of rows.

## What the proofs found

- 0069 does not register every traded instrument even when it succeeds. If `etf:US:GDXU` is not yet
  registered when the migration starts, but some transaction uses it while another
  transaction uses `equity:US:GDXU`, the last statement deletes the equity row
  although it is still in use. `RegisteredUnlessLateEtf` and
  `PositionsUnlessLateEtf` show that this is the only way to miss the goal.
- 0069 keeps the set of position keys independent of the loop order, but not always
  the surviving rows: `OrderShowsIffAmbiguous` says exactly when, and
  `TwoSpellingsShow` gives such snapshots for every option.
- 0069 aborts if and only if a stored instrument holds the asset type, market and
  symbol of an id to be registered under another id (`Database.Upgrade`,
  `BlockedExample`). Under the application's rule for instrument ids that cannot
  happen (`NamedByTripleNeverBlocked`).
- The number of attempts begun is not bounded by the attempt budget, only the number
  of saved results is: a process that ends during an attempt leaves nothing behind,
  and the next one repeats it. Attempts begun exceed saved results and attempts in
  flight by exactly the attempts lost that way (`BudgetOverAllRuns`). A run without
  such an end stays in the budget (`CleanRunsStayInBudget`), and for every plan n
  lost attempts can lead to n attempts over the budget (`BoundIsAttained`).
- An attempt may make two provider calls, because a rejected output is repaired once.
  So provider calls are bounded by twice the attempts, and the bound is attained. The
  rate-limit stop prevents attempts, not repairs: each attempt in flight may still
  begin one call after it (`LimitedRun`, `RepairsIgnoreStop`).
- The usage reader fails on an export in which a direct and a named operation of one
  capability share day and source (`SortDefinedIff`).
- The CHECK of 0030 on manual notifications lets a row without `confirmed_by` pass,
  because an IN list is unknown, not false, on NULL (`UnconfirmedManualRow`).
- Downgrading 0073 right after upgrading it can still be refused: an older
  open-question candidate may use one of the payload keys already
  (`FreshUpgradeCanBeUndone`, `FreshUpgradeRefused`).
- Template generation does not return on a schema with a cycle of `$ref`, `anyOf`
  and required edges, and exactly then (`TerminatesIffAcyclic`,
  `SelfReferenceDiverges`). A generated request names its operation if and only if no
  definition offers it, or the first that does requires the property and the
  references from the property lead to that operation (`RequestCarriesOperation`,
  `OptionalOperationIsLost`, `ReferencedOperationIsLost`).

## Model

| member | source | states |
|---|---|---|
| DispatcherTheorems.SavedAttempts | scripts/evaluate_note_models.py:563-575 | in every state reachable by any interleaving, any outcomes and any resumes, a job's files are numbered 1..k with k <= 1 + max_retries and every file but the last is an unsuccessful, retryable attempt |
| DispatcherTheorems.FollowedOnlyIfTransient | scripts/evaluate_note_models.py:88-96 | in every reachable state another attempt of a job only follows a timeout, an unavailable provider or a rate limit whose last failed call was marked retryable, never a success or a rejection |
| DispatcherBudget.BudgetOverAllRuns | scripts/evaluate_note_models.py:434-458 | in every reachable state every attempt begun is saved, in flight or lost with a process; no result file is overwritten; saved results and attempts in flight together stay within cases x variants x repeats x (1 + max_retries), so attempts begun stay within that budget plus the attempts lost, and provider calls begun are at most twice the attempts |
| DispatcherBudget.CleanRunsStayInBudget | scripts/evaluate_note_models.py:571-578 | in a run where no process ends during an attempt, the attempts begun are the saved results and the attempts in flight, stay within the budget, and make at most twice as many provider calls |
| DispatcherBudget.OverBudgetIffLost | scripts/evaluate_note_models.py:571-578 | once the directory holds a full budget of results, more attempts than the budget were begun if and only if some process ended during an attempt |
| DispatcherBudget.BoundIsAttained | src/application/services/external_note_interpretation_service.py:254-272 | for every accepted plan and every n there is a run that loses one attempt in each of n processes, begins exactly n attempts more than the budget and makes two provider calls in each attempt |
| DispatcherTheorems.DirectoryOnlyGrows | scripts/evaluate_note_models.py:197-208 | along every run the result log and the stop markers only grow and the manifest never changes once written |
| DispatcherTheorems.ConcurrencyBound | scripts/evaluate_note_models.py:549-577 | at most `concurrency` attempts, and so provider calls, are in flight in every reachable state |
| DispatcherTheorems.LimitedRun | scripts/evaluate_note_models.py:577-578 | once the rate-limit stop is set, no attempt begins in that process, the results still to come are exactly those of the attempts in flight, and at most one further provider call begins for each of them, its repair |
| DispatcherTheorems.RepairsIgnoreStop | src/application/services/external_note_interpretation_service.py:254-272 | all of these repair calls can still come: the stop prevents none |
| DispatcherTheorems.RateLimitStopsDispatch | scripts/evaluate_note_models.py:692-708 | after a result with error code PROVIDER_RATE_LIMIT_ERROR under a policy that stops on rate limits, the same process writes at most concurrency - 1 further results and begins no attempt and at most concurrency - 1 provider calls |
| DispatcherTheorems.RateLimitedIff | scripts/evaluate_note_models.py:692-697 | in every reachable state of a live process the rate-limit stop is set if and only if the policy stops on rate limits and this process has saved a result with error code PROVIDER_RATE_LIMIT_ERROR |
| DispatcherTheorems.AttemptBeginsIff | scripts/evaluate_note_models.py:576-578 | in every reachable state, a waiting attempt with a free slot begins unless this process saved a rate-limited result under such a policy or a result of its model was a rejection under documented protocols; then its coroutine returns |
| DispatcherTheorems.WhatFollowsResult | scripts/evaluate_note_models.py:664-727 | in every reachable state a result is saved under the next number, and its coroutine backs off if and only if the error code is one of the three transient ones and not marked otherwise, an attempt is left, and this process has saved no rate-limited result under a policy that stops on those; otherwise it returns |
| DispatcherTheorems.ProcessStartsIff | scripts/evaluate_note_models.py:197-208 | a process takes the run directory if and only if no other one holds it, its cases, variants and options are in range, and the directory is new or was begun with the same inputs |
| DispatcherTheorems.RejectionIsLast | scripts/evaluate_note_models.py:678-691 | with documented protocols, a result with error code PROVIDER_AUTHENTICATION_ERROR or PROVIDER_REQUEST_REJECTED is the last result of its model across all resumes, so there is at most one per model |
| DispatcherTheorems.MarkersTellRejections | scripts/evaluate_note_models.py:551-555 | a model has a stop marker, and is stopped in the live process, exactly when protocols are documented and one of its saved results has one of the two rejection codes |
| DispatcherTheorems.ProcessTerminates | scripts/evaluate_note_models.py:718-730 | a process makes at most 5 x (max_retries + 1) steps per planned job, however its coroutines interleave |
| DispatcherTheorems.Progress | scripts/evaluate_note_models.py:718-730 | while some coroutine has not returned, some step is enabled: the semaphore never deadlocks |
| DispatcherTheorems.FinishedRunCoversPlan | scripts/evaluate_note_models.py:718-730 | when all coroutines returned without a rate-limit stop, every planned job of a model that was not stopped has a saved result; if it had none when the process started, or retries of failures were asked for, it has a success, its last failure is not one of the three transient codes or was marked as not retryable, or its attempts are used up |
| DispatcherTheorems.ResumeLeavesResults | scripts/evaluate_note_models.py:566-570 | a resume without --retry-failed writes nothing for a job that had results when the process started and never puts it in flight |
| DispatcherTheorems.SettledStaysSettled | scripts/evaluate_note_models.py:566-574 | once a process has ended, the files of a job with nothing left to try never change again in any later one |
| DispatcherTheorems.StepDecreases | scripts/evaluate_note_models.py:718-727 | every coroutine step lowers a measure over the phases and remaining attempts of all jobs |
| DispatcherInvariant.RunKeepsInv | scripts/evaluate_note_models.py:549-727 | the protocol invariant (files, numbering, markers, phases, slots, attempts and provider calls begun) holds after every run from every state that satisfies it |
| DispatcherInvariant.WriteKeepsMarkers | scripts/evaluate_note_models.py:677-691 | writing a result together with its marker keeps "nothing follows a rejection" and "markers are the models with a rejection" |
| DispatcherInvariant.JobProduct | scripts/evaluate_note_models.py:453-458 | the job list has repeats x cases x variants entries without repetition, and holds exactly the combinations |
| AttemptLog.NextWriteIndexed | scripts/evaluate_note_models.py:575-677 | writing the next attempt number leaves every earlier result readable under its own number |
| AttemptLog.ListingMeans | scripts/evaluate_note_models.py:565-565 | the listing of a job holds, in ascending order of the attempt number, exactly the last write under each name |
| DispatcherProcess.Process.constructor | scripts/evaluate_note_models.py:549-555 | a process starts with all slots free, no stop, and the stopped models read from the markers |
| DispatcherProcess.Process.QueueAttempt | scripts/evaluate_note_models.py:564-576 | the checks before the semaphore perform the Enter step |
| DispatcherProcess.Process.TakeSlot | scripts/evaluate_note_models.py:576-578 | taking a slot performs the Acquire step: the stops are checked after the wait, and the attempt begins with its first provider call if it gets that far |
| DispatcherProcess.Process.AskForRepair | src/application/services/external_note_interpretation_service.py:254-272 | the second turn of the service's loop begins one more provider call of the same attempt without looking at the stops |
| DispatcherProcess.Process.SaveResult | scripts/evaluate_note_models.py:664-727 | saving a result, raising the stops and deciding on a retry performs the Complete step |
| DispatcherProcess.Process.RetryAfterSleep | scripts/evaluate_note_models.py:719-727 | waking from the back-off performs the Wake step |
| DispatcherProcess.Process.Gather | scripts/evaluate_note_models.py:729-730 | under any scheduler the process ends with every coroutine returned, and its run is a run of the transition system |
| Accounting.SummarizeGroup | scripts/evaluate_note_models.py:219-258 | the loops compute the totals defined over the set of files; they fail exactly when a picked success has no mechanical check |
| Accounting.CountsMean | scripts/evaluate_note_models.py:219-258 | each count of a described group as a number of files or jobs with the given status, code and attempt: calls, completed, incapable, pending, failed attempts, failures per code with a missing or empty code as UNKNOWN, recovered jobs and failed exact checks |
| Accounting.ReviewsMean | scripts/evaluate_note_models.py:233-257 | usable jobs are the completed jobs with a review PASS whose latest success failed no exact check, semantic failures those with FAIL, and pending those with no review or one that is neither; the assessment is complete if and only if none is pending and every planned job was reached; without reviews none is usable and all completed ones are pending |
| Accounting.DescribesOnce | scripts/evaluate_note_models.py:219-258 | the set of files leaves no total open, so the order of the directory listing cannot show |
| Accounting.SumChecks | scripts/evaluate_note_models.py:250-252 | the failed exact checks are summed over the picked successes, each counted once |
| Accounting.SelectRows | scripts/evaluate_note_models.py:219 | the selected rows are the files of the variant, each once |
| Accounting.GroupByJob | scripts/evaluate_note_models.py:220-222 | the dictionary has exactly the jobs reached, each with its files in order |
| Accounting.CountFailures | scripts/evaluate_note_models.py:228-232 | the counts per error code are the sizes of the sets of failed files with that code |
| Accounting.SumCodes | scripts/evaluate_note_models.py:244 | the values of the code dictionary sum to the number of failed files |
| Accounting.LastSuccessIsPicked | scripts/evaluate_note_models.py:223-227 | the reversed search finds the success with the highest attempt, and None exactly when there is none |
| AccountingTheorems.DirectoryWellKept | scripts/evaluate_note_models.py:563-677 | every reachable directory has unique names, a first attempt for every job reached, only unsuccessful retryable attempts followed by another, and planned jobs only |
| AccountingTheorems.CallsAddUp | scripts/evaluate_note_models.py:241-245 | over such a directory, calls = failed attempts + completed jobs |
| AccountingTheorems.JobsAddUp | scripts/evaluate_note_models.py:240-244 | completed + incapable + pending = planned, with no negative term |
| AccountingTheorems.RecoveredAfterFailure | scripts/evaluate_note_models.py:246-248 | the recovered jobs are the completed jobs whose success was not attempt 1 |
| AccountingTheorems.SummaryOfReachableRun | scripts/evaluate_note_models.py:219-258 | in every reachable run directory the summary of each variant satisfies all three: calls = failed attempts + completed jobs, completed + incapable + pending = planned with no negative term, and recovered jobs are the late successes |
| AccountingTheorems.ReviewsAddUp | scripts/evaluate_note_models.py:233-257 | completed jobs = usable jobs + semantic failures + reviews pending + jobs that passed their review but failed an exact check |
| AccountingTheorems.ErrorLedger | scripts/evaluate_note_models.py:267-328 | the loops emit the events of every row in listing order, then those of every review |
| AccountingTheorems.RowEventsMean | scripts/evaluate_note_models.py:270-307 | the events of a file are its failed attempt if it did not succeed, then one per failed call, then one per rejected output that says whether the attempt recovered, each list in its order |
| AccountingTheorems.ReviewEventsMean | scripts/evaluate_note_models.py:309-328 | the events of a review are its failure if the verdict is FAIL and one per auxiliary finding, in order |
| AccountingTheorems.LedgerConcat | scripts/evaluate_note_models.py:267-307 | the events of two listings one after the other are those of the first followed by those of the second |
| AccountingTheorems.SemanticFailuresMatchLedger | scripts/evaluate_note_models.py:309-328 | the failed reviews of completed jobs in the ledger are as many as the semantic failures of the summary |
| AccountingTheorems.LedgerMatchesSummary | scripts/evaluate_note_models.py:276-284 | per variant and error code, the ledger has as many ATTEMPT_FAILED events as the summary counts failures |
| AccountingTheorems.LedgerCount | scripts/evaluate_note_models.py:270-284 | the number of ATTEMPT_FAILED events of a variant and code is the number of failed files with that code |
| ObservedProvider.Observer.Complete | scripts/evaluate_note_models.py:362-391 | one call updates counters and lists so that they stay the functions of the attempt's history |
| ObservedProvider.CallsAreAccountedFor | scripts/evaluate_note_models.py:362-391 | responses + recorded failures + other exceptions = calls, and there is one usage entry per response |
| ObservedProvider.RequestsMean | scripts/evaluate_note_models.py:363-381 | request number i and its hash stand at position i of their lists |
| ObservedProvider.AnswersMean | scripts/evaluate_note_models.py:387-389 | the reply, the answering model and the usage of the answered calls, and of no other, stand at the same position of their three lists, in call order |
| ObservedProvider.FailuresAreTheFailingCalls | scripts/evaluate_note_models.py:385-387 | the recorded failures are exactly the failing calls, numbered in strictly increasing order |
| ObservedProvider.RepairsPointAtEarlierCalls | scripts/evaluate_note_models.py:365-372 | a repair entry names the call before the one that carried the repair message, never the last call, and no call twice |
| ObservedProvider.RepairCodeIff | scripts/evaluate_note_models.py:52-52 | the repair pattern matches exactly the messages that start with the fixed text, NOTE_INTERPRETATION_ and 1 to 108 upper-case letters, digits or underscores closed by the bracket, and captures that code; no other message matches |
| IdentityRules.CanonicalIdempotent | migrations/versions/0069_journal_instrument_identity.py:19-24 | a canonical option id is its own canonical form |
| IdentityRules.PaddedOptionIsPacked | migrations/versions/0069_journal_instrument_identity.py:16-24 | a root of 1 to 8 characters, blanks, six digits, C or P and a strike is rewritten to the compact option id, whatever asset type it was recorded under |
| IdentityRules.PartsMean | migrations/versions/0069_journal_instrument_identity.py:16-16 | the roots and tails so padded are exactly those of the option symbols |
| IdentityRules.CanonicalIff | migrations/versions/0069_journal_instrument_identity.py:16-24 | an id has a canonical form if and only if it is an id of the US market, under any asset type, whose normalised symbol is 1 to 8 upper-case letters, digits or dots, six digits, C or P and at least one digit; the form is that symbol as an option id |
| IdentityRules.NormalizedOne | migrations/versions/0069_journal_instrument_identity.py:23-23 | normalising drops a blank and puts any other character in upper case; with NormalizedConcat it does so character by character |
| IdentityRules.SplitJoined | migrations/versions/0069_journal_instrument_identity.py:20-20 | splitting at the first two colons undoes joining |
| IdentityRepair.RepairedKeys | migrations/versions/0069_journal_instrument_identity.py:55-93 | the repaired position keys are exactly the image of the old keys under the canonicalisation of the observed ids, whatever the loop order |
| IdentityRepair.RepairedRows | migrations/versions/0069_journal_instrument_identity.py:62-93 | under every repaired key stands the row already there, else the row of the first id in loop order rewritten to it |
| IdentityRepair.OrderShowsIffAmbiguous | migrations/versions/0069_journal_instrument_identity.py:87-93 | two loop orders can leave different rows exactly when two observed ids of one snapshot with different rows collapse onto an id without a row there |
| IdentityRepair.RepairedTransactionRows | migrations/versions/0069_journal_instrument_identity.py:57-61 | every transaction is kept, with its id rewritten if observed and the mapping version raised for moomoo only |
| IdentityRepair.RepairedTransactionColumns | migrations/versions/0069_journal_instrument_identity.py:57-61 | over the whole loop no transaction is lost, a rewritten one gets the target id and, for provider moomoo only, mapping version moomoo_deals_v2, any other row is unchanged, and no other column ever changes |
| JournalIdentityMigration.Database.RegisterObserved | migrations/versions/0069_journal_instrument_identity.py:33-52 | only missing US equities, ETFs and options are inserted, with their id taken apart, and the insert fails exactly when another row holds that asset type, market and symbol |
| JournalIdentityMigration.CanonicalIsRegistrable | migrations/versions/0069_journal_instrument_identity.py:24-38 | every canonical option id is one the registration accepts |
| JournalIdentityMigration.Database.RenamePositions | migrations/versions/0069_journal_instrument_identity.py:68-70 | after the shadowed rows are gone the row-by-row UPDATE never violates the primary key |
| JournalIdentityMigration.Database.ReplaceIdentity | migrations/versions/0069_journal_instrument_identity.py:55-70 | a replacement fails only in its registration and then changes nothing; otherwise it rewrites instruments, transactions and positions as specified |
| JournalIdentityMigration.Database.Upgrade | migrations/versions/0069_journal_instrument_identity.py:82-107 | the upgrade succeeds if and only if no existing row holds the triple of an id still to be registered under another id; then it leaves the specified tables, otherwise the old ones |
| JournalIdentityMigration.FinalTransactionColumns | migrations/versions/0069_journal_instrument_identity.py:82-93 | over the whole upgrade every transaction keeps its key and other columns, its id becomes the ETF id if it was the GDXU equity and the ETF is registered, else its canonical option id if it has one, and the mapping version becomes moomoo_deals_v2 exactly on the rewritten rows of moomoo |
| JournalIdentityMigration.FinalInstrumentRows | migrations/versions/0069_journal_instrument_identity.py:33-107 | afterwards the instruments are the old rows unchanged plus one row per transaction id of a US equity, ETF or option, with its id taken apart and its name marked as account-observed, less the GDXU equity when the ETF is among them |
| JournalIdentityMigration.RegistrableIff | migrations/versions/0069_journal_instrument_identity.py:36-38 | the ids registered are exactly those that read equity, etf or option, US and any symbol, joined by colons |
| JournalIdentityMigration.BlockedIff | migrations/versions/0069_journal_instrument_identity.py:40-46 | the upgrade is blocked if and only if a stored row holds the asset type, market and symbol that a missing id of those three kinds spells |
| JournalIdentityMigration.UniqueAfterUpgrade | migrations/versions/0003_phase1d_instrument_provider.py:350-355 | a successful upgrade keeps asset type, market and symbol unique |
| JournalIdentityMigration.NamedByTripleNeverBlocked | migrations/versions/0069_journal_instrument_identity.py:36-46 | where every stored id is its asset type, market and symbol joined by colons, nothing blocks the upgrade |
| JournalIdentityMigration.BlockedExample | migrations/versions/0069_journal_instrument_identity.py:40-52 | tables the schema allows exist on which the upgrade aborts |
| JournalIdentityMigration.TwoSpellingsShow | migrations/versions/0069_journal_instrument_identity.py:87-93 | an option held in one snapshot under a padded and under a mistyped id, with different rows, is such a case for every option and every pair of rows: the loop order decides which row is left |
| JournalIdentityMigration.SomeOption | migrations/versions/0069_journal_instrument_identity.py:16-16 | such options exist |
| JournalIdentityMigration.RegisteredUnlessLateEtf | migrations/versions/0069_journal_instrument_identity.py:95-107 | every US equity, ETF or option id of a transaction is registered afterwards, if and only if not both GDXU ids are traded with the ETF unregistered at the start |
| JournalIdentityMigration.LateEtfExample | migrations/versions/0069_journal_instrument_identity.py:84-107 | tables exist on which the upgrade succeeds and leaves a traded id unregistered |
| JournalIdentityMigration.PositionsUnlessLateEtf | migrations/versions/0069_journal_instrument_identity.py:84-107 | deleting the duplicate leaves no position behind if and only if the ETF does not arrive late while a position uses the equity id |
| JournalIdentityMigration.UpgradeKeys | migrations/versions/0069_journal_instrument_identity.py:82-93 | the whole upgrade maps position keys by one id function and nothing else |
| OutboxMigrations.ChainIsIdentity | migrations/versions/0030_generic_notification_outbox.py:94-212 | 0025 up, 0030 up, 0030 down, 0025 down is the identity on every valid 0024 table, and both intermediate tables satisfy all their constraints |
| OutboxMigrations.Up25Valid | migrations/versions/0025_monitor_run_notification_outbox.py:76-92 | the copied table satisfies the new key, both UNIQUE constraints and the exactly-one-source CHECK |
| OutboxMigrations.SingleChannelNeeded | migrations/versions/0024_monitor_notification_outbox.py:30-44 | the event id can serve as the new key exactly when no event has rows on two channels, which only the channel CHECK ensures |
| OutboxMigrations.Up30Valid | migrations/versions/0030_generic_notification_outbox.py:48-122 | every valid 0025 table, run summaries included, copies into the 0030 constraints |
| OutboxMigrations.Down30Valid | migrations/versions/0030_generic_notification_outbox.py:165-212 | every valid 0030 table copies back under the 0025 constraints |
| OutboxMigrations.Down25Valid | migrations/versions/0025_monitor_run_notification_outbox.py:138-150 | the rows copied back satisfy the 0024 key and CHECKs, though the rebuilt table has no CHECK |
| OutboxMigrations.Redo25 | migrations/versions/0025_monitor_run_notification_outbox.py:76-150 | downgrading and upgrading 0025 gives the table back exactly when every row is an event row whose id is the event id |
| OutboxMigrations.Redo30 | migrations/versions/0030_generic_notification_outbox.py:94-212 | downgrading and upgrading 0030 gives the table back exactly when every row is a monitor row without the new metadata |
| OutboxMigrations.ManualRowsAccepted | migrations/versions/0030_generic_notification_outbox.py:48-79 | which manual rows the CHECKs accept under three-valued logic: key, note and expiry not blank, the key as source id, a deliverable channel and status, and a confirmer that is user, external_agent or NULL |
| OutboxMigrations.LogicMeans | migrations/versions/0030_generic_notification_outbox.py:48-65 | the connectives and comparisons of the CHECKs on NULL |
| OutboxMigrations.OtherRowsAccepted | migrations/versions/0030_generic_notification_outbox.py:48-79 | any other row is accepted exactly with one of the three other source types, no confirmer, no note, and a deliverable channel and status |
| OutboxMigrations.ChecksMean | migrations/versions/0025_monitor_run_notification_outbox.py:45-63 | the CHECKs of 0024 and 0025 let through exactly Telegram rows with a known status and no negative attempt count, from 0025 on with exactly one source |
| OutboxMigrations.KeysMean | migrations/versions/0030_generic_notification_outbox.py:80-91 | two rows fit into one table exactly when their keys differ and, NULL being different from everything, no unique combination is shared |
| OutboxMigrations.CopiedUp | migrations/versions/0030_generic_notification_outbox.py:97-121 | an event row keeps its event as id and source, a run summary becomes a MONITOR_RUN row named by its run, and delivery data are copied |
| OutboxMigrations.UnconfirmedManualRow | migrations/versions/0030_generic_notification_outbox.py:52-65 | a manual row without a confirmer satisfies every CHECK |
| OutboxMigrations.Database.Upgrade25 | migrations/versions/0025_monitor_run_notification_outbox.py:76-98 | the row-by-row copy never violates a constraint and replaces the table |
| OutboxMigrations.Database.Upgrade30 | migrations/versions/0030_generic_notification_outbox.py:94-127 | the same for 0030, also when the old table does not exist |
| OutboxMigrations.Database.Downgrade30 | migrations/versions/0030_generic_notification_outbox.py:140-224 | the copy back never violates a constraint and drops manual and system rows |
| OutboxMigrations.Database.Downgrade25 | migrations/versions/0025_monitor_run_notification_outbox.py:116-159 | the copy back never violates the key and drops run summaries |
| EvidenceLinksMigration.Database.Downgrade | migrations/versions/0073_research_evidence_links.py:150-220 | the downgrade either refuses with the first failing guard and leaves the database unchanged, or every statement succeeds and the narrower CHECKs hold |
| EvidenceLinksMigration.Database.Upgrade | migrations/versions/0073_research_evidence_links.py:32-143 | the upgrade succeeds on every valid table and gives the new columns their defaults |
| EvidenceLinksMigration.GuardsCoverChecks | migrations/versions/0073_research_evidence_links.py:157-210 | tables that pass the guards satisfy the restored CHECKs |
| EvidenceLinksMigration.SchemasMean | migrations/versions/0073_research_evidence_links.py:16-30 | the kinds and sources each schema accepts, one by one: 0073 adds evidence_impact and OPEN_QUESTION_DUE and asks for a version of at least 1 |
| EvidenceLinksMigration.PassesIffUnused | migrations/versions/0073_research_evidence_links.py:157-199 | the guards pass if and only if there are no impacts, no evidence_impact candidate, no question candidate that is unreadable or has one of the keys evidence_requirements, expected_version and source_refs, no question with a column away from its default, and no due review |
| EvidenceLinksMigration.RefusalMeans | migrations/versions/0073_research_evidence_links.py:157-205 | which guard refuses: the first one something in the tables hits, where the query over candidates is decided by the first row that uses a key or cannot be read |
| EvidenceLinksMigration.UpgradeRestores | migrations/versions/0073_research_evidence_links.py:32-220 | upgrading after a permitted downgrade gives the same tables up to empty JSON strings, and exactly the same ones if and only if there were none |
| EvidenceLinksMigration.TableGuardsAreExact | migrations/versions/0073_research_evidence_links.py:157-193 | with readable candidates free of the new keys, the guards pass exactly when nothing would be lost or rejected |
| EvidenceLinksMigration.FirstProbeMeaning | migrations/versions/0073_research_evidence_links.py:167-173 | the guard on question candidates is decided by the first row that is hit or is not JSON |
| EvidenceLinksMigration.FreshUpgradeCanBeUndone | migrations/versions/0073_research_evidence_links.py:167-173 | a downgrade straight after the upgrade passes exactly when no older question candidate uses a new payload key or is unreadable |
| EvidenceLinksMigration.FreshUpgradeRefused | migrations/versions/0073_research_evidence_links.py:167-173 | valid older tables exist on which it is refused |
| WorkflowReplayMigration.Database.Upgrade | migrations/versions/0022_workflow_execution_replay.py:36-79 | whatever order the cursor yields the rows in, and however often, the loop leaves the same table, which satisfies all new constraints |
| WorkflowReplayMigration.Database.Downgrade | migrations/versions/0022_workflow_execution_replay.py:107-130 | the downgrade never fails on a valid table and restores the old constraints |
| WorkflowReplayMigration.UpgradeValid | migrations/versions/0022_workflow_execution_replay.py:60-78 | NOT NULL, the terminal-time CHECK, the hash CHECK and the unique idempotency keys hold on every upgraded table |
| WorkflowReplayMigration.UpgradedColumns | migrations/versions/0022_workflow_execution_replay.py:36-58 | column by column what the loop stores: key and hash derived from the run id, heartbeat and lease at the completion time, or at the start time when that is empty, and complete renamed to succeeded |
| WorkflowReplayMigration.RowOkMeans | migrations/versions/0022_workflow_execution_replay.py:60-78 | a row fits the new constraints exactly when its columns are given, its status is one of five, it has no completion time exactly while started or running, and its hash is 64 lower-case hexadecimal characters |
| WorkflowReplayMigration.ValidMeans | migrations/versions/0022_workflow_execution_replay.py:60-78 | a table is valid exactly when every row is and no two runs share an idempotency key |
| WorkflowReplayMigration.RowDowngradesIff | migrations/versions/0022_workflow_execution_replay.py:115-130 | a row goes back under the old constraints exactly when a completion or heartbeat time is left and its status is a known one |
| WorkflowReplayMigration.RowUpgradesIff | migrations/versions/0022_workflow_execution_replay.py:44-78 | a row upgrades into the new constraints exactly when its status was complete, partial, failed or succeeded and the digest gives 64 lower-case hexadecimal characters |
| WorkflowReplayMigration.DowngradeValid | migrations/versions/0022_workflow_execution_replay.py:115-130 | every valid new table, open runs included, satisfies the old NOT NULL and status CHECK after the downgrade |
| WorkflowReplayMigration.DowngradeUndoesUpgrade | migrations/versions/0022_workflow_execution_replay.py:36-130 | downgrade after upgrade is the identity on every valid old table |
| WorkflowReplayMigration.UpgradeUndoesDowngradeIff | migrations/versions/0022_workflow_execution_replay.py:36-130 | upgrade after downgrade is the identity exactly on tables of finished rows with the derived claim |
| WorkflowReplayMigration.OpenRunsCloseAtHeartbeat | migrations/versions/0022_workflow_execution_replay.py:115-119 | going down and up closes every open run as failed at its last heartbeat and keeps every finished one |
| NoteReviewBackfill.Database.Backfill | migrations/versions/0071_external_note_reviews.py:90-109 | whatever order the query yields, every insert satisfies the key, both UNIQUE constraints and the terminal-links CHECK, and no two reviews share a note revision, an id or an idempotency key |
| NoteReviewBackfill.ConstraintsMean | migrations/versions/0071_external_note_reviews.py:59-78 | which reviews the CHECKs accept and which two may stand in one table |
| NoteReviewBackfill.ExactlyOneReview | migrations/versions/0071_external_note_reviews.py:101-108 | a note revision gets a review if and only if some decision refers to it, and never two |
| NoteReviewBackfill.SelectedIsMaximal | migrations/versions/0071_external_note_reviews.py:102-108 | row number 1 is the decision maximal in (recorded_at, decision_id) within its revision |
| NoteReviewBackfill.ReviewIsLatest | migrations/versions/0071_external_note_reviews.py:91-108 | every column of a review comes from its decision, the note of its revision or a constant, and no other decision on that revision follows it by recorded_at, then decision_id |
| NoteReviewBackfill.SelectedCompatible | migrations/versions/0071_external_note_reviews.py:59-68 | two backfilled reviews never share a key, a revision and version, or an idempotency key |
| NoteReviewBackfill.LaterDecisionIsLocal | migrations/versions/0071_external_note_reviews.py:102-108 | a later decision on one revision takes over its review and leaves every other one alone |
| SearchIndex.MaintainedIsRebuilt | migrations/versions/0004_phase1c_research_memory.py:759-801 | after every run of inserts, updates, row id changes, deletes and rejected statements the trigger-maintained index equals the index built from scratch |
| SearchIndex.LookupIsScan | migrations/versions/0004_phase1c_research_memory.py:745-758 | a phrase lookup in an index that agrees with the table returns exactly the rows a full scan finds |
| SearchIndex.RunsKeepTable | migrations/versions/0004_phase1c_research_memory.py:762-801 | after every run of statements the entity types are allowed ones and entity ids are unique |
| SearchIndex.AcceptedIff | migrations/versions/0004_phase1c_research_memory.py:640-664 | on a table that satisfies the constraints, a statement is accepted if and only if its row exists (update, delete), its new row id is free, and the table it asks for satisfies the entity type and entity id constraints; an updated row does not compete with itself |
| SearchIndex.EffectIsUnique | migrations/versions/0004_phase1c_research_memory.py:762-801 | a statement asks for one table only |
| SearchIndex.InPlaceUpdate | migrations/versions/0004_phase1c_research_memory.py:786-801 | an update in place that keeps entity id and type always succeeds and changes that row only |
| SearchIndex.FireAgrees | migrations/versions/0004_phase1c_research_memory.py:762-801 | the triggers of one accepted statement keep the index in agreement with the table, with multiplicity |
| SearchIndex.Store.Execute | migrations/versions/0004_phase1c_research_memory.py:762-801 | a statement is accepted exactly when the table it asks for satisfies the constraints; then table and index change together, otherwise neither does |
| SearchIndex.Store.DeleteAll | migrations/versions/0004_phase1c_research_memory.py:773-781 | deleting every row leaves an empty index, with no posting behind |
| SearchIndex.Store.Search | migrations/versions/0004_phase1c_research_memory.py:745-758 | on a maintained table a phrase query answers like a scan |
| CommentStripper.StripJsComments | scripts/audit_capabilities.py:236-278 | the index-driven loop computes the reading of the text by modes: code, string, line comment, block comment |
| CommentStripper.LiteralsStay | scripts/audit_capabilities.py:246-261 | a literal in single, double or backquotes stays as it is, with whatever comment marks, other quotes and escaped quotes it holds, and so does one that is never closed; stripping goes on behind it |
| CommentStripper.PlainInside | scripts/audit_capabilities.py:246-261 | a text without its quote and without backslashes is such a literal, and an escaped quote does not end it |
| CommentStripper.LineCommentGoes | scripts/audit_capabilities.py:262-265 | a line comment outside a literal goes up to the newline, which stays |
| CommentStripper.BlockCommentGoes | scripts/audit_capabilities.py:266-275 | a block comment outside a literal goes up to its first end mark, or to the end of the text, and leaves exactly its newlines |
| CommentStripper.CodeStays | scripts/audit_capabilities.py:276-277 | every other character outside a literal stays, a slash as well unless it opens a comment |
| CommentStripper.StripPreservesReading | scripts/audit_capabilities.py:236-278 | stripping keeps every character in its role, so the second pass sees no new comment: stripping is idempotent on every text |
| CommentStripper.UnchangedIffCommentFree | scripts/audit_capabilities.py:236-278 | a text is left alone exactly when no comment opens outside its strings, and every output is such a text |
| CommentStripper.CodeFaithful | scripts/audit_capabilities.py:258-277 | the output is the source with only non-newline characters deleted, in order, each kept character with as many newlines before it as in the source |
| CommentStripper.RecordedLineIsOriginal | scripts/audit_capabilities.py:304-344 | a line number computed on the stripped text is the line of the same character in the original file |
| CommentStripper.StripKeepsOrderAndLines | scripts/audit_capabilities.py:262-278 | later characters stay later and the number of lines is unchanged |
| SourceScanner.ScanJavascript | scripts/audit_capabilities.py:292-344 | a reference is recorded if and only if it stands for a literal that names its capability, which either can be called directly, or whose context of at most 512 characters, up to the next capability, or else the rest of its line, names a known operation first; its line is the line, in the file before stripping, of the very character at which the literal or the operation begins |
| UsageReader.ReadRows | scripts/audit_capabilities.py:584-654 | the kept rows are the accepted ones in ascending order, and kept + ignored = rows; the sort fails if and only if two kept rows share day, source and capability while one is direct and one names an operation |
| UsageReader.ReadRowMeans | scripts/audit_capabilities.py:584-645 | a row is kept exactly when its key is known, its day is missing or a date no later than today, its source and outcome are known ones and its three numbers are integers from 1, 0 and 0 on, and it is kept column by column as it is |
| UsageReader.AcceptedMeans | scripts/audit_capabilities.py:584-645 | every acceptable row of the export is kept, as often as it occurs |
| UsageReader.OrderMeans | scripts/audit_capabilities.py:646-654 | the order is by day with undated rows first, then source, capability, operation and outcome, and a comparison raises exactly on a clash |
| UsageReader.SortDefinedIff | scripts/audit_capabilities.py:646-654 | the sort succeeds exactly on rows without such a clash, and then gives a permutation in order |
| UsageReader.Observe | scripts/audit_capabilities.py:660-681 | the window has the first and last observed day, the number of distinct days and the number of dated rows, and dated + undated = rows |
| UsageReader.DaysFitTheSpan | scripts/audit_capabilities.py:660-676 | there are never more observed days than calendar days in the window, and as many exactly when no day is missing |
| UsageReader.WindowEndsByToday | scripts/audit_capabilities.py:606-618 | the window of an accepted export never reaches past today |
| InventoryMerge.BuildMap | scripts/generate_cninfo_org_map.py:81-112 | the merge succeeds exactly when every row is readable, code to organisation is a function over both lists and there are at least 6000 codes; then the entries are strictly sorted and cover exactly the codes; otherwise the error is that of the first row that stops it |
| InventoryMerge.ReadMeans | scripts/generate_cninfo_org_map.py:84-97 | what a row is read as, in terms of its fields: which rows state a pair, and which fault each malformed row has |
| InventoryMerge.AcceptableIff | scripts/generate_cninfo_org_map.py:83-112 | inventories are accepted if and only if no row is malformed, no two rows give a code two organisations, and they state at least 6000 codes |
| InventoryMerge.OneError | scripts/generate_cninfo_org_map.py:83-112 | a failed merge has one error only: the fault or conflict of the first row that cannot be merged, or the number of codes when every row can |
| InventoryMerge.AddRows | scripts/generate_cninfo_org_map.py:83-107 | one list extends the dictionary by its new codes, labelled with that list, and keeps every earlier entry |
| InventoryMerge.MappingIndependentOfOrder | scripts/generate_cninfo_org_map.py:81-108 | permuting rows, repeating them or moving them between the lists changes neither acceptance nor the sorted mapping |
| InventoryMerge.MappingIsTheRelation | scripts/generate_cninfo_org_map.py:83-108 | a pair is in the mapping if and only if some row of the category states it with a six-digit code and an alphanumeric organisation id |
| InventoryMerge.EntriesAreWellFormed | scripts/generate_cninfo_org_map.py:86-107 | every committed entry comes from a row that states it, carries the category, and is labelled szse exactly when a row of that list states its code |
| InventoryMerge.RowsOfCategoryAppear | scripts/generate_cninfo_org_map.py:86-108 | on acceptable inventories every row is an object and what every row of the category states is in the mapping |
| TextOrder.AscendingUnique | scripts/generate_cninfo_org_map.py:108-108 | a set of texts has one ascending listing |
| TextOrder.SortedAscends | scripts/generate_cninfo_org_map.py:108-108 | sorting distinct texts lists them in strictly ascending order |
| TemplateBuilder.TerminatesIffAcyclic | console/app/capabilities/page.tsx:51-88 | a placeholder is produced if and only if no chain of `$ref`, `anyOf` and required edges returns to a call made before, and then a stack as deep as the number of schema and key pairs is enough |
| TemplateBuilder.SelfReferenceDiverges | console/app/capabilities/page.tsx:51-70 | a definition that chooses itself through `anyOf` never yields a placeholder |
| TemplateBuilder.TemplateTerminates | console/app/capabilities/page.tsx:78-88 | the required object of a schema is produced if and only if the same holds for each of its required members |
| TemplateBuilder.EveryDepth | console/app/capabilities/page.tsx:61-88 | at every depth the value has exactly the required, declared, object-valued properties, keeps every const, fills the special keys, and otherwise is the empty value of the type the schema names: an empty list, false, 0, or the empty text |
| TemplateBuilder.DereferenceMeans | console/app/capabilities/page.tsx:51-59 | a schema whose reference names an object among the definitions of the root stands for that object, and any other schema for itself |
| TemplateBuilder.DeclaredMeans | console/app/capabilities/page.tsx:78-87 | the members of a template are the texts in the list of required names that are declared as objects |
| TemplateBuilder.CandidateMeans | console/app/capabilities/page.tsx:66-70 | the alternative chosen is the first object that does not have the null type |
| TemplateBuilder.FirstOfferingMeans | console/app/capabilities/page.tsx:93-101 | the definition used for an operation is the first whose property operation has it as const |
| TemplateBuilder.DefinitionsMean | console/app/capabilities/page.tsx:92-94 | the definitions are searched in the order of their keys |
| JsonValue.FieldMeans | console/app/capabilities/page.tsx:54-58 | a property of an array is one of its items under the decimal index, or its length |
| TemplateBuilder.OneAnswer | console/app/capabilities/page.tsx:61-76 | the available stack decides whether there is an answer, never which one |
| TemplateBuilder.RequestCarriesOperation | console/app/capabilities/page.tsx:90-105 | the request names the chosen operation if and only if no definition offers it, or the first that does requires the property and the chain of `$ref` and `anyOf` from the property ends in the operation as const |
| TemplateBuilder.InlineEndsInConst | console/app/capabilities/page.tsx:51-63 | an operation property without a reference ends in its own const, so only the list of required names decides |
| TemplateBuilder.ConstDecides | console/app/capabilities/page.tsx:61-76 | a placeholder is a given text if and only if the chain of `$ref` and `anyOf` ends in that text as const |
| TemplateBuilder.OptionalOperationIsLost | console/app/capabilities/page.tsx:90-105 | a definition that declares the operation without requiring it loses it |
| TemplateBuilder.ReferencedOperationIsLost | console/app/capabilities/page.tsx:61-105 | a required operation whose const stands beside a reference to another const is replaced by that one |
| TemplateBuilder.PlaceholderFor | console/app/capabilities/page.tsx:61-76 | the recursive method computes the specified placeholder |
| TemplateBuilder.FillRequired | console/app/capabilities/page.tsx:78-88 | the loop over the required names fills the specified object |
| TemplateBuilder.BuildArguments | console/app/capabilities/page.tsx:90-105 | the search through the definitions and the fallback give the specified template |

## Left out

- DispatcherProcess.Process.SaveResult: the result file and the stop marker are written as one step; a crash between the two writes is not modelled.
- The directory listing compares attempt numbers as numbers; file names carry them padded to three digits, enough for the at most four attempts of a job.
- A failing close of a provider or an unreadable result file, which end the process; file permissions, the run lock's system calls, `.tmp` leftovers and the content of `pause.json`.
- Job ids and digests: distinct jobs have distinct ids, and the manifest is compared as a value.
- Accounting.SummarizeGroup: the list of seconds of the picked successes is left out; its order follows the directory listing.
- AccountingTheorems.ErrorLedger: the fields copied into events beside job, attempt, code and call number are left out.
- ObservedProvider.Observer.Complete: the provider's reply is a parameter, and a usage record is one number.
- JournalIdentityMigration.Database.Upgrade: the text replacement in `open_orders_json`, the deletion from `provider_cache` and the constant columns of new instruments are left out; upper-casing and the digit class are parameters.
- JournalIdentityMigration.Database.ReplaceIdentity: the text replacement in `open_orders_json` is left out, as it rewrites stored text of a format that is not part of this model.
- Foreign keys: the migration engine opens SQLite with enforcement off, so no statement can fail on one.
- Alembic's own version rows, indexes and `schema_versions` rows of every migration.
- EvidenceLinksMigration.Database.Downgrade: foreign keys of `evidence_impacts` and the columns a dropped impact row loses; a payload is its set of top-level keys.
- WorkflowReplayMigration.Database.Upgrade: the digest is a parameter that returns 64 hexadecimal characters; the fact-artifact table holds no data of older versions.
- NoteReviewBackfill.Database.Backfill: downgrade and the widened review CHECK, which carry no data.
- SearchIndex.Store.Execute: `INSERT OR REPLACE`, which fires delete triggers only under a setting; the tokenizer is a parameter and ranking is not modelled.
- SourceScanner.ScanJavascript: the patterns for string literals and operations are parameters; path and kind of a reference are left out. Python sources are scanned by the syntax tree and are not part of this model.
- UsageReader.Observe: the list of sources of the window is left out.
- UsageReader.ReadRows: the parsing of dates is a parameter; the sort is an insertion sort, and a capability name is never empty.
- InventoryMerge.BuildMap: the digest, the time stamp and the constant fields of the document; the digit class of the code pattern is a parameter.
- TemplateBuilder.PlaceholderFor: recursion is bounded by a stack depth, and running out of it stands for not returning; properties inherited from JavaScript prototypes and the order of object keys are not modelled, and the random key is one value.
- Network calls, HTTP clients, clocks, rendering, command-line parsing and the trading services the repository wires together.
