# Verified models of the energy platform's stateful cores

This project models the parts of the platform where order, failure and
concurrency decide correctness, and proves what they promise. Every theorem
holds for all inputs, all runs or all reachable states; a promise the code does
not keep is stated with the exact condition under which it does, beside a
concrete input or run that breaks it.

| files | what they model |
|---|---|
| `readings.dfy` | readings, registers, windows and other shared values |
| `dedupe.dfy`, `thresholds.dfy`, `validate.dfy`, `validate_properties.dfy` | deduplication, sanity thresholds, validation and the run-wide streak |
| `anomaly.dfy` | negative deltas, and recording each one once |
| `page.dfy`, `page_fates.dfy` | one fetched page, and where each of its rows goes |
| `paging.dfy`, `paging_cuts.dfy` | cutting a chunk into pages, and when the cut shows |
| `fetch.dfy`, `fetch_run.dfy` | one ingestion run, with every point where it can fail |
| `fetch_records.dfy` | what such a run does to the anomaly table |
| `cursor_runs.dfy` | any number of runs moving one cursor, interleaved |
| `refresh_debounce.dfy` | refresh tasks whose ids collide on purpose |
| `isolar_extra.dfy`, `isolar_tokens.dfy`, `isolar_refresh.dfy`, `isolar_reauth.dfy` | one iSolar credential, its concurrent users, and authorising it again meanwhile |
| `base64url.dfy`, `oauth_state.dfy` | the signed authorisation state and its single use |
| `elector.dfy` | leader election over session-bound locks, its monitor, and both on a clock |
| `template.dfy` | building the shared database template from many processes |
| `requeue.dfy` | replacing a finished task that holds an id |
| `missing_hours.dfy` | the hours a price series lacks |
| `seed_readings.dfy` | resumable filling of a demo series |

A method models a loop or a state change of the source and is proved against a
function; lemmas then say what that function means. A protocol is a state
machine: `Enabled` and `Apply` give its steps, `Run` its runs, and a main
theorem speaks of every run. Times are whole nanoseconds since Go's zero time,
so 0 is "no timestamp"; decimals are exact reals.

## What is assumed of the surroundings

- An adapter's rows lie between the request's start and the next page or the
  request's end (`Fetch.AdapterKeepsWindow`).
- `normalize.Chunk` is given by where each chunk ends; the cursor repository
  stores the greatest value it was told.
- Store reads answer anything at all, and any call may fail; a batch insert that
  fails stored nothing, and one that succeeds stored every row.
- The broker keeps an id taken while its task waits, runs or is archived, and
  starts a task no earlier than its delay; runs and broker share one clock.
- A lease excludes every other holder; the provider issues refresh tokens, of
  which an empty one means "keep the old".
- The keyed MAC, the demo generator and the local calendar are arbitrary
  functions. A callback verifies and consumes at one instant.
- An advisory lock belongs to a session and ends with it; a failed lock or
  unlock query leaves a dead session. Ticks and ping timeouts fire on time, and a
  monitor starts, clears and cancels at once.
- A database marked template cannot be dropped; a rename is atomic; nobody else
  drops the final database.

## Where the code falls short of its promise

- No run skips a gap: fails when two runs that both began without a cursor
  overlap (`CursorRuns.OverlappingCreatorsSkipAGap`), which the hour of
  uniqueness of a fetch task makes rare; the exact guard is in
  `CursorRuns.RecordKeepsNoGapIff`, and comparing a run's start with the cursor
  before recording is enough (`CursorRuns.CheckedRunsSkipNoGap`).
- One anomaly per period and register: fails when a page or more of later
  records hides the existing one (`Anomalies.CrowdedPeriodDuplicates`); the exact
  condition is in `Anomalies.RefetchKeepsOneRecordIff`. A period finer than a
  microsecond never equals its stored record and is recorded again each time.
- A refresh for every stored row: a run whose first page is stored but whose
  hook fails asks for none, because load-profile rows are noted only after the
  hooks (`FetchRun.OldRowMissesItsRefresh`); the exact condition is in
  `Fetch.OldRowMissesItsRefreshIff`.
- Cutting a chunk into pages never matters: fails for pages that end in a reset
  row, which serves as previous reading inside a page but not across pages
  (`Paging.ResetRowsMakePagingVisible`). A chunk keeps one history and one clock;
  `PageCuts.CutInvisibleIff` says exactly after which pages a cut never shows under
  these. `PageCuts.CutAfterPageIff` also quantifies over the thresholds and clocks
  of later requests; `PageCuts.PageHidesItsCut` brings its condition back to the one
  context.
- Every refresh presents the newest refresh token: fails when a callback
  exchanges its code while a refresh is under way or waits for the lock, when an
  older callback writes last, and when a token is lost
  (`IsolarRefresh.CallbackOvertakesRefresh`,
  `IsolarReauthorisation.WaitingCallbackIsPassedOver`,
  `IsolarReauthorisation.OlderCallbackWritesLast`); the exact condition is in
  `IsolarReauthorisation.RefreshPresentsTheLastIssuedIff`.
- One refresh per expiring token: fails when a verification puts an old stamp
  back (`IsolarRefresh.StaleRestampRefreshesTwice`) and a caller then reads that
  stamp under the lock after it has expired (`IsolarRefresh.NeedlessRefreshIff`,
  `IsolarRefresh.NextCallRefreshesIff`); without such reads it holds
  (`IsolarRefresh.OneRefreshUnlessOldRead`). Putting a stamp back changes nothing
  exactly when none was written since it was read
  (`IsolarRefresh.RestampIsHarmlessIff`).
- A state is used once: fails for a state signed on a whole second and first
  used at that instant (`SingleUse.BoundaryReplayHappens`).
- A nil answer means the request is queued or running: fails when the broker
  forgets the finished task between the conflict and the look into its queue,
  when that look fails, or when another call gives up between deleting the task
  and enqueuing it (`RequeueRace.ForgottenTaskSwallowsARequest`,
  `RequeueRace.FailingLooksSwallowARequest`,
  `RequeueRace.AbandonedTaskSwallowsARequest`); outside these it holds
  (`RequeueRace.NilMeansAnswered`), and `RequeueRace.NilIsUnansweredIff` has the
  exact condition in terms of the steps taken.
- A resumed series is the uninterrupted one and never falls: fails when a fill
  broke off before the first finished one and that one starts over later
  (`SeedResume.FailedFirstFillMakesRegistersFall`); the exact conditions are in
  `SeedResume.ResumedEqualsUninterrupted` and `SeedResume.RegistersNeverFall`.
  A history that is not whole hours never resumes
  (`SeedResume.OffHourHistoryNeverResumes`), but no caller passes one: they use
  180 and 75 days (internal/seed/demo.go:31, internal/seed/fixtures.go:143).

## Model

| member | source | states |
|---|---|---|
| Readings.SameKeyIff | internal/ingest/dedupe.go:19-27 | rows share a key exactly when analyzer, timestamp and kind all agree |
| Deduplication.Group | internal/ingest/dedupe.go:24-34 | every row index is filed under its key in arrival order, and keys are listed in order of first arrival |
| Deduplication.Identical | internal/ingest/dedupe.go:43-50 | true exactly when every row of a group has the registers of the group's first row, all fourteen of them |
| Deduplication.Settle | internal/ingest/dedupe.go:36-60 | a group whose rows agree yields its first row and no rejection, any other yields no row and one rejection per row |
| Deduplication.Dedupe | internal/ingest/dedupe.go:18-62 | keeps the first row of every key whose rows agree and rejects each row of the other keys, in order of first arrival |
| Deduplication.KeptMeaning | internal/ingest/dedupe.go:18-62 | the kept positions, in page order, are exactly the first rows of keys whose rows agree on all fourteen registers |
| Deduplication.ConflictMeaning | internal/ingest/dedupe.go:18-62 | a row is rejected as a conflicting duplicate exactly when its key's rows disagree, and only once |
| Deduplication.KeepsKeyIffAgreed | internal/ingest/dedupe.go:18-62 | a key survives exactly when it occurs and all its rows agree |
| Deduplication.KeptKeysDistinct | internal/ingest/dedupe.go:18-62 | no two kept rows share analyzer, timestamp and kind |
| Deduplication.DedupePartitions | internal/ingest/dedupe.go:18-62 | kept, rejected and redundant copies add up to the page |
| Deduplication.EveryRowHasOneFate | internal/ingest/dedupe.go:18-62 | kept, conflicting and redundant positions are disjoint and together are the whole page |
| Deduplication.DistinctPageUnchanged | internal/ingest/dedupe.go:18-62 | a page without repeated keys passes unchanged and unrejected |
| Thresholds.RegisterDeltaSamples | internal/ingest/validate.go:290-306 | collects the positive steps of one register between consecutive reporting rows with growing time, and their spacings |
| Thresholds.SamplesArePositive | internal/ingest/validate.go:290-306 | every sampled step and every sampled spacing is positive |
| Thresholds.Median | internal/ingest/validate.go:311-320 | the middle of some sorted permutation of the values, or the mean of the two middle ones |
| Thresholds.MedianBetween | internal/ingest/validate.go:311-320 | any bounds on all values bound the median |
| Thresholds.MedianPositive | internal/ingest/validate.go:311-320 | the median of positive values is positive |
| Thresholds.MedianDurationPositive | internal/ingest/validate.go:322-333 | the median spacing of positive spacings is positive, so dividing by it is defined |
| Thresholds.SanityThresholds | internal/ingest/validate.go:267-288 | every register gets the threshold its samples make; Thresholds.ThresholdIsMedianOfRisingPairs says which |
| Thresholds.SamplesAreThoseOfRisingPairs | internal/ingest/validate.go:290-306 | the samples of a register are, in order, the rises and the gaps of exactly those pairs of consecutive reporting rows between which both value and time grew |
| Thresholds.ThresholdIsMedianOfRisingPairs | internal/ingest/validate.go:267-333 | a register has a threshold exactly when at least 24 such pairs exist, and then it is the median of their rises and the median of their gaps |
| Validation.IsSanityJump | internal/ingest/validate.go:348-379 | names the first thresholded register that rose past its limit since the previous reading, and none when time did not advance; ValidationProperties.CleanRowIsRefusedIff says in terms of the fields which that is |
| Validation.CheckRow | internal/ingest/validate.go:188-228 | one row's verdict in the source's order of checks, and the streak after it |
| Validation.Validate | internal/ingest/validate.go:181-234 | the rows kept and the notices given are those of judging row after row against the last kept row and the shared streak, which is left where that run leaves it |
| ValidationProperties.RunSplits | internal/ingest/validate.go:181-234 | validating a concatenation is validating its parts in turn |
| ValidationProperties.PrevIsLastKept | internal/ingest/validate.go:181-234 | the effective previous reading is the last kept row |
| ValidationProperties.RunObeys | internal/ingest/validate.go:109-135 | the verdicts of any run obey the streak's rules from wherever it stood |
| ValidationProperties.StreakCountsPending | internal/ingest/validate.go:109-135 | the streak counts the sanity rejections since the last kept row, at most three, and is tripped exactly after a sustained flag |
| ValidationProperties.AtMostThreeBetweenKept | internal/ingest/validate.go:109-135 | between two kept rows of one run lie at most three sanity rejections |
| ValidationProperties.SustainedEndsRejections | internal/ingest/validate.go:109-135 | after a sustained flag no row of the run is sanity-rejected or flagged again, so at most one flag is raised |
| ValidationProperties.SustainedNeedsThree | internal/ingest/validate.go:109-135 | a sustained flag comes right after exactly three pending sanity rejections |
| ValidationProperties.SanityDropMeansBigRise | internal/ingest/validate.go:348-379 | a sanity rejection needs an earlier reading and a register that rose by more than one unit past its limit, so a fall is never rejected |
| ValidationProperties.JudgeKeepsOnlyClean | internal/ingest/validate.go:188-228 | a row is kept or sanity-rejected exactly when it has a timestamp, not in the future, some register and no negative one |
| ValidationProperties.CleanRowIsRefusedIff | internal/ingest/validate.go:212-228 | a clean row is refused or flagged exactly when the streak has not tripped, time advanced since the previous reading and some thresholded register both report rose by more than one and by more than multiple times median per spacing over the whole gap, fractions of an interval counted; the least such register is named, and after three pending refusals the row is kept with a flag |
| ValidationProperties.UncleanRowIsRefused | internal/ingest/validate.go:188-210 | any other row is refused for the first that applies: no timestamp, one in the future, no register at all, or the least register that is negative |
| ValidationProperties.KeptAreClean | internal/ingest/validate.go:181-234 | every kept row is clean in that sense and comes from the page |
| ValidationProperties.KeptRowsNeverJump | internal/ingest/validate.go:181-234 | until the streak trips no two consecutive kept rows jump |
| ValidationProperties.ChainGrowth | internal/ingest/validate.go:348-379 | along rows that never jump, n steps raise a thresholded register by at most n plus multiple times median per spacing times the elapsed time |
| ValidationProperties.AcceptedGrowth | internal/ingest/validate.go:267-379 | the same growth bound for the rows a run accepts before its streak trips |
| NegativeDeltas.ResetBetween | internal/ingest/anomaly.go:64-71 | true exactly when some reset lies in (from, to] |
| NegativeDeltas.DetectNegativeDeltas | internal/ingest/anomaly.go:35-62 | the deltas of every adjacent pair of the previous reading followed by the rows, in order |
| NegativeDeltas.DeltasExact | internal/ingest/anomaly.go:35-62 | a delta is reported exactly for an adjacent same-kind pair whose register fell with no reset in (previous, current] |
| NegativeDeltas.DeltasInOrder | internal/ingest/anomaly.go:35-62 | over rows in time order the deltas come by reading and then by register, none twice |
| NegativeDeltas.DeltasSplit | internal/ingest/anomaly.go:35-62 | for a fixed reset list, detection over a concatenation is detection over the parts with the last reading carried over |
| Anomalies.NegativeDeltaAnomalyExists | internal/ingest/fetch.go:610-635 | finds the delta exactly when a listed record has its period and register, resolved or not; an invalid period is an error |
| Anomalies.ListedIffOnFirstPage | internal/store/postgres/queries/anomalies.sql:16-28 | the listed records are those of the first page of a hundred of the selected ones, the latest periods first and equal ones by identifier |
| Anomalies.WireRoundsDown | internal/ingest/fetch.go:504-519 | the database keeps a timestamp to the microsecond at or before it |
| Anomalies.RefetchKeepsOneRecordIff | internal/ingest/fetch.go:334-352 | checking and creating keeps one record per analyzer, period and register exactly when the existing record is on the one listed page, for periods as the database gives them back |
| Anomalies.SmallPeriodsAreVisible | internal/store/postgres/anomalies.go:20-27 | a period that selects at most a page of records always shows its record |
| Anomalies.RefetchesNeverDuplicate | internal/ingest/fetch.go:610-635 | over any sequence of re-fetches and resolutions whose records stay visible, at most one record per analyzer, period and register exists |
| Anomalies.CrowdedPeriodDuplicates | internal/store/postgres/queries/anomalies.sql:16-28 | with a page or more of later records inside the period, the listing hides the record and a re-fetch creates a second one |
| RunLog.AdvancingRunsStartAtOrBeforeTheCursor | internal/ingest/fetch.go:582-604 | a run that may move the cursor starts at or before it, or is cursor-driven and starts its lookback before now |
| RunLog.BatchesAreServedRows | internal/ingest/fetch.go:283-302 | the batches of a log are the rows of its served pages that are not empty |
| CursorRuns.StepKeepsRuns | internal/ingest/fetch.go:221-430 | whatever any run does next, every live run has served all it claims, and only recording can open a gap |
| CursorRuns.StepKeepsStored | internal/ingest/fetch.go:283-302 | every step keeps the accepted rows of each served page among the stored batches whose hooks succeeded |
| CursorRuns.RecordKeepsNoGapIff | internal/ingest/fetch.go:365-370 | recording a timestamp leaves every instant up to the cursor served exactly when a run that began without a cursor starts inside what is already served |
| CursorRuns.NoRunSkipsAGap | internal/ingest/fetch.go:221-430 | over every interleaving of failing runs whose records obey that guard, every instant from the creating run's window start to the cursor lies in a page some run served, whose accepted rows are stored and whose hooks succeeded |
| CursorRuns.ServedPagesAreEvents | internal/ingest/fetch.go:263-302 | every page of that theorem is one a run logged as served, with the rows that run accepted; FetchRun.EveryServedPageIsAReply ties a run's log to the adapter's replies |
| CursorRuns.CheckedRunsSkipNoGap | internal/ingest/fetch.go:360-368 | no gap either when every run compares, before it moves a cursor that exists, its window's start with that cursor |
| CursorRuns.RunsWithACursorPass | internal/ingest/fetch.go:582-604 | a run that did not begin without a cursor always passes that comparison |
| CursorRuns.CursorNeverRetreats | internal/store/repository.go:648-655 | over every interleaving the cursor only grows and the creating run's start stays |
| CursorRuns.ExclusiveCreatorsLeaveNoGap | internal/ingest/fetch.go:573-604 | when runs that start without a cursor never overlap, no guard is needed |
| CursorRuns.DisciplinedLogsRun | internal/ingest/fetch.go:221-430 | each event of a disciplined log can happen in the interleaved machine, once its rows are inserted and hooked, whatever the other runs do |
| CursorRuns.OverlappingCreatorsSkipAGap | internal/ingest/fetch.go:582-604 | two overlapping runs that both began without a cursor can leave an instant unserved behind the cursor, and the next run resumes past it |
| Page.FilterAttribution | internal/ingest/fetch.go:676-688 | splits rows into those of the analyzer with the requested or reset kind and one rejection for each other row |
| Page.AttributionPartitions | internal/ingest/fetch.go:676-688 | every row is kept or rejected, and exactly the attributable ones are kept |
| Page.PartitionSanityFlags | internal/ingest/report.go:208-217 | separates sustained flags from genuine rejections, both in order |
| Page.NoticesPartition | internal/ingest/report.go:208-217 | kept rows and genuine rejections add up to the validated rows, and there are as many flags as sustained verdicts |
| Page.ReadingsOfKind | internal/ingest/fetch.go:690-698 | the rows of one kind, in order |
| Page.OfKindMembers | internal/ingest/fetch.go:690-698 | exactly the rows of that kind survive |
| Page.ReadingTsBounds | internal/ingest/fetch.go:702-713 | the least and the greatest timestamp |
| Page.TsBoundsMeaning | internal/ingest/fetch.go:702-713 | these bound every row and are both taken by some row |
| Page.CheckPage | internal/ingest/fetch.go:263-282 | deduplicated, attributed and validated rows in that order, with all genuine rejections and flags |
| Page.AcceptedIsGood | internal/ingest/fetch.go:263-288 | every accepted batch has distinct keys, only the requested analyzer and kinds, and only clean rows |
| Page.PagePartitions | internal/ingest/fetch.go:263-288 | accepted rows, rejections and redundant copies add up to the page |
| PageFates.SplitPartitions | internal/ingest/fetch.go:676-688 | keeping the flagged positions of an increasing list and the others splits it into two increasing lists that share nothing and leave nothing out |
| PageFates.AttributionSelects | internal/ingest/fetch.go:676-688 | attribution keeps the rows at the attributable positions and rejects exactly those at the others, each with its own reason, in order |
| PageFates.KeptSelects | internal/ingest/validate.go:181-234 | the rows validation returns are those at the positions its verdicts keep |
| PageFates.GenuineSelects | internal/ingest/report.go:208-217 | the genuine rejections of validation are those of the rows at the positions its verdicts drop |
| PageFates.FlagsSelect | internal/ingest/report.go:208-217 | the flags raised are those of the rows at the sustained verdicts, each naming its row, in order |
| PageFates.EveryPageRowHasOneFate | internal/ingest/fetch.go:263-288 | every row of the page is exactly one of accepted, conflicting, misattributed, invalid or a redundant copy, none listed twice; the accepted rows and the rejections are those of the rows at the respective positions, in order |
| Paging.PagesEqualWhole | internal/ingest/fetch.go:228-430 | a chunk of the requested kind with distinct keys gives page by page what it gives uncut |
| Paging.PagingDoesNotMatter | internal/ingest/fetch.go:228-430 | two ways of cutting such a chunk accept, reject and flag the same rows |
| Paging.ResetRowsMakePagingVisible | internal/ingest/fetch.go:304-371 | a reset row that hides a jump within a page no longer hides it when the page is cut after it |
| Paging.SomeResetHidesAJump | internal/ingest/validate.go:181-234 | such rows exist |
| PageCuts.JudgeAlike | internal/ingest/validate.go:348-379 | two previous readings give a row the same verdict when the same registers lie above the ceilings they set |
| PageCuts.CutAgreesIff | internal/ingest/fetch.go:312-371 | a cut after page x changes nothing for a given continuation exactly when that continuation follows alike from the last row of the requested kind and from the last row of any kind |
| PageCuts.CutInvisibleIff | internal/ingest/fetch.go:228-430 | for the one set of thresholds and the one clock a chunk keeps, a cut after page x shows in no continuation exactly when the streak is tripped or the two previous readings set the same ceilings for every row that can still follow |
| PageCuts.SameBaselinesIff | internal/ingest/validate.go:348-379 | two previous readings set the same ceilings under all thresholds and clocks exactly when they report every cumulative register at the same instant with the same value |
| PageCuts.AlikeForeverIff | internal/ingest/validate.go:181-234 | two previous readings cannot be told apart by any continuation, thresholds and clock exactly when the streak is tripped or their baselines agree; otherwise one row tells them apart |
| PageCuts.SamePrevIff | internal/ingest/fetch.go:312-371 | the two previous readings after a page are one and the same exactly when it accepted nothing or its last accepted row is of the requested kind |
| PageCuts.CutAfterPageIff | internal/ingest/fetch.go:228-430 | over all continuations, and all thresholds and clocks the rest of a run may meet, what page x leaves behind never shows exactly when x accepted nothing, or ended in the requested kind, or left a tripped streak, or ended in a row that repeats what the last row of that kind reported at that instant |
| PageCuts.PageHidesItsCut | internal/ingest/fetch.go:228-430 | under the page's own thresholds and clock such a page cuts the chunk without a trace, whatever follows |
| PageCuts.RepeatedRowHidesTheCut | internal/ingest/validate.go:348-379 | the last of these happens: after a reset row with the registers and the instant of the row before it the cut does not show |
| PageCuts.SeamlessPagesEqualWhole | internal/ingest/fetch.go:228-430 | a chunk with reset rows, cut only where the cut does not show, gives the rows, notices and streak of the uncut chunk |
| PageCuts.PagesEndingInKindEqualWhole | internal/ingest/fetch.go:228-430 | so does one in which every page but the last accepts nothing or ends its accepted rows in the requested kind |
| Fetch.Accumulator.TouchAffected | internal/ingest/fetch.go:97-104 | the affected range grows to include both bounds and nothing else |
| Fetch.MaybeEnqueueConsumptionRefresh | internal/ingest/fetch.go:485-556 | a refresh is asked for exactly when the seam is wired and enabled, a load-profile page passed its hooks and some stored row is older than 29 days; its range starts at the first stored timestamp and ends a microsecond past the last |
| Fetch.AsksForRefreshIff | internal/ingest/fetch.go:485-496 | the same in terms of the rows: a load-profile row is among the hooked ones and a row older than 29 days among the stored ones |
| Fetch.AffectedSpans | internal/ingest/fetch.go:497-519 | the affected range starts at the first stored timestamp and ends a microsecond past the last, both of them taken |
| Fetch.OldRowMissesItsRefreshIff | internal/ingest/fetch.go:283-302 | with the seam wired and enabled, a stored load-profile row older than 29 days gets no refresh exactly when no load-profile row of the run passed its hooks |
| Fetch.AffectedMeaning | internal/ingest/fetch.go:485-519 | the affected range with its exclusive end covers every stored row, and its start is early exactly when some stored row is |
| Fetch.ChunkTiles | internal/integration/normalize/window.go:41-72 | whatever the boundaries, chunks are non-empty, adjacent and start at the window's start |
| Fetch.ChunkReachesEnd | internal/integration/normalize/window.go:41-72 | when every boundary moves forward the last chunk ends at the window's end |
| Fetch.LocalChunks | internal/integration/normalize/window.go:41-72 | with local midnights and a positive maximum the chunks tile the whole window; below a day each ends at the next midnight or after the maximum, from a day on after that many calendar days, or where the run ends if that is first |
| Fetch.RecordAnomalies | internal/ingest/fetch.go:334-352 | deltas are checked and, where missing, created in order up to the first that does not pass; the ones before it are recorded and counted, and the error returned is that delta's: its read failed, its period is invalid, or its record was missing and the create failed |
| Fetch.AdvanceCursor | internal/ingest/fetch.go:360-368 | the cursor and then the last-reading watermark rise to the timestamp; a failing record moves neither, a failing touch the cursor alone, and the error names the call |
| Fetch.CursorReachesServedRows | internal/ingest/fetch.go:354-371 | once nothing is owing the cursor is at or past every served row of the requested kind, and at one of them unless it did not move |
| Fetch.ServeKindRows | internal/ingest/fetch.go:312-371 | falls first, then the cursor at the latest requested-kind row when allowed, then the next previous reading; a failure leaves exactly what comes before the call that failed |
| Fetch.FallsAreUnexplained | internal/ingest/fetch.go:312-334 | the falls of a page are exactly those of the twelve cumulative registers between neighbours among the previous reading and the accepted rows of the requested kind for which neither a reset row accepted with the page nor a stored one lies in (previous, current] |
| Fetch.StorePage | internal/ingest/fetch.go:283-302 | a failing insert changes nothing; a failing hook leaves the rows stored and the page unserved; only with both is the page served, and each failure names its call |
| Fetch.UpsertedHolds | internal/ingest/fetch.go:283-302 | after a batch of distinct keys every row of it is in the table under its key and every other key is as it was |
| Fetch.TableHoldsStored | internal/ingest/fetch.go:283-302 | after a run every row it stored is in the table under its key unless a later one carries that key, and the table holds nothing else but what it held before |
| Fetch.CheckAndCount | internal/ingest/fetch.go:263-282 | the accepted rows, the count of refused ones, and a verdict trace that obeys the streak |
| Fetch.JudgedByItsHistory | internal/ingest/fetch.go:235-248 | every page of a chunk is judged by the thresholds of the history read with the chunk, at the run's clock |
| Fetch.FinishPage | internal/ingest/fetch.go:304-401 | after the hooks: the page's falls are recorded, cursor and watermark are told the page's latest requested-kind row, and the hourly values are stored; a failure leaves exactly what comes before the failing call, and nothing before that call fails |
| Fetch.ServePage | internal/ingest/fetch.go:263-420 | the whole effect of a page: on success no call it needs fails and no fall breaks, and log, batches, anomaly table and watermark gain exactly the page's; a failure leaves exactly what comes before the call or the fall its error names |
| Fetch.PassesOrBreaks | internal/ingest/fetch.go:263-420 | a page that breaks is not one that passes: some call it needs fails or some fall breaks |
| Fetch.PassesIffNoCallFails | internal/ingest/fetch.go:263-420 | a page goes through exactly when none of the calls it makes fails and its falls have valid periods |
| Fetch.WhatABrokenPageLeaves | internal/ingest/fetch.go:283-420 | which rows, log entries, records and watermark a page that breaks leaves, by the call that failed |
| Fetch.PageEndsOneWay | internal/ingest/fetch.go:263-420 | what a page leaves and the error it ends with are decided by what the page is told |
| FetchRun.LoadChunk | internal/ingest/fetch.go:235-248 | the reading before the chunk and its history, read in that order; the first failing read is the error |
| FetchRun.FetchPage | internal/ingest/fetch.go:250-432 | one request: the adapter's reply has the whole effect of a page, and the next page is a later one; otherwise the adapter failed and nothing changed, or the page broke, or it went through and the next page is not a later one |
| FetchRun.NextPage | internal/ingest/fetch.go:228-263 | page k of a chunk: the page limit, the chunk's loads and one request, in that order; on success the page went through, on failure the first of these that fails is the error and nothing after it is done |
| FetchRun.EndsOnce | internal/ingest/fetch.go:421-431 | how many pages a chunk has is decided by the adapter's replies: the last and no earlier one names no next page |
| FetchRun.PagesLieEndToEnd | internal/ingest/fetch.go:226-431 | the pages of a finished chunk lie end to end from its start to its end |
| FetchRun.ChunkStoresWhatItAccepts | internal/ingest/fetch.go:263-302 | what a chunk's pages store is, in order, what the replies' rows give when accepted page by page |
| FetchRun.FetchChunk | internal/ingest/fetch.go:221-430 | on success the chunk was asked for from its start to the reply that names no next page and every page went through; on failure the pages before went through, and the page asked for last ended with this error at exactly what comes before the failing call |
| FetchRun.FetchChunks | internal/ingest/fetch.go:221-432 | chunks in order; on success every page of every chunk went through and the stored rows are exactly those accepted, chunk by chunk; on failure every page before went through and the one the run came to last broke with this error |
| FetchRun.RunStoresWhatItAccepts | internal/ingest/fetch.go:221-432 | what a run stores over its chunks is, in order, what each chunk accepts of the adapter's replies |
| FetchRun.EveryServedPageIsAReply | internal/ingest/fetch.go:221-432 | every page a run logs as served, finished or failed, is a reply of the adapter to a request the run came to, with the rows accepted from it |
| FetchRun.RunSucceedsIff | internal/ingest/fetch.go:196-456 | a run ends without error exactly when every page it comes to goes through |
| FetchRun.RunWithoutFailuresIff | internal/ingest/fetch.go:196-456 | when no call fails, a run ends without error exactly when every page it comes to is within the page limit, has only falls with valid periods, and names no next page or a later one |
| FetchRun.RunEndsOneWay | internal/ingest/fetch.go:196-456 | what a run leaves and the error it ends with are decided by what it is told |
| FetchRun.StopsAtItsHooks | internal/ingest/fetch.go:283-302 | when the first page accepts rows and its hooks are the first to fail, the rows stay stored and nothing else happens |
| FetchRun.FetchWindow | internal/ingest/fetch.go:196-456 | a finished run has asked the adapter for its whole window, stored exactly what the replies give when accepted, recorded their falls, and told cursor and watermark the latest row of every served page; a failed one did the same up to the call that failed, which is its error; it ends without error exactly when every page it comes to goes through; either way a disciplined log, good batches, an obedient streak, hooks only on served pages and a status that says whether anything was stored; when the first page's hooks fail its rows stay stored and no refresh is asked for |
| FetchRun.FetchReadings | internal/ingest/fetch.go:121-473 | each check before fetching, in order, gives its own ending and leaves the store untouched, and only a run that passes all of them fetches; then the promises of the window's run, a table that holds every stored row, and the refresh exactly as promised |
| FetchRun.FetchesExactlyWhen | internal/ingest/fetch.go:121-195 | a run goes on to fetch exactly when its job row was recorded, the analyzer was read and is live, and the credential was read, is active and served, and is of the analyzer's provider and subtype |
| FetchRun.RunWindow | internal/ingest/fetch.go:582-604 | the window is the explicit one, or from the cursor to now, or the initial lookback when there is no cursor; only an explicit one that starts past the cursor or finds none may not move it |
| FetchRun.StepPassesIff | internal/ingest/fetch.go:228-432 | a page of a chunk goes through exactly when it is within the page limit, no call made for it fails, its falls have valid periods and the next page, if any, is a later one |
| FetchRun.OldRowMissesItsRefresh | internal/ingest/fetch.go:283-302 | a concrete run: its first page stores an old load-profile row, its hook fails, and no refresh is asked for |
| FetchRecords.ChunkRecords | internal/ingest/fetch.go:334-352 | what a chunk's pages do to the anomaly table is re-fetching their falls in order |
| FetchRecords.PageRecordsItsFalls | internal/ingest/fetch.go:334-352 | a page adds records only for its falls, unresolved and with the fall's period and register, and one that goes through leaves every fall recorded |
| FetchRecords.RunsNeverDuplicate | internal/ingest/fetch.go:334-352 | a run, finished or failed, does to the table exactly what re-fetching its falls in order does, so while no existing record is pushed off its page the table keeps one record per analyzer, period and register |
| RefreshTask.HourBounds | internal/job/consumption.go:12-25 | floor and ceiling are whole hours that enclose the instant within an hour |
| RefreshTask.TaskOrError | internal/job/consumption.go:67-91 | a payload is taken exactly when it names a company, its bounds are known and in order and the clock is set; the first that is missing is the error, and the task waits one minute |
| RefreshTask.IdBucketsCover | internal/job/consumption.go:42-91 | two valid payloads with one id lie in the same hour buckets and were built within a minute of each other |
| RefreshDebounce.Broker.Enqueue | internal/worker/wiring.go:199-209 | takes a task unless its id is taken or the broker fails |
| RefreshDebounce.EnqueueConsumptionRefresh | internal/worker/wiring.go:199-209 | succeeds exactly for a valid payload and a working broker; afterwards the id is taken, by this task or an earlier one |
| RefreshDebounce.NoRowLosesItsRefresh | internal/job/consumption.go:42-91 | over every interleaving, each stored row covered by a successful attempt made after it was stored lies in the buckets of a refresh that has yet to start or started later |
| RefreshDebounce.DelayOfAMinuteLosesNothing | internal/job/consumption.go:60-66 | the same for any delay of a minute or more |
| RefreshDebounce.ShorterDelayLosesARow | internal/job/consumption.go:60-66 | any shorter delay has a run that loses a row |
| IsolarExtra.DeltaMeaning | internal/credentials/service.go:450-463 | a delta sets or deletes exactly its own keys |
| IsolarExtra.MergeExtra | internal/credentials/service.go:450-463 | every non-zero input value is set, every key with a zero one is gone, and every other key is as it was |
| IsolarExtra.ZeroRefreshTokenKeepsTheStoredOne | internal/credentials/isolar_oauth.go:250-275 | the access token is always replaced, the refresh token only by a non-zero one |
| IsolarExtra.DisjointDeltasCommute | internal/credentials/service.go:599-661 | deltas on different keys can be applied in either order |
| IsolarExtra.PersistIsolarToken | internal/credentials/isolar_oauth.go:258-297 | the token is merged first and its expiry stamped second; each fault leaves exactly the prefix written |
| IsolarExtra.CurrentAccessToken | internal/credentials/isolar_oauth.go:213-238 | hands out the stored token exactly when its expiry exists and is more than five minutes ahead, the secret opens and the token is not empty; only a secret that will not open is an error |
| IsolarExtra.IsolarAccessToken | internal/credentials/isolar_oauth.go:168-208 | a token whose expiry exists and is more than five minutes ahead is handed out untouched; otherwise the provider's answer to the stored refresh token is stored and returned, and each failing call leaves exactly what was written before it |
| IsolarTokens.StepKeepsLock | internal/credentials/service.go:599-661 | only the holder writes, what it read is still stored when it writes, and each write applies one delta |
| IsolarTokens.ExtraIsDeltasInLockOrder | internal/credentials/service.go:599-661 | over every interleaving with failures the stored map is the written deltas applied one at a time in lock order |
| IsolarTokens.HandedTokensAreAsNewAsTheStamp | internal/credentials/isolar_oauth.go:213-238 | a token handed out is at least as new as the stamp that was checked; with growing expiries it really had more than the window left |
| IsolarTokens.FreshMeansItLasts | internal/credentials/isolar_oauth.go:213-238 | the machine takes a stamp for fresh exactly when the sequential check does: it exists and is more than five minutes ahead |
| IsolarTokens.HandedTokensArePersisted | internal/credentials/isolar_oauth.go:213-297 | when operators leave the token keys alone, the text handed out is the persisted token it is taken for |
| IsolarRefresh.OneRefreshPerStaleToken | internal/credentials/isolar_oauth.go:168-208 | a refresh is made only once the token the previous refresh brought has five minutes or less left or is empty, so waiting callers cause one |
| IsolarRefresh.OneRefreshUnlessOldRead | internal/credentials/isolar_oauth.go:168-208 | the same however verifications put stamps back, as long as no caller reads an old stamp under the lock |
| IsolarRefresh.NeedlessRefreshIff | internal/credentials/isolar_oauth.go:180-208 | while the newest token is good, a caller that has read the row under the lock goes on to refresh exactly when the stamp it read is an old one and no longer fresh, and otherwise hands out the newest token |
| IsolarRefresh.NextCallRefreshesIff | internal/credentials/service.go:860-882 | a stamp put back makes the next caller refresh a good token exactly when that stamp is an old one and no longer fresh |
| IsolarRefresh.RestampIsHarmlessIff | internal/credentials/service.go:860-882 | a verification leaves the newest stamp in place exactly when nothing was stamped since it read |
| IsolarRefresh.CallbackOvertakesRefresh | internal/credentials/isolar_oauth.go:119-135 | a callback that exchanges its code while a refresh holds the lock makes that refresh present a replaced token |
| IsolarRefresh.StaleRestampRefreshesTwice | internal/credentials/service.go:874-882 | a verification that puts a stale stamp back makes the next caller refresh a fresh token |
| IsolarReauthorisation.RefreshPresentsTheLastStored | internal/credentials/isolar_oauth.go:168-208 | with re-authorisation, lost replies and failures, a refresh presents the refresh token written last |
| IsolarReauthorisation.TokensAreConserved | internal/credentials/isolar_oauth.go:119-208 | a step moves at most one refresh token: issued or carried before, and afterwards stored, lost or carried |
| IsolarReauthorisation.StepKeepsAccounted | internal/credentials/isolar_oauth.go:119-208 | every issued refresh token is exactly one of stored, lost and carried by one actor, whatever step is next |
| IsolarReauthorisation.RefreshPresentsTheLastIssuedIff | internal/credentials/isolar_oauth.go:119-208 | when no token is issued twice, a refresh presents the one issued last exactly when no callback waits for the lock with it, it was not lost and no older token was written over it |
| IsolarReauthorisation.RunPresentsTheLastIssuedIff | internal/credentials/isolar_oauth.go:119-208 | over a whole run all refreshes do exactly when that holds at each of them |
| IsolarReauthorisation.GuardedRefreshesPresentTheLastIssued | internal/credentials/isolar_oauth.go:119-208 | with re-authorisation but no losses, every refresh does when codes are exchanged only while no token is on its way and no refresh has read one, and a refresh reads only while no callback waits with a token |
| IsolarReauthorisation.RefreshPresentsTheLastIssued | internal/credentials/isolar_oauth.go:168-208 | with neither re-authorisation nor losses every refresh presents the refresh token issued last |
| IsolarReauthorisation.WaitingCallbackIsPassedOver | internal/credentials/isolar_oauth.go:119-135 | a callback that has exchanged its code and waits for the lock is passed over by a refresh that takes the lock first |
| IsolarReauthorisation.OlderCallbackWritesLast | internal/credentials/isolar_oauth.go:119-135 | two callbacks that take the lock in the other order leave the older refresh token stored, and the next refresh presents it |
| Base64Url.DecodeEncode | internal/credentials/state.go:59-63 | decoding an encoding gives the bytes back, and an encoding holds no dot |
| Base64Url.EncodeInjective | internal/credentials/state.go:36-40 | different bytes have different encodings |
| Base64Url.GroupIsOneNumber | internal/credentials/state.go:59-63 | three bytes and their four characters are one and the same 24-bit number |
| Base64Url.AlphabetIsUrlSafe | internal/credentials/state.go:59-63 | the alphabet is letters, digits, hyphen and underscore, in that order |
| OAuthState.BigEndianRoundTrip | internal/credentials/state.go:54-56 | eight big-endian bytes carry any 64-bit value |
| OAuthState.BytesRoundTrip | internal/credentials/state.go:95-96 | and every eight bytes are those of the value they decode to |
| OAuthState.MostSignificantFirst | internal/credentials/state.go:54-56 | byte i of the eight is the value shifted right by the bytes after it |
| OAuthState.PayloadLayout | internal/credentials/state.go:45-58 | company, credential, expiry in Unix seconds and nonce lie in the payload at 0, 16, 32 and 40 |
| OAuthState.EpochIsKnown | internal/credentials/state.go:54-56 | Unix second 0 lies 719162 days after the zero time |
| OAuthState.SignState | internal/credentials/state.go:45-64 | the payload's encoding, a dot and the encoding of its MAC, with the expiry ten minutes on cut to whole seconds |
| OAuthState.VerifyState | internal/credentials/state.go:71-103 | accepts exactly a token whose payload is 56 bytes, carries its own MAC and has not expired, and returns that payload's claims |
| OAuthState.SignedPayloadMeans | internal/credentials/state.go:71-94 | a payload is the signed one exactly when it is 56 bytes, is encoded before the first dot, and its own MAC is encoded after it |
| OAuthState.VerifyRecoversWhatWasSigned | internal/credentials/state.go:45-103 | verifying a signed state gives back company, credential, nonce and truncated expiry until it expires, and then nothing |
| OAuthState.VerifiedMeansSigned | internal/credentials/state.go:71-103 | whatever verifies carries the MAC of exactly the claims it is taken to make |
| OAuthState.NonceKeysDiffer | internal/credentials/state.go:36-40 | different nonces have different consume keys |
| SingleUse.NonceStore.Consume | internal/platform/lock/memory.go:101-117 | succeeds exactly for a positive lifetime, a store that answers and no unexpired record, and then records the key for that lifetime |
| SingleUse.CallbackGate | internal/credentials/isolar_oauth.go:70-83 | lets claims through exactly when they verify, the store answers and their nonce was free |
| SingleUse.GateIsTheCallbackGate | internal/credentials/isolar_oauth.go:70-83 | for a signed state the machine's gate is the callback's |
| SingleUse.RecordOutlivesStateIff | internal/credentials/isolar_oauth.go:78-83 | a nonce record outlives its state exactly unless it was made at the signing instant and that is a whole second |
| SingleUse.EachStateIsExchangedOnce | internal/credentials/isolar_oauth.go:70-83 | over every run two callbacks of one state reach the exchange only in that boundary case, the second exactly at expiry |
| SingleUse.BoundaryReplayHappens | internal/credentials/isolar_oauth.go:70-83 | the boundary case is reachable for every whole second |
| Election.StepKeepsInstances | internal/scheduler/elector.go:169-283 | every step keeps the order of flag, cancellation, monitor and connection use within each instance |
| Election.StepKeepsLock | internal/scheduler/elector.go:169-319 | every step keeps sessions unshared, holders holding and the lock with a live session in its holding phase |
| Election.AtMostOneLiveLeader | internal/scheduler/elector.go:169-283 | in every reachable state at most one flagged instance has a live session |
| Election.OneInstanceInOrder | internal/scheduler/elector.go:188-283 | a cancelled lead context means a lowered flag, the connection is never used from both sides, and an attempt that is over left its flag down |
| Election.ReturningLeavesNoLock | internal/scheduler/elector.go:216-243 | when an attempt returns by any path its session does not hold the lock |
| Election.ADeadLeaderCanOverlap | internal/scheduler/elector.go:246-283 | a leader whose session died can still be flagged while another is |
| LeaderWatch.Monitor | internal/scheduler/elector.go:253-283 | the lead context is cancelled only once the caller's context has ended or the first failing ping is back, and then within two watch intervals, hence four seconds, of the session's death or of the monitor's start if that is later, and within one of the caller's cancellation |
| ElectionClock.TimedRunsAreRuns | internal/scheduler/elector.go:169-319 | with a clock, ticks and ping timeouts the election takes only steps it takes without |
| ElectionClock.DeadLeadersStepDown | internal/scheduler/elector.go:246-283 | in every reachable state a flag that is up without a live session has been so for two watch intervals, four seconds, at most |
| ElectionClock.OverlapsAreShort | internal/scheduler/elector.go:246-283 | whenever two flags are up, one of the two instances lost its session no more than four seconds ago, or raised its flag without one no longer ago |
| TemplateBuild.BuildAndRename | internal/testfixtures/containers.go:751-786 | a build succeeds exactly when no call fails; then the migrated, policy-free, closed template has the final name and its owner, otherwise only the temporary one remains |
| TemplateBuild.EnsureIsolatedTemplate | internal/testfixtures/containers.go:702-787 | success means a finished template, one of this owner if it was built here; a failure never touches the final name and leaves a leftover exactly when the build was already protected |
| TemplateRace.StepKeepsOk | internal/testfixtures/containers.go:702-787 | every step of every process, crashes and lost replies included, keeps the build, undo, lock and outcome invariants |
| TemplateRace.OnlyFinishedTemplatesAreVisible | internal/testfixtures/containers.go:702-787 | in every reachable state the final database is migrated, policy-free, closed and a template, was renamed at most once, and exists for whoever returned success |
| TemplateRace.RenameNeverCollides | internal/testfixtures/containers.go:722-784 | whoever may rename holds the lock alone, owns a finished build and finds the name free |
| TemplateRace.TemplatesStay | internal/testfixtures/containers.go:722-787 | once visible the template never changes |
| Requeue.Broker.Enqueue | internal/job/requeue.go:27-37 | takes the task unless the id is taken or the broker refuses |
| Requeue.Broker.Delete | internal/job/requeue.go:46-48 | removes the task unless it is running or the call fails |
| Requeue.EnqueueReplacingFinished | internal/job/requeue.go:27-56 | which broker calls decide a nil return, and the tasks left by each: an unfinished task holds the id after a nil return unless a finished one keeps it without an inspector or behind a failing look, which leave the tasks as they are; a task in progress is left alone |
| RequeueRace.StepKeepsCall | internal/job/requeue.go:27-56 | every step, failures included, keeps each call answered, owed one, facing the finished task it conflicted with, or aware of how it lost sight of it |
| RequeueRace.NilMeansAnswered | internal/job/requeue.go:27-56 | over every interleaving one queue holds at most the one task; a call with an inspector that returns nil is answered, unless its search went past every queue and the task was forgotten between conflict and look, or that look failed, or since the conflict a call gave up between deleting and enqueuing |
| RequeueRace.NilIsUnansweredIff | internal/job/requeue.go:27-56 | over every interleaving, with or without an inspector, a nil return is unanswered exactly when a finished task held the id when the call began, no step since put a task under it, and no other call has deleted it and will enqueue |
| RequeueRace.AliveIff | internal/job/requeue.go:27-56 | a task was unfinished at or after an instant exactly when one was at that instant or an enqueue has put one since |
| RequeueRace.ForgottenTaskSwallowsARequest | internal/job/requeue.go:38-55 | a finished task forgotten between conflict and look swallows the request |
| RequeueRace.FailingLooksSwallowARequest | internal/job/requeue.go:38-41 | looks that fail are passed over, and nil is returned over a finished task |
| RequeueRace.AbandonedTaskSwallowsARequest | internal/job/requeue.go:46-54 | a call that deletes the finished task and cannot enqueue leaves another, which conflicted before, to return nil over nothing |
| MissingHours.MissingHours | internal/marketdata/completeness.go:26-60 | an entry exactly for each local day of the window that misses an hour, holding that day's missing hours; nothing for an empty window |
| MissingHours.MissingOnDay | internal/marketdata/completeness.go:44-53 | one day's hours in the window that have no price |
| MissingHours.MissingFromExact | internal/marketdata/completeness.go:45-53 | a day's list holds exactly its absent hour starts inside the window |
| MissingHours.ListsAreExact | internal/marketdata/completeness.go:26-60 | the lists together are exactly the hour starts of the window without a price |
| MissingHours.ListsAreOrdered | internal/marketdata/completeness.go:44-56 | every list is non-empty and ascending |
| MissingHours.ListsAreDisjoint | internal/marketdata/completeness.go:41-58 | different days list different hours |
| MissingHours.FillingTheGapsEmptiesTheResult | internal/marketdata/completeness.go:26-60 | with a price added at each listed hour nothing is missing |
| MissingHours.EmptyDayListsItsHours | internal/marketdata/completeness.go:13-20 | a day without prices lists as many hours as it is long, 23 and 25 included |
| SeedReadings.DemoRegisters.Advance | internal/seed/demo.go:168-184 | each register grows by what the hour adds, whatever the site |
| SeedReadings.RegistersAreSums | internal/seed/demo.go:168-184 | after k hours each register is its start plus the sum of what the k hours add to that register |
| SeedReadings.Flush | internal/seed/readings.go:65-73 | an empty batch does nothing, a refused one writes nothing, any other is written whole |
| SeedReadings.FillLoop | internal/seed/readings.go:74-90 | batching loses and repeats nothing: on success every hour is written, on failure exactly the batches before the refused one |
| SeedReadings.FillHourly | internal/seed/readings.go:33-94 | a failing read writes nothing; otherwise a prefix of the series from where the fill opens is written, all of it on success, whole batches up to the refused one otherwise; only on success does the last reading move, and a failing touch of it is no success |
| SeedResume.RunExtendsThePrefix | internal/seed/readings.go:40-93 | any run, finished or not, leaves a longer prefix of the one series, over whatever was stored before it, from which the next resumes |
| SeedResume.FailedRunsLeaveTheirRows | internal/seed/readings.go:40-90 | runs that all fail leave no last reading and exactly the rows they wrote |
| SeedResume.RunsKeepThePrefix | internal/seed/readings.go:40-93 | from the first finished run on, whatever earlier ones left below it, the store is a prefix of one series and each run resumes it |
| SeedResume.NothingLeftOverIff | internal/seed/readings.go:40-90 | nothing lies below the first finished run's start exactly when every earlier run wrote nothing or ran in the same hour |
| SeedResume.ResumedEqualsUninterrupted | internal/seed/readings.go:40-97 | after a finished run the store is what a single run from the first finished run's start would have written, whatever runs lay in between, exactly when no earlier run left a row before that start |
| SeedResume.RerunWritesNothing | internal/seed/readings.go:26-32 | after a finished run a second run in the same hour writes nothing, whatever came before |
| SeedResume.RegistersNeverFall | internal/seed/readings.go:74-81 | from the first finished run on no stored register is below an earlier one exactly when the rows left before its start rise and stay at or below the base registers |
| SeedResume.StartingOverRisesIff | internal/seed/readings.go:46-59 | a fill that starts over keeps the registers rising exactly when no earlier row is above the base registers |
| SeedResume.FailedFirstFillMakesRegistersFall | internal/seed/readings.go:46-93 | a first fill that fails after two rows, followed by a run two hours later, makes a register fall |
| SeedResume.OffHourHistoryNeverResumes | internal/seed/readings.go:46-59 | with a history that is not whole hours no later run finds its last reading, and each starts over |
| DemoCurve.ConsumptionInBand | internal/seed/demo.go:168-184 | an hour adds 90 to 110 percent of the base, which is the profile's day value from six to eighteen and its night value otherwise, cut to four tenths on a weekend, with 18 to 26 percent inductive and 2 to 6 percent capacitive shares |
| DemoCurve.DemoNeverFalls | internal/seed/demo.go:165-184 | the demo curve takes nothing away in any hour |

## Left out

- Fetch.ServePage: does not model provider hourly values (one call that may fail stands for them), multiplier updates, warnings or operational messages; they come after the cursor and change nothing proved here.
- FetchRun.FetchReadings: does not model the job row's counters beyond the status, nor the 32-bit width of the counters; what the store answers for the previous reading, the history and the resets is arbitrary, so suppression of a fall by a reset between two pages is not promised; the code queries stored resets only from the page's first row on. Other writers of the tables meanwhile are the subject of CursorRuns and Anomalies.
- Page.PagePartitions: states counts only; the row-by-row form is PageFates.EveryPageRowHasOneFate.
- Page.NoticesPartition: states counts only; the row-by-row forms are PageFates.KeptSelects and PageFates.GenuineSelects.
- Deduplication.DedupePartitions: states counts only; the row-by-row form is Deduplication.EveryRowHasOneFate.
- PageCuts.CutAfterPageIff: the sanity multiple is positive, as the configuration demands (internal/platform/config/load.go:536); the previous reading before the first page is of the requested kind, as the store returns it.
- FetchRecords.RunsNeverDuplicate: other writers of the table during the run are not part of it; Anomalies.RefetchesNeverDuplicate has them between re-fetches.
- CursorRuns.NoRunSkipsAGap: what a run logs may be any disciplined log; FetchRun.EveryServedPageIsAReply says what a run of the code logs. That the adapter returned all rows it has is not promised; failure counters and error texts on the cursor row are not modelled.
- CursorRuns.CheckedRunsSkipNoGap: the comparison is sufficient, not necessary, and the code does not make it; the exact guard is CursorRuns.RecordKeepsNoGapIff.
- RefreshDebounce.NoRowLosesItsRefresh: that a started refresh finishes, and what it materialises, is not modelled; the id is the triple its text is made of.
- IsolarTokens.ExtraIsDeltasInLockOrder: the username and settings a callback read before taking the lock are not protected by it and not modelled; neither are credential creation and deletion, nor updates without extra keys, which keep the stored map.
- IsolarRefresh.OneRefreshPerStaleToken: assumes no fault between a refresh and its stamp; after one the stored refresh token may be a replaced one.
- IsolarReauthorisation.RefreshPresentsTheLastIssuedIff: assumes the provider never issues a refresh token twice and no operator input names a token key; a write that fails is taken to have written nothing.
- LeaderWatch.Monitor: scheduling delays beyond late pings are not modelled.
- Election.AtMostOneLiveLeader: retry cadence and backoff are not modelled; an attempt may begin at any time.
- TemplateRace.OnlyFinishedTemplatesAreVisible: one template name; cloning and dropping clones are not modelled.
- RequeueRace.NilMeansAnswered: a guard, one way only; the exact condition is RequeueRace.NilIsUnansweredIff. A uniqueness lock held by another task counts as a conflict on the first enqueue only, and no caller's task asks for one.
- SeedReadings.DemoRegisters.Advance: what an hour adds is any function of the instant; `DemoCurve.ConsumptionInBand` says what the demo curve adds, up to its generator.
- SeedReadings.FillHourly: one analyzer; other analyzers, the aggregates' refresh and the row columns besides timestamp and registers are not modelled.
- MissingHours.MissingHours: dates are day numbers; the calendar is any sequence of midnights.
- Validation.Validate: exact reals stand for decimals, so the rounding of the decimal library's division is not modelled.
- Store and broker internals, HTTP handlers, provider clients, cryptographic strength, billing, energy and alarm arithmetic.
