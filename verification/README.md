# LighthousePM: a verified model of the metric, migration and report cores

LighthousePM turns stored Jira changelogs into deterministic sprint and release metrics. This project
models the parts of it whose correctness is not visible in any single function and proves, for all inputs
and all runs, what those parts promise:

- **Changelog replay** (`SprintScope`, `InitialScopeFlags`, `ReleaseChurn`, `HistoryTable`): an unbounded
  event log is folded forwards, backwards and by deduplication. The reconstructions of a sprint's initial
  scope are measured against the membership the log really describes, and against each other.
- **Metrics over incomplete data** (`CsvSettings`, `Classification`, `DeliveryConfidence`, `DeliveryFormula`,
  `VelocityBaseline`, `Workload`, `WorkloadFormula`, `FlowMetrics`, `ReopenRate`): "confirmed minimum", PARTIAL and COMPUTED are claims about every way the
  missing fields could be filled in, and are proved as such, together with their exact limits.
- **Startup migration** (`SchemaRevision`, `InstalledRevisions`, `MigrationProtocol`, `MigrationInvariant`,
  `MigrationRuns`, `MigrationHost`): a fail-closed backup protocol as steps of any number of starters on a
  shared disk, with failures, crashes and outside changes between any two steps; one startup is also written
  out as a program and proved to be a run of it.
- **Drawing** (`RasterCanvas`, `ChartLayout`): integer line walking and clipped drawing in a byte buffer.
- **PDF writing** (`TextWrap`, `PdfEscape`, `Decimal`, `PdfWriter`, `PdfReader`, `Paging`): line breaking, escaping,
  byte offsets, references and page breaks, with an independent reader that goes from the end of the file to the
  content of every page.
- **Configuration and routes** (`EnvLines`, `EnvSyntax`, `EnvQuoting`, `EnvFile`, `EnvReading`, `EnvPromises`,
  `EnvOtherLines`, `RouteInventory`): in-place rewriting of the environment file, and the inventory of a
  possibly cyclic route graph.

`Rounding`, `Ordering`, `Sequences` and `Chars` hold shared vocabulary. Code that works step by step is a
method or a class with loops, proved against a specification function; the promises are lemmas about that
function, and for every main result also lemmas that say in the entities' own fields what is computed.
`dafny verify dfyconfig.toml` checks everything.

Modelling choices: time stamps are integers; texts that the program strips and case-folds arrive in that
form, with "" for a missing one; story points and percentages are exact `real`s, and Python's `round` is
`Rounding.RoundHalfEven`; the result of a database query is a sequence or set with the query's filter and
order; sorting is `Ordering.Sort`, whose answer is unique when the order leaves no ties.

Where a promise of the program has a limit, the limit is proved for all inputs, as an if-and-only-if unless said
otherwise:

- `InitialScopeFlags.FlagsOfAPage`: when the initial-scope flags of a page are right.
- `HistoryTable.CommitmentWithRepeatsIff`: when repeated history rows falsify the initial commitment.
- `DeliveryConfidence.CertainIffBaselineIs`: when missing baseline statuses can move a returned score.
- `DeliveryConfidence.CoverageThresholds`: how far rounding moves the coverage gates, on both sides of the edge.
- `Classification.CertainIff`, `Classification.PartialYetCertain`: when a PARTIAL value is already certain.
- `MigrationRuns.UnguardedIff`: when a schema is migrated without a valid backup.
- `PdfEscape.EscapedLiteralReadsBack`: which texts a PDF literal gives back.
- `Paging.TallRowOverflowsIff`, `ChartLayout.BarsFitIff`: when rows and bars do not fit.
- `EnvQuoting.QuotedReadsBackIff`: which quoted values are read back from the environment file.
- `EnvOtherLines.OtherLinesSurviveIff`: which texts keep their other lines. All texts that the program reads
  do, by `EnvOtherLines.LinesSurviveAsRead`; the limit concerns the function on other texts.

## Model

| member | source | states |
|---|---|---|
| `SprintScope.SizeIsConserved` | backend/app/services/analytics_service.py:1228-1255 | On any log whose rows agree with the membership just before them, the scope size changes by exactly additions minus removals |
| `SprintScope.ComputeScopeCreep` | backend/app/services/analytics_service.py:1185-1387 | The evaluator lists exactly the queried rows that cross the sprint boundary, and its status and percentage follow from them |
| `SprintScope.MovementsAreRight` | backend/app/services/analytics_service.py:1311-1387 | An addition is a sprint row of a project ticket, after the start and up to the window end, into the sprint, a removal one out of it; commitment and net change follow from them |
| `SprintScope.WindowEndIsRight` | backend/app/services/analytics_service.py:2271-2285 | The window of a closed sprint ends at its completion, or else its planned end; any other at the earlier of now and its planned end |
| `SprintScope.ReconstructedCommitment` | backend/app/services/analytics_service.py:1240-1243 | For any consistent log, current size minus additions plus removals is the true size at sprint start, off by exactly the additions and removals the query missed |
| `SprintScope.CommitmentExactIff` | backend/app/services/analytics_service.py:1240-1243 | The reconstructed commitment equals the true size at sprint start exactly when the missed changes balance out or the clamp hides them |
| `SprintScope.WitnessedMissesNothing` | backend/app/services/analytics_service.py:1311-1339 | If every change after the start is inside the window and of a project ticket, the query misses nothing |
| `SprintScope.ScopeIsConserved` | backend/app/services/analytics_service.py:1311-1339 | Conservation of sprint scope: the commitment is the true size at start, the clamp never fires, and the net change is current minus initial size |
| `InitialScopeFlags.ReplayBackwards` | backend/app/services/analytics_service.py:716-732 | Newest-first overwriting leaves every flag as the old side of the last row read about its key |
| `InitialScopeFlags.ComputeInitialScopeFlags` | backend/app/services/analytics_service.py:689-732 | Every requested key gets one flag: the old side of its earliest membership change in the window, or true without one |
| `InitialScopeFlags.FirstChangeTellsMembership` | backend/app/services/analytics_service.py:716-732 | On a consistent log the old side of a key's first change is its membership at the start |
| `InitialScopeFlags.FlagIsMembershipOrUnseen` | backend/app/services/analytics_service.py:689-732 | On any consistent log a flag is the membership at sprint start, except that a key without a change in the window is always flagged as initial |
| `InitialScopeFlags.FlagIsMembershipAtStart` | backend/app/services/analytics_service.py:689-732 | If nothing changed after the window end, such a key has the membership it has now |
| `InitialScopeFlags.FlagsOfAPage` | backend/app/services/sprint_response_service.py:371-376 | For any page of keys: the flagged keys are exactly those of the page that were in the sprint at its start if and only if every other key of the page changed within the window; no initial key is ever missed |
| `InitialScopeFlags.SettledPageIsRight` | backend/app/services/sprint_response_service.py:365-376 | Pages of the current scope, which the program asks for, meet that condition as long as no listed membership changed after the window end |
| `InitialScopeFlags.FlagsAgreeWithScopeCreep` | backend/app/services/analytics_service.py:701-732 | On any page of issues the creep evidence knows, backward replay and counting agree: the flagged keys are the initial ones of the page, and the commitment counts them and the initial ones elsewhere; on the page of all known issues, replaying forward from them gives the current scope |
| `HistoryTable.HistoryRows.InsertEntries` | backend/app/repositories/sync_repository.py:266-298 | The table grows by exactly the batch entries that were not stored before, with increasing ids; inserted plus skipped is the batch size |
| `HistoryTable.BatchIsStored` | backend/app/repositories/sync_repository.py:270-297 | After a batch the table stores its old entries and the batch, and no earlier row moved |
| `HistoryTable.RowsSayWhatEntriesSay` | backend/app/repositories/sync_repository.py:270-297 | Field by field, every entry of a batch has its row, and every new row is that of an entry no earlier row had |
| `HistoryTable.ReinsertingChangesNothing` | backend/app/repositories/sync_repository.py:270-284 | Inserting the same batch again inserts nothing, whatever ids come next |
| `HistoryTable.RepeatsAreLetThrough` | backend/app/repositories/sync_repository.py:271-297 | The lookup does not see rows waiting for the flush: the table stays free of repeated entries exactly when the batch does not repeat an absent entry |
| `HistoryTable.RepeatsComeFromTheBatch` | backend/app/repositories/sync_repository.py:270-297 | Listed in time order, the table holds a repeated row exactly when it held one before or the batch repeats an absent entry |
| `HistoryTable.CountWithRepeats` | backend/app/services/analytics_service.py:1228-1255 | On any table that holds a consistent log plus repeats, the counted commitment is off by the repeated removals minus the repeated additions in the window, besides the missed changes |
| `HistoryTable.CommitmentWithRepeatsIff` | backend/app/services/analytics_service.py:1240-1243 | The reported commitment is then right exactly when repeats and missed changes balance, or the clamp hides their difference behind an empty initial scope |
| `HistoryTable.RepeatBreaksTheReplay` | backend/app/services/analytics_service.py:1228-1255 | A membership change and its repetition next to each other are inconsistent with every scope, whatever the rest of the log says |
| `HistoryTable.SprintLinks.ReplaceIssueSprints` | backend/app/repositories/sync_repository.py:258-263 | The issue ends up in exactly the given sprints, once each, and no other issue's links change or move |
| `ReleaseChurn.ComputeChurn` | backend/app/services/analytics_service.py:739-865 | One scan in key, time and id order keeps the first row of every transition; the result is the one described by those firsts |
| `ReleaseChurn.MovementsAreRight` | backend/app/services/analytics_service.py:801-843 | Additions are the transitions of the window into the release and removals those out of it, each listed once |
| `ReleaseChurn.RateIsRight` | backend/app/services/analytics_service.py:861-888 | The percentage is withheld exactly while changelogs are incomplete, and otherwise is the returned events per hundred returned tickets, within 0.005 |
| `ReleaseChurn.CountsDependOnMoves` | backend/app/services/analytics_service.py:797-865 | Two tables with the same normalised transitions in the window give the same counts, churned and observed tickets, status and percentage |
| `ReleaseChurn.InBatchRepeatsCountOnce` | backend/app/repositories/sync_repository.py:270-298 | Batches naming the same entries, repeated or reordered in any way, lead to the same churn numbers |
| `ReleaseChurn.FirstsAreLeast` | backend/app/services/analytics_service.py:811-837 | The event kept for a transition is its stored row with the least id |
| `ReleaseChurn.LaterRepeatsChangeNothing` | backend/app/services/analytics_service.py:832-853 | Repetitions stored later, with larger ids, leave the whole result unchanged, event lists included |
| `ReleaseChurn.CountsAreConfirmedMinima` | backend/app/services/analytics_service.py:867-874 | While changelogs are incomplete the counts are confirmed minima: missing rows can only add events |
| `FlowMetrics.OutcomeOf` | backend/app/services/analytics_service.py:1982-2030 | Each scoped ticket has one outcome; a cycle runs from the earliest in-progress time to the least done time strictly after it |
| `FlowMetrics.Classify` | backend/app/services/analytics_service.py:1982-2030 | The sorting evaluator of one ticket computes that outcome from its rows |
| `FlowMetrics.OutcomeIff` | backend/app/services/analytics_service.py:1982-2006 | When a ticket is without status, not done, incomplete or badly timed |
| `FlowMetrics.NoCycleIff` | backend/app/services/analytics_service.py:2008-2030 | Otherwise it lacks a move into progress, or every move into done is no later than any into progress |
| `FlowMetrics.ListsNameOutcomes` | backend/app/services/analytics_service.py:1974-2039 | Each list names exactly the tickets with its outcome, and the cycles are listed in order |
| `FlowMetrics.EvaluateCycleTime` | backend/app/services/analytics_service.py:1968-2085 | The loop over tickets in key order fills the lists of the outcome classes and returns the summary of them |
| `FlowMetrics.OutcomesPartition` | backend/app/services/analytics_service.py:1974-2039 | Every scoped ticket is counted in exactly one class, and the durations are those of the listed cycles |
| `FlowMetrics.MedianSplits` | backend/app/services/analytics_service.py:2047 | At least half of the durations lie on each side of the median |
| `FlowMetrics.MedianIsMiddle` | backend/app/services/analytics_service.py:2047 | Of any ordered arrangement the median is the middle duration, or the mean of the two in the middle |
| `FlowMetrics.DurationsAreDays` | backend/app/services/analytics_service.py:2028-2029 | Durations are counted in days of 24 hours |
| `FlowMetrics.MedianWithheldIff` | backend/app/services/analytics_service.py:2039-2051 | The median is withheld exactly while a ticket has no status or a done ticket an incomplete history |
| `FlowMetrics.ReturnedMedian` | backend/app/services/analytics_service.py:2042-2050 | A returned value is within half a ten-thousandth of the median of strictly positive durations |
| `FlowMetrics.CycleTimeDependsOnFacts` | backend/app/services/analytics_service.py:1968-2085 | Reordering tickets and reordering or repeating history rows changes nothing in the result |
| `FlowMetrics.OnlyDoneTicketsMatter` | backend/app/services/analytics_service.py:1982-1990 | Tickets that are not done contribute nothing, whatever their histories say or lack |
| `ReopenRate.EvaluateReopenRate` | backend/app/services/analytics_service.py:2088-2210 | The evaluator reports exactly the eligible tickets and the distinct reopening events of eligible tickets, with correct per-ticket counts |
| `ReopenRate.EventIff` | backend/app/services/analytics_service.py:2101-2135 | A returned event is a row that takes a ticket out of done into a known status that is not done, of a ticket that is done or has a row into done; every such row is returned |
| `ReopenRate.EligibleIff` | backend/app/services/analytics_service.py:2107-2124 | A returned ticket is one that is done or has a row into done |
| `ReopenRate.WithheldIff` | backend/app/services/analytics_service.py:2125-2163 | The rate is withheld exactly while a ticket has an incomplete history, or no status and no row into done |
| `ReopenRate.CountsAddUp` | backend/app/services/analytics_service.py:2144-2147 | The per-ticket counts add up to the number of events |
| `ReopenRate.ConfirmedRate` | backend/app/services/analytics_service.py:2101-2169 | A returned rate, its events and eligible tickets are the same in every completion of missing statuses; a withheld one reports confirmed minima |
| `ReopenRate.AffectingMatters` | backend/app/services/analytics_service.py:2123-2125 | Withholding is needed: a listed ticket is eligible in one completion and not in another |
| `ReopenRate.RateDependsOnFacts` | backend/app/services/analytics_service.py:2101-2169 | Order and repetition of rows do not matter, and every counted event belongs to an eligible ticket |
| `Workload.BucketKeysAreFaithful` | backend/app/services/analytics_service.py:1495-1504 | Two tickets share a bucket key exactly when they have the same account, or both none and the same folded name |
| `Workload.FillBuckets` | backend/app/services/analytics_service.py:1490-1517 | The bucket dictionary holds, in first-seen order, exactly the labels, points and keys of each person's tickets |
| `Workload.ComputeWorkload` | backend/app/services/analytics_service.py:1390-1626 | The evaluator with its early exits computes the described distribution |
| `WorkloadFormula.ShareIsRight` | backend/app/services/analytics_service.py:1558-1576 | The returned share is 100 times the points of the returned top assignee over the returned total, within 0.005; nobody has more; and the band is that of the returned value |
| `WorkloadFormula.TotalsAreRight` | backend/app/services/analytics_service.py:1487-1532 | There is one total for each person with a ticket that counts: the points of their open, pointed tickets, within 0.005, under the first of their labels |
| `WorkloadFormula.ListsAreRight` | backend/app/services/analytics_service.py:1415-1487 | Which tickets stand in each returned list, by status, estimate and account |
| `WorkloadFormula.CoverageIsRight` | backend/app/services/analytics_service.py:2226-2244 | The coverage gates in counts of tickets: 100 up to one unpointed ticket in 20000, 50 above 9999 pointed ones in 20000 |
| `WorkloadFormula.StatusIsRight` | backend/app/services/analytics_service.py:1435-1578 | Which status is returned, by coverage, missing statuses, open tickets and display names |
| `Workload.OneAssigneeEach` | backend/app/services/analytics_service.py:1490-1529 | Every included ticket is listed under exactly one assignee, its own |
| `Workload.TotalIsSum` | backend/app/services/analytics_service.py:1533-1536 | The outer rounding of the total loses nothing |
| `Workload.TotalIsConserved` | backend/app/services/analytics_service.py:1519-1536 | The reported total differs from the included points by at most 0.005 per assignee |
| `Workload.ConcentrationBounds` | backend/app/services/analytics_service.py:1558-1569 | The top assignee carries at least as much as any other, and the share lies between the rounded equal share and 100 |
| `Workload.ReturnedShare` | backend/app/services/analytics_service.py:1441-1556 | A share is returned only if every ticket has a status, coverage suffices and some active ticket carries points; COMPUTED promises full coverage and no guessed identity |
| `Workload.RowOrderDoesNotMatter` | backend/app/services/analytics_service.py:1390-1626 | The whole result, every list of it, depends only on which rows there are |
| `DeliveryConfidence.ComputeDeliveryConfidence` | backend/app/services/analytics_service.py:1629-1864 | A score is returned exactly for scorable sprints and is always within 0 and 100, as is each component |
| `DeliveryFormula.ElapsedIsShare` | backend/app/services/analytics_service.py:2259-2268 | Elapsed time is 100 times the time since the start over the length of the window, 0 before it and 100 after it |
| `DeliveryFormula.PointsAddUp` | backend/app/services/analytics_service.py:1725-1730 | Committed points are the valid estimates of all tickets, completed points those of the tickets that are done |
| `DeliveryFormula.VelocitiesAddUp` | backend/app/services/analytics_service.py:1747-1769 | The points completed in each baseline sprint are added up, each within 0.005 |
| `DeliveryFormula.VelocityIsMean` | backend/app/services/analytics_service.py:1770-1775 | The velocity is the mean of these, within 0.005, and there is none without a baseline sprint |
| `DeliveryFormula.ProgressOfSprint` | backend/app/services/analytics_service.py:1733-1745 | Progress is the completed share of the points over the elapsed share of the time, at most 100, within 0.005 |
| `DeliveryFormula.VelocityFitOfSprint` | backend/app/services/analytics_service.py:1771-1786 | Velocity fit is the capacity over the points left, at most 100, and the capacity is the velocity times the share of the window that is left, each within 0.005 |
| `DeliveryFormula.ScoreOfSprint` | backend/app/services/analytics_service.py:1804-1839 | Blockers over tickets, scope creep, and the score as the weighted sum of the four components, each within 0.005 |
| `DeliveryFormula.StatusIsRight` | backend/app/services/analytics_service.py:1702-1802 | COMPUTED says that the sprint and every baseline sprint are pointed throughout, PARTIAL that one is not, up to one ticket in 20000 |
| `DeliveryFormula.ScoredIff` | backend/app/services/analytics_service.py:1640-1700 | A score is returned just when more than half of the tickets are pointed, up to the proved threshold, pointed tickets have statuses, no ticket could still be a blocker, and window, histories and scope creep are there |
| `DeliveryConfidence.ScoreIsMonotone` | backend/app/services/analytics_service.py:1725-1839 | With clock and baseline fixed, more completed points, fewer blockers and less scope creep never lower the score, through every clamp and rounding |
| `DeliveryConfidence.FinishingWorkNeverLowersTheScore` | backend/app/services/analytics_service.py:1712-1839 | Moving tickets to done never takes the score away and never lowers it |
| `DeliveryConfidence.ScoreIsCertain` | backend/app/services/metric_availability_service.py:400-531 | The prerequisites suffice: a returned result is the result in every completion of the sprint's missing statuses, types and severities |
| `DeliveryConfidence.FullComponents` | backend/app/services/analytics_service.py:2288-2305 | Each component is full exactly when the work done has caught up with the clock, the capacity covers the remaining work, nothing blocks, and the scope has not grown |
| `DeliveryConfidence.ComponentShares` | backend/app/services/analytics_service.py:51-56 | The weights read off the score: equal components give that score, and a component moves the score by its own share, up to rounding |
| `DeliveryConfidence.VelocityIsBetween` | backend/app/services/analytics_service.py:1771-1776 | The historical velocity lies between the slowest and the fastest baseline sprint, up to rounding |
| `DeliveryConfidence.VelocityBounds` | backend/app/services/analytics_service.py:1747-1776 | The velocity read off the baseline is at most that of any completion of the baseline sprints, and counting every ticket without a status as done gives the greatest |
| `DeliveryConfidence.ResultIsBetween` | backend/app/services/analytics_service.py:1747-1839 | Completing the baseline can raise the velocity fit and the score, at most to what they are with everything undecided done, and moves nothing else in the result |
| `DeliveryConfidence.CertainIffBaselineIs` | backend/app/services/metric_availability_service.py:400-531 | The prerequisites do not look at the baseline: the result (and likewise the score alone) is that of every full completion of sprint and baseline exactly when it stays the same after counting every baseline ticket without a status as done |
| `DeliveryConfidence.CheckedBaselinesSuffice` | backend/app/services/metric_availability_service.py:400-531 | The check made for the sprint, no pointed ticket without a status, would be enough if it were made for the baseline sprints too |
| `DeliveryConfidence.BaselineStatusMovesTheScore` | backend/app/services/analytics_service.py:1747-1776 | An input on which that matters: filling in one baseline status moves a returned score from 70 to 100 |
| `DeliveryConfidence.CoverageThresholds` | backend/app/services/analytics_service.py:2226-2244 | Because coverage is rounded first, full coverage is reported when fewer than one ticket in 20000 is unpointed and not when more are, and the 50 percent gate opens above 9999 pointed tickets in 20000 and stays shut below |
| `VelocityBaseline.ListBaselineSprints` | backend/app/services/analytics_service.py:1886-1921 | The filter-and-break loop returns the top three eligible sprints, or all of them, in strictly descending date and id, each above every eligible sprint left out |
| `VelocityBaseline.BaselineIsRight` | backend/app/services/analytics_service.py:1886-1921 | Every sprint of the baseline was completed, or else planned to end, no later than the scored one starts, and is pointed enough; no other such sprint left out is later than one of them, and then there are three |
| `VelocityBaseline.BaselineIsUnique` | backend/app/services/analytics_service.py:1886-1921 | That description has one answer, whatever order the rows are read in |
| `CsvSettings.CsvOfJoined` | backend/app/config.py:309-310 | A setting written as a comma-separated list gives the set of its stripped, case-folded, non-blank items, whatever their order, repetition and padding |
| `CsvSettings.StripTakesSpaces` | backend/app/config.py:309-310 | Stripping takes nothing but white space from the ends of an item |
| `CsvSettings.NeverBlank` | backend/app/config.py:309-310 | Whatever the setting, no classification set holds the empty text |
| `Classification.EvaluateClassificationMetrics` | backend/app/services/metric_availability_service.py:765-981 | One pass fills every list with the tickets the verdicts put there, and the completion percentage is given just when no status is missing |
| `Classification.ListedBlockers` | backend/app/services/metric_availability_service.py:809-846 | A listed blocker has a status that is not done and the flag or, without one, a matching type, severity or status; every such ticket is listed |
| `Classification.UndecidedBlockers` | backend/app/services/metric_availability_service.py:822-846 | A ticket listed as missing lacks its status or a type or severity that could still decide it; every such ticket is listed |
| `Classification.HighBugListsAreRight` | backend/app/services/metric_availability_service.py:848-880 | A listed high-severity bug has matching type and severity and an open status; one listed as missing lacks the first of them that decides |
| `Classification.CompletedListsAreRight` | backend/app/services/metric_availability_service.py:809-820 | A ticket is listed as completed just when its status is done, and as missing just when it has none |
| `Classification.WorkStateListsAreRight` | backend/app/services/metric_availability_service.py:594-745 | Which tickets are counted as in progress, not started and unfinished, by status alone |
| `Classification.VerdictsAreSound` | backend/app/services/jira_field_mapper.py:270-304 | A match stays a match and a non-match a non-match however missing texts are filled in, the blocker flag being fixed |
| `Classification.ConfirmedMinimum` | backend/app/services/metric_availability_service.py:809-880 | In every completion the matching keys are matches, and every match is a matching key or one listed as missing; a COMPUTED list is exact |
| `Classification.EvaluatedOrMissing` | backend/app/services/metric_availability_service.py:809-880 | Every ticket is listed as evaluated or as missing, and every match as evaluated |
| `Classification.EvaluatorsAreExact` | backend/app/services/metric_availability_service.py:809-880 | For all three evaluators the value is the least any completion gives, and a checkable test tells which open tickets can still match |
| `Classification.CertainIff` | backend/app/services/metric_availability_service.py:809-880 | The value is attained by a completion, and it is the only possible one exactly when every ticket that could match already does |
| `Classification.PartialYetCertain` | backend/app/services/metric_availability_service.py:822-833 | PARTIAL can be over-cautious: a flagged non-blocker without a status is listed as missing though no completion makes it a blocker |
| `Classification.CompletedPctIsCertain` | backend/app/services/metric_availability_service.py:949-966 | A reported completion percentage is the percentage in every completion |
| `Classification.WorkStatesSplitTheScope` | backend/app/services/metric_availability_service.py:619-639 | Done, in progress, not started and without status split the sprint scope |
| `Classification.RolloverIsUnfinished` | backend/app/services/metric_availability_service.py:622-639 | Roll-over counts what is in progress and what is not started |
| `Classification.WorkStateHolds` | backend/app/services/metric_availability_service.py:594-745 | Each sprint count is a confirmed minimum and exact when COMPUTED; roll-over is reported for closed sprints only |
| `MigrationProtocol.TempIsNeverCanonical` | backend/app/db/migrations.py:95-110 | No temporary file name is the canonical backup name of any target |
| `MigrationProtocol.SchemaIsBackedUp` | backend/app/db/migrations.py:33-62 | A database must be backed up when it has any table besides the version table and lives in a SQLite file |
| `MigrationProtocol.PlanIsRight` | backend/app/db/migrations.py:20-81 | Startup decides as backup validation would identify the database: it refuses exactly what has no identity and is not fresh, leaves exactly what is at the target, backs up exactly the existing SQLite files, and upgrades the rest from their identity |
| `MigrationRuns.StepKeepsInv` | backend/app/db/migrations.py:84-135 | Every step of any starter, every failure, crash and outside change keeps the protocol invariant and every file that is not temporary |
| `MigrationRuns.NoMigrationWithoutBackup` | backend/app/db/migrations.py:58-81 | In every run a database file found with a schema is stamped or upgraded only while the file named after database and target is a SQLite database identified as the one found, at a revision that stands before the target in the chain |
| `MigrationRuns.PublishedForever` | backend/app/db/migrations.py:119-135 | In every run a published backup is never overwritten, replaced or removed |
| `MigrationRuns.PublishedBackupsAreWhole` | backend/app/db/migrations.py:95-135 | In every run a canonical backup that no outsider put there holds a whole database, one that the migrated database once was |
| `MigrationRuns.FoundWasThere` | backend/app/db/migrations.py:20-57 | In every run a starter at work looked at the database once, at an earlier moment, and carries out its plan for the database of that moment |
| `MigrationRuns.TakenIffPublished` | backend/app/db/migrations.py:95-135 | In every run a backup name is taken exactly if it was at the start, or a publication or an outsider took it since |
| `MigrationRuns.UnguardedIff` | backend/app/db/migrations.py:30-92 | Exactly when a SQLite schema is migrated without a valid backup to rely on, in every run: never if the starter found a schema in a file; otherwise always if it found no table at all, whatever has the backup name, and else just when no valid backup of the recorded revision is there |
| `MigrationRuns.RaceTakesTwo` | backend/app/db/migrations.py:30-81 | For a database in a file, in every such run someone else built the schema after the starter looked and before it migrates |
| `MigrationRuns.LeftAloneIsGuardedNow` | backend/app/db/migrations.py:58-81 | A starter whose database nobody else changes while it works migrates an existing schema in a file only beside a valid backup of the very revision the database is at, the stamp included |
| `MigrationRuns.FreshDatabaseRace` | backend/app/db/migrations.py:30-81 | Such runs exist on every disk with a fresh database: two versions start at once, and the newer upgrades the schema the older one built, which it would have backed up had it looked again |
| `MigrationHost.Host.CreateSqliteBackup` | backend/app/db/migrations.py:84-135 | One startup: the backup is made or trusted exactly when that is possible, is an exact copy when made, and no temporary file is left that could be removed |
| `MigrationHost.Host.MigrateDatabase` | backend/app/db/migrations.py:20-81 | One startup is a run of the protocol; it migrates only with a valid backup, leaves a refused database untouched, leaves exactly databases at the target unchanged, and without I/O failures migrates every database file recorded earlier in the chain whose backup name is free |
| `MigrationHost.RecordedWillSucceed` | backend/app/db/backup_validation.py:249-279 | On a database file that records chain[i], with target chain[j]: startup goes through exactly when they are the same, or i < j and the backup name is free or leads to a SQLite file that records chain[i] too |
| `MigrationHost.LegacyWillSucceed` | backend/app/db/backup_validation.py:249-279 | On a database file without a version table at the shape of chain[i]: exactly when i < j and the backup name is free or leads to such a database at the shape of chain[i] |
| `MigrationHost.Host.PublishCopy` | backend/app/db/migrations.py:111-132 | Publishing links the validated copy without overwriting, and validates what is there when the name is taken |
| `SchemaRevision.InferLegacyRevision` | backend/app/db/schema_revision.py:171-207 | The loop with its break and rejections computes the inference |
| `SchemaRevision.CompleteIsContainment` | backend/app/db/schema_revision.py:240-247 | A shape is complete exactly when the schema holds every name it requires |
| `SchemaRevision.PartialIsOverlap` | backend/app/db/schema_revision.py:250-257 | A shape is partially present exactly when the schema holds some name it requires |
| `SchemaRevision.NamesRequired` | backend/app/db/schema_revision.py:240-257 | A shape requires its tables, and of the tables it names the columns |
| `SchemaRevision.NamesHeld` | backend/app/db/schema_revision.py:240-257 | A schema holds its tables and their columns |
| `SchemaRevision.InferenceIsSound` | backend/app/db/schema_revision.py:171-207 | An inferred revision is that of a shape all of whose requirements, and earlier ones, are there, with nothing of later shapes or markers |
| `SchemaRevision.AtShapeIsUnique` | backend/app/db/schema_revision.py:171-207 | At most one shape fits a schema |
| `SchemaRevision.InferenceIsComplete` | backend/app/db/schema_revision.py:171-207 | A schema exactly at a shape is recognised as that shape |
| `SchemaRevision.RejectedIffAtNoShape` | backend/app/db/schema_revision.py:171-207 | A schema is rejected exactly when it is at no shape: every partial and mixed schema is |
| `SchemaRevision.IdentifiedIff` | backend/app/db/schema_revision.py:210-237 | A database is identified as r exactly when it records r alone and r is known, or when it records nothing, has no version table and is at the shape of r |
| `SchemaRevision.AccumulatedIsInferred` | backend/app/db/schema_revision.py:171-207 | For registries that introduce only new names, the schema built through revision k is inferred as revision k |
| `InstalledRevisions.NamesAreNew` | backend/app/db/schema_revision.py:24-168 | The installed registry introduces only new names: no two revisions, and no revision and later marker, require the same table or column, and every revision requires something |
| `InstalledRevisions.TablesAreKnown` | backend/app/db/schema_revision.py:24-115 | The installed registry adds columns only to tables of this or an earlier revision |
| `InstalledRevisions.InstalledIsInferred` | backend/app/db/schema_revision.py:24-207 | So every schema that the installed revisions build in order is recognised as the last of them |
| `RasterCanvas.LineWalk` | backend/app/services/report_chart_renderer.py:210-237 | For all end points the walk visits max(abs dx, abs dy)+1 points from start to end, each a neighbour of the last, each within half a pixel of the ideal segment |
| `RasterCanvas.TurnKeepsTrack` | backend/app/services/report_chart_renderer.py:230-237 | One turn of the loop keeps the error term and the deviation bound |
| `RasterCanvas.ArrivesTogether` | backend/app/services/report_chart_renderer.py:226-228 | The walk reaches both coordinates of the end point at once, so the loop ends |
| `RasterCanvas.SweptIsUnion` | backend/app/services/report_chart_renderer.py:222-226 | The swept region is the union of the brush squares of the walk |
| `RasterCanvas.BrushIsCentred` | backend/app/services/report_chart_renderer.py:222-226 | The brush reaches equally far to all sides, or one pixel further up and left for an even width |
| `RasterCanvas.Canvas.constructor` | backend/app/services/report_chart_renderer.py:159-167 | A new canvas shows the background at every pixel |
| `RasterCanvas.Canvas.SetPixel` | backend/app/services/report_chart_renderer.py:172-176 | Exactly the one pixel, if on the canvas, changes; the buffer keeps its length |
| `RasterCanvas.Canvas.FillRect` | backend/app/services/report_chart_renderer.py:178-195 | Exactly the clipped rectangle changes; the buffer keeps its length |
| `RasterCanvas.Canvas.DrawRect` | backend/app/services/report_chart_renderer.py:197-208 | Exactly the clipped strokes of the four sides change |
| `RasterCanvas.OutlineIsFourSides` | backend/app/services/report_chart_renderer.py:197-208 | The outline of a rectangle is exactly the pixels of its four sides |
| `RasterCanvas.Canvas.Line` | backend/app/services/report_chart_renderer.py:210-237 | The line terminates, and afterwards exactly the clipped union of the brush squares has the colour |
| `RasterCanvas.Canvas.Circle` | backend/app/services/report_chart_renderer.py:239-249 | Exactly the clipped disc changes |
| `RasterCanvas.DiscInsideSquare` | backend/app/services/report_chart_renderer.py:246-249 | The disc of a circle lies within the square the loops scan |
| `ChartLayout.MaxValue` | backend/app/services/report_chart_renderer.py:150-155 | The scale is at least one, and without a configured maximum no value exceeds it |
| `ChartLayout.HeightsAreFaithful` | backend/app/services/report_chart_renderer.py:261-267 | Larger values are drawn no lower, zero on the bottom line and the maximum on the top line, within half a pixel of the exact height |
| `ChartLayout.RenderBarChart` | backend/app/services/report_chart_renderer.py:122-147 | The canvas changes on exactly the union of the bars |
| `ChartLayout.BarStands` | backend/app/services/report_chart_renderer.py:136-147 | Bar i stands i widths and gaps from the left edge, is cut off at the right edge, and is as high as its value within half a pixel |
| `ChartLayout.BarsAreWidest` | backend/app/services/report_chart_renderer.py:134-135 | Bars are at least six pixels wide, and as wide as fit with their gaps |
| `ChartLayout.BarsStayApart` | backend/app/services/report_chart_renderer.py:132-147 | For all values, no two bars overlap and no bar leaves the plot area to the side or below; one rises above it only when a configured maximum is exceeded by half a pixel or more |
| `ChartLayout.BarsFitIff` | backend/app/services/report_chart_renderer.py:133-145 | Every bar keeps its full width exactly when bars of the least width, with their gaps, fit into the plot |
| `ChartLayout.PointsRunLeftToRight` | backend/app/services/report_chart_renderer.py:102-107 | Line points run from the left edge to the right edge and never go back |
| `ChartLayout.PointsAreSpread` | backend/app/services/report_chart_renderer.py:102-107 | Points are spread evenly over the width, each within half a pixel |
| `ChartLayout.PointsInPlot` | backend/app/services/report_chart_renderer.py:102-107 | Every line point lies between the side edges, and within the plot while its exact height leaves it by less than half a pixel; beyond half a pixel it lies outside |
| `ChartLayout.RenderLineChart` | backend/app/services/report_chart_renderer.py:85-120 | The canvas changes on exactly the strokes between neighbouring points and the discs at them |
| `TextWrap.Wrap` | backend/app/services/report_pdf_renderer.py:474-487 | The words are kept in order, every line fits or is a single overlong word, and no split into fitting lines has fewer lines |
| `TextWrap.WrapWords` | backend/app/services/report_pdf_renderer.py:475-486 | The loop produces the greedy lines of the words |
| `TextWrap.GreedyIsOptimal` | backend/app/services/report_pdf_renderer.py:474-487 | A greedy breaking has at most as many lines as any breaking of the same words |
| `TextWrap.SplitOfJoin` | backend/app/services/report_pdf_renderer.py:475 | Splitting words joined by blanks gives the words back |
| `PdfEscape.PassesAreOnePass` | backend/app/services/report_pdf_renderer.py:490-491 | The three replacement passes write the same as escaping each character once |
| `PdfEscape.EscapedLiteralReadsBack` | backend/app/services/report_pdf_renderer.py:490-509 | For every text the escaped and encoded literal ends at its own parenthesis and reads back as the Latin-1 text with line ends normalised (section 7.3.4.2 of ISO 32000-1), so it reads back as the text exactly when that holds no carriage return and no character beyond Latin-1 |
| `PdfWriter.BuildPdf` | backend/app/services/report_pdf_renderer.py:494-535 | The writer that grows the output and records offsets produces the described file |
| `PdfWriter.ObjectAtOffset` | backend/app/services/report_pdf_renderer.py:519-525 | Every recorded offset is the exact position of its own object |
| `PdfWriter.StartXrefIsRight` | backend/app/services/report_pdf_renderer.py:526-535 | The number after startxref is the position of the keyword xref |
| `PdfWriter.EntriesAreTwentyBytes` | backend/app/services/report_pdf_renderer.py:527-530 | While offsets are below 10^10 every entry is 20 bytes and stands at its place |
| `PdfWriter.XrefIsRight` | backend/app/services/report_pdf_renderer.py:519-535 | Entry i read from the table is the position of object i (section 7.5.4 of ISO 32000-1) |
| `PdfReader.BodyIsRead` | backend/app/services/report_pdf_renderer.py:519-535 | An independent reader that starts at the end of the file finds that the table and /Size both count one more than the objects, that /Root is the catalogue, and every object under its own number |
| `PdfReader.TreeIsRead` | backend/app/services/report_pdf_renderer.py:495-499 | Through the catalogue it finds the page tree, /Count is the number of pages, and the kids are the page objects, in order |
| `PdfReader.PageEntriesAreRead` | backend/app/services/report_pdf_renderer.py:502-509 | A page names the page tree as parent, its size, both fonts and its own stream |
| `PdfReader.StreamIsRead` | backend/app/services/report_pdf_renderer.py:509-517 | The recorded length gives the stream back, and its closing keyword stands where it ends |
| `PdfReader.StreamLinesAreRead` | backend/app/services/report_pdf_renderer.py:509 | Read up to each newline, the stream gives the drawn lines back, one by one |
| `PdfReader.PagesReadBack` | backend/app/services/report_pdf_renderer.py:494-535 | Round trip: from the header and startxref through table, trailer, /Root and page tree, the reader finds as many pages as /Count says, and on each its parent, size, fonts and content, in order |
| `Decimal.PaddedLength` | backend/app/services/report_pdf_renderer.py:529-530 | A zero-padded offset has ten digits exactly when it is below 10^10 |
| `Decimal.ValueOfPadded` | backend/app/services/report_pdf_renderer.py:529-530 | Zero padding does not change the number |
| `Paging.Renderer.Render` | backend/app/services/report_pdf_renderer.py:44-49 | The renderer object lays out the blocks as described, page by page |
| `Paging.Renderer.EnsureSpace` | backend/app/services/report_pdf_renderer.py:334-356 | A block that would reach the footer closes the page and starts a new one |
| `Paging.EverythingIsDrawn` | backend/app/services/report_pdf_renderer.py:77-175 | Every text of the document is drawn exactly once, in order, whatever the page breaks |
| `Paging.LaterIsBelow` | backend/app/services/report_pdf_renderer.py:77-175 | What a block draws lies below everything that earlier blocks drew on the same page; a block that turns the page is the first on it |
| `Paging.PagesAreNumbered` | backend/app/services/report_pdf_renderer.py:343-356 | Each page ends in its own number and has no other footer |
| `Paging.FooterStaysFree` | backend/app/services/report_pdf_renderer.py:334-341 | If no block is taller than a page, nothing is drawn below the body of any page |
| `Paging.BlocksAskForEnough` | backend/app/services/report_pdf_renderer.py:77-175 | Every block asks for so much space that at most three points less than the page body are left after it |
| `Paging.TallRowOverflowsIff` | backend/app/services/report_pdf_renderer.py:141-174 | Rows are not split: wherever a row starts, it stays in the page body exactly when it is no taller than that, and otherwise its last line falls into the footer |
| `Paging.ReservedStaysTogether` | backend/app/services/report_pdf_renderer.py:77-78 | Blocks that fit into a reserved space are drawn on one page |
| `Paging.HeadingIsNotLeftAlone` | backend/app/services/report_pdf_renderer.py:77-88 | The 78 points a section reserves keep its divider, heading and first line together for headings up to 37 points |
| `EnvLines.LinesOf` | backend/app/services/configuration_service.py:123 | Splitting keeps the text: the lines are lines, joined they are the text, and no return meets a newline |
| `EnvLines.SplitOfJoined` | backend/app/services/configuration_service.py:141 | Splitting joined lines gives them back, except where a lone return meets a newline |
| `EnvSyntax.ParseAgrees` | backend/app/services/configuration_service.py:12 | A match depends only on the text up to the equals sign |
| `EnvSyntax.ParseOfAssignment` | backend/app/services/configuration_service.py:12 | A written assignment is matched with its prefix and key, whatever the key, export included |
| `EnvSyntax.ExportIsMatched` | backend/app/services/configuration_service.py:12 | An assignment is matched with blanks before it, and with export and blanks in between |
| `EnvSyntax.BlanksBeforeEquals` | backend/app/services/configuration_service.py:12 | Blanks may stand between a name and the equals sign |
| `EnvFile.UpdateEnvText` | backend/app/services/configuration_service.py:116-141 | The loop over lines computes the described text |
| `EnvFile.RewrittenKeepsTheFront` | backend/app/services/configuration_service.py:134-136 | A rewritten line is the old one up to and with its key, then the new value and the old kind of newline |
| `EnvPromises.ReplacedInPlace` | backend/app/services/configuration_service.py:122-137 | The first line that assigns a key is replaced where it stands, after what became of the lines before it |
| `EnvPromises.EachKeyIsAssignedOnce` | backend/app/services/configuration_service.py:120-141 | Read again, the new text assigns each replaced key exactly once, to its new value |
| `EnvPromises.OtherKeysAreUnchanged` | backend/app/services/configuration_service.py:120-141 | All other assignments are there as before, in order, so lookups of other keys do not change |
| `EnvOtherLines.MeetIffGap` | backend/app/services/configuration_service.py:123-136 | Two kept lines come to stand where they read as one exactly where only dropped duplicates stood between a line ending in a lone return and a blank line |
| `EnvOtherLines.LinesSurviveAsRead` | backend/app/services/configuration_service.py:106-136 | On every text as the program reads it, with line ends turned into newlines, the new text read again has every line that assigns no replaced key, in order and up to a final newline |
| `EnvOtherLines.OtherLinesSurviveIff` | backend/app/services/configuration_service.py:116-141 | As a function on all texts, those with lone returns included, the same holds exactly when the text has no such gap |
| `EnvOtherLines.BlankLineIsLost` | backend/app/services/configuration_service.py:116-141 | A text with a lone return, which the program cannot pass, on which a blank line is lost |
| `EnvPromises.UpdatingTwice` | backend/app/services/configuration_service.py:116-141 | Applying the same update again changes nothing, to the last character |
| `EnvQuoting.QuotedReadsBackIff` | backend/app/services/configuration_service.py:144-147 | By the rules of python-dotenv, which loads the file, a quoted value is read back in every environment exactly when it has no two backslashes in a row, no variable, and does not end in a backslash while the rest of the file holds another quote |
| `RouteInventory.RegisteredRoutes` | backend/app/security.py:72-97 | The worklist ends on any finite graph, cyclic or not, and finds the keys of exactly the reachable routes |
| `RouteInventory.RegistersIff` | backend/app/security.py:72-97 | What is registered is a method, in upper case, of a path that a route at the end of a path of nested and included routes has |
| `RouteInventory.Validate` | backend/app/security.py:114-144 | Validation accepts exactly when the classes are disjoint, the health check alone is public, and the declared routes are the reachable ones; otherwise it names exactly the duplicate, unclassified and stale routes |
| `RouteInventory.AcceptedRoutesHaveOneClass` | backend/app/security.py:99-111 | After that every reachable route has exactly one class, nothing else has one, and only the health check is public |
| `Rounding.RoundHalfEven` | backend/app/services/analytics_service.py:2236 | Rounding moves a value by at most half a unit |
| `Rounding.TiesGoToEven` | backend/app/services/analytics_service.py:2236 | Halfway between two whole numbers the even one is taken |
| `Rounding.RoundHalfEvenMonotone` | backend/app/services/analytics_service.py:1825-1839 | Rounding keeps the order of values |

## Left out

- SQLAlchemy sessions, FastAPI routes, Pydantic schemas and Alembic operations: query results are inputs, and an upgrade is one step that may fail.
- IEEE floating point: reals with the rounding the program asks for; the last binary digit of a Python float, and with it the outcome where a value lies exactly on a rounding edge, is not modelled.
- Case folding, date parsing and `_history_value_references_sprint`: normalised texts, integers and a membership predicate are inputs.
- Explanation strings, catalogue texts, logging and the evidence fields that only repeat inputs.
- `fsync`, `zlib`, file modes and SQLite's page format: flushing, copying and validating are steps that succeed or fail.
- Removal or replacement of existing files by other programs during a migration: the outside world may change the database and add files, but not remove or overwrite them.
- Transaction rollback of a failed upgrade: a failed stamp or upgrade may leave any database behind.
- Standalone backups (`create_standalone_sqlite_backup`): a separate command. It publishes with a rename after checking that the target is free, so a file that appears between the check and the rename is replaced on POSIX systems; the startup protocol links instead.
- Logo, images, lines and colours of the report: paging covers the texts of the masthead, headings, lines, bullets, rows and charts, and the space they and dividers, spacers and reservations take.
- Signals, snapshot comparison, synchronisation and reporting services, Jira requests and retries, and the React client are not part of this model.
- The superseded helpers `_compute_reopen_rate_pct` and `_compute_median_cycle_time_days`.
- MigrationRuns.NoMigrationWithoutBackup: speaks of the schema the starter found, in a file. In-memory databases and `file:` URLs are migrated without a backup in every run; MigrationRuns.UnguardedIff covers them and schemas that appear after the look.
- EnvQuoting.QuotedReadsBackIff: python-dotenv itself is not part of the repository; its patterns and escapes for single-quoted values are written out.
- FlowMetrics.CycleTimeDependsOnFacts: assumes distinct ticket keys, which the database guarantees.
- MigrationHost.Host: helper methods split `_create_sqlite_backup`, whose `finally` clause becomes the removal after the copy.
