# Verified model of the web client's algorithms

This project models the six parts of the web client that hold real algorithms and
proves what they promise, in Dafny. `dafny verify dfyconfig.toml` checks all of it.

| files | part of the client |
|---|---|
| `LiveQueryState`, `LiveQueryRuns`, `LiveQueryInvalidation`, `LiveQueryRefinement`, `LiveQueryModule` | the single-flight, stale-if-error query cache |
| `BranchModel`, `BranchOverdue`, `BranchReasons`, `BranchDailyReasons`, `BranchExposure`, `BranchExposureLaws`, `BranchCollection`, `BranchReport`, `BranchOrder` | branch risk analytics |
| `RealtimeProtocol`, `RealtimeModule` | reference-counted shared sockets |
| `QueryString`, `OwnerScope`, `OwnerRequest` | branch-scoped cache keys and the retrying owner request |
| `DateGroups` | grouping by local calendar day |
| `Pagination` | cutting a list into pages, and the page bar |
| `OrderedMaps`, `StableSort`, `Permutations`, `Texts`, `Integers`, `Options` | JavaScript's insertion-ordered Map, its stable sort, sums over lists, text search |

**How state is modelled.** The cache and the socket table are classes whose methods do
what the exported functions do, statement by statement. Every method's contract equates
its whole new state with a step of a state machine (`LiveQueryState.Apply`,
`RealtimeProtocol.Apply`), and the theorems are about every run of that machine: any
interleaving of calls, settling loads, writes, peeks, invalidations, clears and passing
time; any interleaving of connects and disconnects. The nested-map loops of the analytics,
the retry loop, the grouping loop and the page-bar loop are methods proved equal to a
recursive function, and the theorems are about that function.

**What turned out not to hold.** Some things one might expect of the code are false.
Each has a concrete counterexample and the exact condition under which it holds:

- Single flight can be lost by a clear. It is lost for a key exactly by a clear that meets
  a running load of the key (`StepOrphanFree`, `SingleFlight`). Per key there can then be
  one unsettled load for each clear so far, plus one, and every number of clears attains it
  (`LoadsPerKeyBound`, `LoadsPerKeyBoundAttained`).
- After an invalidation a call can still get older data: it may join a load that was
  already running, and that load falls back on the entry it captured
  (`InvalidationLetsJoinedLoadsFallBack`). This can happen exactly when, at the
  invalidation, a load of the key is in flight whose captured entry is younger than 90
  seconds (`InvalidationLeaksIff`); after a clear no data stored before it is yielded at all.
- Data asked for before a clear or an invalidation can still be stored and yielded after it,
  by a load that was started before and delivers later. This can happen exactly when a load
  of the key is unsettled at that step (`OutdatedIff`).
- A call can reject although fresh data of its key is cached (`RejectsDespiteFreshData`);
  `RejectsIff` says exactly when a call rejects.
- Paying can make a loan more overdue (`FirstRepaymentCanRaiseOverdue`): the first recorded
  repayment replaces the amount that the loan carries. It lowers the paid figure exactly
  when it is less than that amount (`PaidFigureFallsIff`, `OverdueRisesIff`).
- The "highest exposure" of a branch can be too low, and depend on the order of the loans,
  because of equally severe loans of a customer the first one is kept
  (`HighestCanBeTooLow`, `HighestDependsOnOrder`); `HighestIsTrueIff` and
  `HighestOrderFreeIff` say exactly when not. The level of the branch is right in any case
  (`LevelIsStatusOfWorstLoan`).
- A second `disconnect` by the same caller can close a newer transport of another
  (`StaleReleaseClosesNewerTransport`). It is harmless exactly while its token has no entry
  (`RepeatedReleaseHarmlessIff`); so the protocol theorems ask that a caller release again
  only then.
- A daily-close sentence is not always classified as daily: its date could be a text about
  another check (`MisleadingDate`). `MissingReasonKind` says what it is classified as for every text; ISO dates
  are never in the way.

## Model

| member | source | states |
|---|---|---|
| LiveQueryModule.LiveQueryCache.LiveQuery | apps/web/src/lib/live-query-cache.ts:67-104 | a call returns cached data younger than 20 s, or else the running load of its key, or else a new load; nothing else changes |
| LiveQueryModule.LiveQueryCache.LoaderDelivers | apps/web/src/lib/live-query-cache.ts:86-97 | a delivered load stores its data, trims, settles, and deletes whatever is in flight under its key, in one step |
| LiveQueryModule.LiveQueryCache.LoaderFails | apps/web/src/lib/live-query-cache.ts:92-98 | a failed load settles to the entry captured at its start if that is younger than 90 s, or else to the fault; the store stays as it is |
| LiveQueryModule.LiveQueryCache.Peek | apps/web/src/lib/live-query-cache.ts:29-37 | peeking yields data up to 90 s old and drops an older entry |
| LiveQueryModule.LiveQueryCache.Write | apps/web/src/lib/live-query-cache.ts:39-42 | writing dates the entry now and trims; a running load is not touched |
| LiveQueryModule.LiveQueryCache.Invalidate | apps/web/src/lib/live-query-cache.ts:52-65 | exactly the keys containing the text go (all, if it is missing or empty); loads in flight stay |
| LiveQueryInvalidation.InvalidationRemoves | apps/web/src/lib/live-query-cache.ts:52-61 | a key is removed exactly when the text is missing or stands somewhere in the key, and nothing else changes |
| Texts.ContainsIff | apps/web/src/lib/live-query-cache.ts:57 | a key includes a text exactly when it is the text with something before and behind |
| LiveQueryModule.LiveQueryCache.Clear | apps/web/src/lib/live-query-cache.ts:44-50 | the store and the loads in flight are forgotten while the loads keep running |
| LiveQueryModule.LiveQueryCache.TrimCache | apps/web/src/lib/live-query-cache.ts:106-112 | deleting the oldest one by one gives the trimmed store |
| LiveQueryState.TrimKeepsTheNewest | apps/web/src/lib/live-query-cache.ts:106-112 | trimming leaves at most 250 entries, all unchanged, and every survivor is newer than every dropped entry (on equal times: inserted later) |
| LiveQueryState.StoredKeySurvives | apps/web/src/lib/live-query-cache.ts:39-42 | the key just stored survives its own trim, even when all times are equal |
| LiveQueryState.ByAgeComparesRanks | apps/web/src/lib/live-query-cache.ts:109 | the sort's comparator orders slots as the specification of the sort does |
| LiveQueryRuns.StepKeepsInv | apps/web/src/lib/live-query-cache.ts:29-112 | every step keeps: unique ordered keys, at most 250 entries, none dated in the future, every in-flight entry an unsettled load of its own key |
| LiveQueryRuns.ReachableInv | apps/web/src/lib/live-query-cache.ts:44-103 | so in every reachable state no call joins a finished load, also across clears and orphaned deletions |
| LiveQueryRuns.LoadHistory | apps/web/src/lib/live-query-cache.ts:81-103 | an outcome is final: all callers that await one load get the same outcome, whenever they joined |
| LiveQueryRuns.OrphansBound | apps/web/src/lib/live-query-cache.ts:44-103 | the unsettled loads of a key that nobody can join are at most as many as the clears so far |
| LiveQueryRuns.LoadsPerKeyBound | apps/web/src/lib/live-query-cache.ts:44-104 | in every run the unsettled loads of a key are at most one plus the number of clears |
| LiveQueryRuns.LoadsPerKeyBoundAttained | apps/web/src/lib/live-query-cache.ts:44-104 | for every number of clears some run attains that bound |
| LiveQueryRuns.StepOrphanFree | apps/web/src/lib/live-query-cache.ts:44-103 | a step loses single flight for a key if and only if it is a clear that meets a running load of the key |
| LiveQueryRuns.SingleFlight | apps/web/src/lib/live-query-cache.ts:44-103 | a run keeps single flight (the only unsettled load of the key is the one in flight) if and only if no clear meets a running load of the key |
| LiveQueryRuns.NoClearsNoneMeets | apps/web/src/lib/live-query-cache.ts:44-46 | without a clear none meets a running load, so single flight is exact then |
| LiveQueryRuns.StoreProvenance | apps/web/src/lib/live-query-cache.ts:29-112 | whatever is cached and was not cached at some earlier step was stored under its key since that step, unchanged |
| LiveQueryRuns.CaptureProvenance | apps/web/src/lib/live-query-cache.ts:72-96 | a load started after a step captures nothing, or an entry cached then or stored since |
| LiveQueryRuns.YieldProvenance | apps/web/src/lib/live-query-cache.ts:72-103 | data yielded by a call is the result of the awaited run of its key's loader, or was stored under the key less than 20 s before (never for a forced call), or the awaited load failed and it was stored less than 90 s before the failure |
| LiveQueryRuns.RejectsIff | apps/web/src/lib/live-query-cache.ts:81-103 | a call rejects with a fault if and only if its awaited load fails with that fault and had captured nothing, or an entry that is at least 90 s old then |
| LiveQueryRuns.RejectsDespiteFreshData | apps/web/src/lib/live-query-cache.ts:72-96 | a run in which a call rejects although fresh data of its key is cached, since the fallback is what was cached when the load started |
| LiveQueryRuns.PeekProvenance | apps/web/src/lib/live-query-cache.ts:29-37 | data shown by a peek was stored under its key at most 90 s before |
| LiveQueryInvalidation.OlderDataOnlyFromRunningLoads | apps/web/src/lib/live-query-cache.ts:52-103 | after an invalidation of its key a call yields data stored since, unless it awaits a load that was already running then and fails |
| LiveQueryInvalidation.NothingOlderAfterInvalidation | apps/web/src/lib/live-query-cache.ts:52-96 | a later hit, and any load started later, never yields data stored before the invalidation, even by falling back |
| LiveQueryInvalidation.NothingOlderAfterClear | apps/web/src/lib/live-query-cache.ts:44-103 | after a clear no call at all yields data stored before it |
| LiveQueryInvalidation.PeekShowsNothingOlder | apps/web/src/lib/live-query-cache.ts:29-65 | after an invalidation of its key or a clear a peek shows only data stored since |
| LiveQueryInvalidation.InvalidationLetsJoinedLoadsFallBack | apps/web/src/lib/live-query-cache.ts:81-96 | a run in which a call after an invalidation joins a running load and gets the older data |
| LiveQueryInvalidation.OlderDataNeedsFallback | apps/web/src/lib/live-query-cache.ts:52-103 | data from before an invalidation or a clear is yielded after it only if it was an invalidation and a load of the key was in flight then whose captured entry was younger than 90 s |
| LiveQueryInvalidation.InvalidationLeaksIff | apps/web/src/lib/live-query-cache.ts:52-103 | after every run, some continuation of an invalidation yields older data for a matching key if and only if such a load is in flight when it happens |
| LiveQueryInvalidation.OutdatedNeedsUnsettled | apps/web/src/lib/live-query-cache.ts:44-104 | data neither written nor delivered by a load started since a clear or invalidation is yielded after it only if a load of the key was unsettled then |
| LiveQueryInvalidation.OutdatedIff | apps/web/src/lib/live-query-cache.ts:44-104 | after every run, some continuation of a clear or a matching invalidation yields such data if and only if a load of the key is unsettled when it happens |
| LiveQueryRefinement.BoundedRefinesUnbounded | apps/web/src/lib/live-query-cache.ts:29-112 | whatever the bounded cache holds, a never-evicting map with the same stores and removals holds with the same data and time |
| LiveQueryRefinement.HitsAgree | apps/web/src/lib/live-query-cache.ts:72-79 | every fresh hit returns what the unbounded map would return, and that is fresh too |
| LiveQueryRefinement.EqualUnlessOverfull | apps/web/src/lib/live-query-cache.ts:106-112 | as long as the unbounded map stays within 250 entries the two are equal |
| LiveQueryRefinement.HitIff | apps/web/src/lib/live-query-cache.ts:72-79 | in every run an unforced call hits exactly when its key is cached and the unbounded map holds that data at an age below 20,000 ms |
| LiveQueryRefinement.HitUnlessOverfull | apps/web/src/lib/live-query-cache.ts:72-79 | as long as the unbounded map stays within 250 entries, a call hits exactly when that map holds the data at an age below 20,000 ms |
| LiveQueryRefinement.StartedLoadFails | apps/web/src/lib/live-query-cache.ts:72-97 | a call that starts a load gets, when the load fails, what was cached when it called if that is younger than 90,000 ms then, and the fault otherwise |
| LiveQueryRefinement.PeekIff | apps/web/src/lib/live-query-cache.ts:29-37 | in every run a peek shows exactly the cached data of at most 90,000 ms |
| LiveQueryRefinement.HoldsTheMostRecent | apps/web/src/lib/live-query-cache.ts:39-112 | with stores at strictly increasing times and no removal but trimming, the cache holds exactly the 250 most recently stored distinct keys |
| BranchOverdue.OverdueDaysIsShortfall | apps/web/src/app/owner/branch-analytics.ts:409-413 | the overdue days are max(0, ceil((expected * installment - max(0, paid)) / installment)), between 0 and the expected days |
| BranchOverdue.OverdueDaysIsLeast | apps/web/src/app/owner/branch-analytics.ts:409-413 | they are the least number of further installments that brings the payments up to date |
| BranchOverdue.ExpectedDaysAreCalendarDays | apps/web/src/app/owner/branch-analytics.ts:432-444 | the expected days are the calendar days from the payment start to today or the due date, both included, at least one, capped by a positive duration |
| BranchOverdue.FlaggedExactlyWhenBehind | apps/web/src/app/owner/branch-analytics.ts:393-451 | a loan is flagged exactly when it is at least two days behind, with the status of those days |
| BranchOverdue.ExposureFits | apps/web/src/app/owner/branch-analytics.ts:404-429 | the money of a flagged loan fits its days: installment, paid and expected amount are those of the loan, and the overdue days are what is missing between paid and expected |
| BranchOverdue.StatusDays | apps/web/src/app/owner/branch-analytics.ts:446-451 | 2 to 3 days are follow-up, 4 to 7 high risk, 8 and more critical |
| BranchOverdue.SeverityOrder | apps/web/src/app/owner/branch-analytics.ts:542-550 | healthy, attention, follow-up, high risk, critical: from the least severe to the most |
| BranchOverdue.OnlyOpenLoansAreOverdue | apps/web/src/app/owner/branch-analytics.ts:398-404 | a loan has overdue days only with one of the six open statuses, a balance, installments and a payment start |
| BranchModel.FirstFieldSet | apps/web/src/app/owner/branch-analytics.ts:401-403 | the payment start is the first of the three dates that is set, even if it is no date |
| BranchModel.CaseIrrelevant | apps/web/src/app/owner/branch-analytics.ts:503-531 | the case of a status makes no difference |
| BranchModel.LettersChange | apps/web/src/app/owner/branch-analytics.ts:503-531 | upper case changes only the 26 letters |
| BranchModel.DaySpan | apps/web/src/app/owner/branch-analytics.ts:595-605 | the start and the end of a day are its first and last of 86,400,000 milliseconds |
| BranchOverdue.OverdueMonotone | apps/web/src/app/owner/branch-analytics.ts:393-444 | overdue days never rise with a larger paid figure and never fall as today advances |
| BranchExposureLaws.PaidFigureFallsIff | apps/web/src/app/owner/branch-analytics.ts:321-336 | a further repayment lowers the paid figure of a loan if and only if it is the first one counted and less than the amount that the loan carries |
| BranchExposureLaws.OverdueRisesIff | apps/web/src/app/owner/branch-analytics.ts:321-336 | it makes the loan more overdue if and only if, besides, it covers fewer of the expected installments than that amount did |
| BranchExposureLaws.FirstRepaymentCanRaiseOverdue | apps/web/src/app/owner/branch-analytics.ts:332-336 | a loan that is not overdue and is nine days overdue after one repayment |
| BranchOverdue.WorstIsJoin | apps/web/src/app/owner/branch-analytics.ts:535-550 | the worse of two levels is the least level above both |
| BranchExposure.BuildOverdueExposureByBranch | apps/web/src/app/owner/branch-analytics.ts:307-391 | the loops give every listed branch, and no other, its exposure |
| BranchExposureLaws.BorrowersFit | apps/web/src/app/owner/branch-analytics.ts:330-391 | every listed borrower stands for a loan of the branch with its payments and installment, and the days, status and amounts fit each other |
| BranchExposureLaws.BorrowersListed | apps/web/src/app/owner/branch-analytics.ts:350-353 | the borrowers are exactly the customers with a flagged loan, each with the first of their worst loans, the most overdue first |
| BranchExposure.CountsUntilEndOfToday | apps/web/src/app/owner/branch-analytics.ts:319-323 | a positive repayment counts exactly when its day is not after today, later today included |
| BranchExposure.PaidByLoanIsSum | apps/web/src/app/owner/branch-analytics.ts:321-328 | the paid map holds exactly the loans with a counted repayment, each with the sum of its counted repayments |
| BranchExposure.KeptIsFirstWorst | apps/web/src/app/owner/branch-analytics.ts:330-347 | the nested maps keep each customer with a flagged loan once, with the first loan of their worst status, and nobody else |
| BranchExposure.CountsCountCustomers | apps/web/src/app/owner/branch-analytics.ts:350-362 | each count is the number of customers whose worst flagged loan at the branch has that status |
| BranchExposure.ByOverdueComparesRanks | apps/web/src/app/owner/branch-analytics.ts:351-353 | the borrowers' comparator orders them as the specification of the sort does |
| BranchExposureLaws.CountsAddUp | apps/web/src/app/owner/branch-analytics.ts:354-379 | the three counts add up to the number of flagged customers |
| BranchExposureLaws.LevelIsStatusOfWorstLoan | apps/web/src/app/owner/branch-analytics.ts:330-370 | the level is the status of the largest overdue days over all loans of the branch |
| BranchExposureLaws.HighestNotAboveTrue | apps/web/src/app/owner/branch-analytics.ts:341-363 | the highest exposure shown is never above the true maximum |
| BranchExposureLaws.HighestIsTrueIff | apps/web/src/app/owner/branch-analytics.ts:341-363 | it is the true maximum if and only if that is 0 or a most overdue loan is the first of its customer's with its status |
| BranchExposureLaws.HighestCanBeTooLow | apps/web/src/app/owner/branch-analytics.ts:341-363 | two critical loans of one customer, 9 and 20 days behind, for which it is too low |
| BranchCollection.CollectedMeaning | apps/web/src/app/owner/branch-analytics.ts:113-123 | the map of sets holds, per branch and day, exactly the loans with a positive repayment that day |
| BranchCollection.CollectedAreLoansPaid | apps/web/src/app/owner/branch-analytics.ts:104-123 | these are the loans of the branch with a positive repayment that day; of loans that share an id the last one counts |
| BranchCollection.CollectedOrderFreeIff | apps/web/src/app/owner/branch-analytics.ts:104-123 | the order of the loans never matters to the collected sets if and only if loans that share an id are of one branch |
| BranchCollection.UniqueIdsSuffice | apps/web/src/app/owner/branch-analytics.ts:104 | with unique ids every loan counts and the condition holds |
| BranchCollection.ExpectedWithinDays | apps/web/src/app/owner/branch-analytics.ts:502-528 | a repayment is expected on exactly the calendar days from the later of issue and payment start to the last day, while the status and balance ask for it |
| BranchCollection.ExpectedCountsLoans | apps/web/src/app/owner/branch-analytics.ts:130-132 | the expected count of a day is the number of loans of the branch from which a repayment is expected that day |
| BranchCollection.RateOf | apps/web/src/app/owner/branch-analytics.ts:135-138 | the rate is missing exactly when nothing was expected, else in 0..100, the nearest tenth of a percent, and 100 when more was collected than expected |
| BranchCollection.AverageBetween | apps/web/src/app/owner/branch-analytics.ts:147-157 | the rounded average is the nearest tenth and lies within any bounds of the rates |
| BranchReport.AverageRateBetweenDays | apps/web/src/app/owner/branch-analytics.ts:127-157 | the report has an average rate exactly when some day is rated, and it lies between the rates of two of its days |
| BranchReport.DailyRatesCountLoans | apps/web/src/app/owner/branch-analytics.ts:127-146 | the report has one rate per day, today last; its counts are the distinct loans paid and the loans expected that day |
| BranchReport.BuildBranchCollectionPerformance | apps/web/src/app/owner/branch-analytics.ts:88-191 | the loops report each listed branch in order with its performance |
| BranchReport.LevelIsJoin | apps/web/src/app/owner/branch-analytics.ts:167-170 | the overall level is the join of the three component levels |
| BranchReport.CollectionLevelOfReport | apps/web/src/app/owner/branch-analytics.ts:158-163 | a branch is critical below 50 percent, needs attention from 50 to 70, and is healthy above or when no day is rated |
| BranchReport.ReportText | apps/web/src/app/owner/branch-analytics.ts:171-188 | the reasons are the sentences of the failed checks, put together with blanks; without any, the sentence about repayments |
| BranchReport.ReportTextOfBranch | apps/web/src/app/owner/branch-analytics.ts:171-188 | so in the report of every branch |
| BranchReport.ComplianceIff | apps/web/src/app/owner/branch-analytics.ts:268-305 | the last status of a branch decides: healthy exactly when closed with a closing time and its report has left the manager |
| BranchReport.NoStatusIsHealthy | apps/web/src/app/owner/branch-analytics.ts:488-500 | a branch without a status is healthy |
| BranchReport.ReasonsNameFailedChecks | apps/web/src/app/owner/branch-analytics.ts:171-188 | there is no reason exactly when the branch is healthy; the reasons are one per failed check, each classified back to that check, if and only if the daily close is healthy or its date is no text that is itself classified as collection or overdue |
| BranchReasons.CollectionReasonRecognised | apps/web/src/app/owner/branch-analytics.ts:206-266 | every sentence for a lowered collection level is classified as collection |
| BranchReasons.CollectionLevels | apps/web/src/app/owner/branch-analytics.ts:243-250 | the rates that make each level |
| BranchReasons.CollectionLevelMonotone | apps/web/src/app/owner/branch-analytics.ts:243-250 | a higher rate never makes the level more severe |
| BranchReasons.CollectionReasonSays | apps/web/src/app/owner/branch-analytics.ts:252-266 | the sentence names the threshold that made the level |
| BranchReasons.OverdueReasonRecognised | apps/web/src/app/owner/branch-analytics.ts:206-231 | the overdue sentence is classified as overdue, whatever the four numbers are |
| BranchReasons.CountsInSentence | apps/web/src/app/owner/branch-analytics.ts:465-470 | the sentence names the counts from the most severe to the least and leaves out zeros |
| BranchReasons.OverdueReasonText | apps/web/src/app/owner/branch-analytics.ts:464-472 | the sentence is the counts, the word "borrower" and the tail, or the one for no exposure |
| BranchReasons.TailText | apps/web/src/app/owner/branch-analytics.ts:472 | the tail with its plurals and the highest exposure |
| BranchReasons.KindIff | apps/web/src/app/owner/branch-analytics.ts:206-231 | for any text: collection words decide first, then overdue words, then those of the daily close, in whatever case |
| BranchReasons.DecimalReadsBack | apps/web/src/app/owner/branch-analytics.ts:465-472 | each number in it can be read back |
| BranchDailyReasons.MissingReasonKind | apps/web/src/app/owner/branch-analytics.ts:206-231 | for every text in the place of the date the daily-close sentences are classified as daily, unless that text is itself classified as collection or overdue, and then like it |
| BranchDailyReasons.MisleadingDate | apps/web/src/app/owner/branch-analytics.ts:206-231 | a text in the place of the date with which they are classified as overdue |
| BranchDailyReasons.MissingReasonRecognised | apps/web/src/app/owner/branch-analytics.ts:206-231 | they are classified as daily for all ISO dates and date-times |
| BranchOrder.RepaymentOrderIrrelevant | apps/web/src/app/owner/branch-analytics.ts:113-188 | permuting the repayments leaves the whole report of a branch unchanged |
| BranchOrder.LoanOrderIrrelevant | apps/web/src/app/owner/branch-analytics.ts:113-188 | permuting the loans leaves every rate, count and level unchanged, when loans that share an id are of one branch |
| BranchOrder.HighestOrderFreeIff | apps/web/src/app/owner/branch-analytics.ts:341-363 | the highest exposure shown never depends on the order of the loans if and only if nobody is flagged or the most severe loans of some customer are all most overdue |
| BranchOrder.ReasonsOrderFree | apps/web/src/app/owner/branch-analytics.ts:171-188 | in that case the order leaves the reasons unchanged, too |
| BranchOrder.HighestDependsOnOrder | apps/web/src/app/owner/branch-analytics.ts:341-363 | two critical loans of one customer for which it depends on the order |
| RealtimeModule.RealtimeClient.Connect | apps/web/src/lib/realtime.ts:83-121 | connecting shares the open transport of the token or opens one, and counts the caller |
| RealtimeModule.RealtimeClient.Open | apps/web/src/lib/realtime.ts:90-104 | a token without an entry gets a new transport, filed with one reference |
| RealtimeModule.RealtimeClient.Disconnect | apps/web/src/lib/realtime.ts:109-118 | the overridden disconnect lowers the count and closes the filed transport when it reaches zero |
| RealtimeProtocol.ReferencesCountHolders | apps/web/src/lib/realtime.ts:81-121 | in every run a token's count is the number of its callers that have not released |
| RealtimeProtocol.OneOpenTransportPerToken | apps/web/src/lib/realtime.ts:83-104 | in every run at most one open transport exists per token |
| RealtimeProtocol.HoldersMayLetGo | apps/web/src/lib/realtime.ts:83-118 | a new caller may always come and one that holds on may always let go, and the invariant stays |
| RealtimeProtocol.ClosedOnceWhenLetGo | apps/web/src/lib/realtime.ts:106-118 | in every run a transport is open while held, and natively disconnected exactly once as soon as it is not |
| RealtimeProtocol.RepeatedReleaseHarmlessIff | apps/web/src/lib/realtime.ts:109-118 | a repeated release keeps the invariant if and only if the token has no entry |
| RealtimeProtocol.RepeatedReleaseCountsIff | apps/web/src/lib/realtime.ts:109-118 | after a repeated release the count of the token is that of the callers still holding on if and only if the token had no entry |
| RealtimeProtocol.StaleReleaseClosesNewerTransport | apps/web/src/lib/realtime.ts:109-118 | a late second release closes the newer transport of another caller |
| QueryString.DecodeEncode | apps/web/src/app/owner/owner-common.tsx:499-503 | percent decoding gives back every encoded text |
| QueryString.EncodedOctet | apps/web/src/app/owner/owner-common.tsx:503 | letters, digits and `*-._` stay, a blank becomes a plus sign, other octets are percent-encoded |
| QueryString.DecodedPercent | apps/web/src/app/owner/owner-common.tsx:499 | two hex digits in either case are decoded behind a percent sign, which otherwise stays |
| QueryString.DecodedOther | apps/web/src/app/owner/owner-common.tsx:499 | a plus sign is a blank and other octets are themselves |
| QueryString.ParseSerialize | apps/web/src/app/owner/owner-common.tsx:499-503 | parsing gives back every serialized list of parameters |
| QueryString.ParsePieces | apps/web/src/app/owner/owner-common.tsx:499 | any query is parsed piece by piece between its ampersands, empty pieces counting for nothing |
| QueryString.ParsePiece | apps/web/src/app/owner/owner-common.tsx:499 | a piece is split at its first equals sign |
| QueryString.GetAfterSet | apps/web/src/app/owner/owner-common.tsx:500-502 | a parameter that was set is read back, and the others stay in order |
| QueryString.FirstOfName | apps/web/src/app/owner/owner-common.tsx:500-502 | looking up finds the first parameter of a name; setting puts the value in its place and drops later ones |
| QueryString.OthersOf | apps/web/src/app/owner/owner-common.tsx:500-502 | the others of a name are all parameters but those, in order |
| OwnerScope.ScopedPath | apps/web/src/app/owner/owner-common.tsx:495-505 | scoping a listed path names the branch unless one is named already, and keeps the path name and all other parameters |
| OwnerScope.ScopedIff | apps/web/src/app/owner/owner-common.tsx:478-499 | exactly the paths that ask for one of the eleven lists are scoped, with or without a query |
| OwnerScope.ScopeOfRequest | apps/web/src/app/owner/owner-common.tsx:507-514 | an explicit scope wins over the picked branch, all branches included; without a branch the key is the path |
| OwnerScope.OtherPathsUnscoped | apps/web/src/app/owner/owner-common.tsx:498-499 | paths that ask for no such list are their own keys |
| OwnerScope.KeyText | apps/web/src/app/owner/owner-common.tsx:500-504 | the key is the path name with the parsed query and `branchId` behind it |
| OwnerScope.BareKeyText | apps/web/src/app/owner/owner-common.tsx:500-504 | without a query it is the path with `?branchId=` and the encoded branch |
| OwnerScope.ScopingIsFinal | apps/web/src/app/owner/owner-common.tsx:495-514 | scoping is idempotent: a scoped path is never scoped again, to whichever branch |
| OwnerScope.KeysOfTwoBranches | apps/web/src/app/owner/owner-common.tsx:495-514 | two branches give one path the same key exactly when it is not a listed path or names its branch itself |
| OwnerScope.KeyNamesBranch | apps/web/src/app/owner/owner-common.tsx:495-514 | the key of a request names the branch that the request is about, and keeps the path name |
| OwnerScope.KeysKeepBranchesApart | apps/web/src/app/owner/owner-common.tsx:495-514 | requests about different branches, or about one and about all, never share a key, even on different paths and whether path or scope names the branch |
| OwnerScope.YieldsOwnKey | apps/web/src/lib/live-query-cache.ts:67-104 | whatever a call yields was delivered or written earlier for its very key |
| OwnerScope.BranchIsolation | apps/web/src/app/owner/owner-common.tsx:598-609 | in every run of the cache a request yields only data delivered for a key that names its own branch, and no request about another branch has that key |
| OwnerScope.PeekIsolation | apps/web/src/app/owner/owner-common.tsx:516-521 | what a peek of the owner screens shows was delivered at most 90 s before for a key that names the branch of the request |
| OwnerRequest.RequestOwnerJson | apps/web/src/app/owner/owner-common.tsx:538-596 | the loop gives the verdict on the first attempt that is not transient, or the last, re-entering once after a refresh; the throw behind the loop is never reached |
| OwnerRequest.RequestFollowsAnswers | apps/web/src/app/owner/owner-common.tsx:527-596 | by the answers alone: 408, 429, 500 and above and lost answers are asked for again, after 400 and 800 ms, at most twice; a renewed 401 starts over once |
| OwnerRequest.FirstAnswer | apps/web/src/app/owner/owner-common.tsx:559-577 | a busy or lost first answer leads to a second fetch; any other parsed non-null one that is not renewed ends the request |
| OwnerRequest.BusyEndsOnlyThird | apps/web/src/app/owner/owner-common.tsx:567-570 | a request that is not renewed ends on a busy or lost answer only as its third |
| OwnerRequest.FailureIsOfLast | apps/web/src/app/owner/owner-common.tsx:571-588 | the failure of a request is exactly that of its last answer: time-out, unreadable body, the server's error, or the fault raised |
| OwnerRequest.RequestBounds | apps/web/src/app/owner/owner-common.tsx:538-596 | at most 6 fetches, one followed refresh and 2,400 ms of back-off |
| OwnerRequest.RequestBoundsAttained | apps/web/src/app/owner/owner-common.tsx:538-596 | all three bounds are attained at once |
| OwnerRequest.PayloadsAreOkBodies | apps/web/src/app/owner/owner-common.tsx:571-577 | a payload is returned exactly when the last fetch met an ok response with that body |
| OwnerRequest.NothingUsableSkipped | apps/web/src/app/owner/owner-common.tsx:559-583 | every fetch before the last was transient or led to the refresh |
| DateGroups.GroupByLocalDate | apps/web/src/lib/date-groups.ts:38-73 | the pass with a map from days to positions gives the run-length groups of the stably sorted, parseable items |
| DateGroups.GroupsAreDays | apps/web/src/lib/date-groups.ts:38-73 | put together the groups are that sort; their days are distinct and in order; each is all the items of its day |
| DateGroups.GroupsFollowTime | apps/web/src/lib/date-groups.ts:44-53 | in the order of the groups the times only fall (or rise), and items of one time keep their order |
| DateGroups.DayLength | apps/web/src/lib/date-groups.ts:13-18 | days follow each other every 86,400,000 ms of the local clock |
| DateGroups.SkipSorted | apps/web/src/lib/date-groups.ts:44-61 | skipping unparseable items after the sort is the same as sorting the parseable ones |
| DateGroups.CompareComparesRanks | apps/web/src/lib/date-groups.ts:44-53 | the comparator is a consistent order, unparseable items last and equal |
| StableSort.SortStable | apps/web/src/lib/date-groups.ts:44-53 | the sort keeps items that compare equal in their order |
| StableSort.StableSortUnique | apps/web/src/lib/date-groups.ts:44-53 | a sorted list with the same runs of equals is unique, so the sorting algorithm does not matter |
| Pagination.PaginateItems | apps/web/src/components/app/pagination.tsx:8-27 | the items shown are those from `start` to `end`, within the list |
| Pagination.PageFigures | apps/web/src/components/app/pagination.tsx:5-27 | the size is the one asked for if it is 10, 25 or 50, and else 10, there are as many pages as the items fill, the page is one of them, and it is full unless it is the last |
| Pagination.PageClamped | apps/web/src/components/app/pagination.tsx:13-14 | a page outside the range gives the nearest page |
| Pagination.PagesCoverItems | apps/web/src/components/app/pagination.tsx:8-27 | the pages put together are the list, for every list and page size |
| Pagination.VisiblePages | apps/web/src/components/app/pagination.tsx:125-142 | the loop builds the page bar |
| Pagination.BarShape | apps/web/src/components/app/pagination.tsx:125-142 | the bar has at most 7 cells, starts at 1, ends at the page count, rises, and has an ellipsis exactly where pages are skipped |
| Pagination.BarButtons | apps/web/src/components/app/pagination.tsx:125-142 | a page has a button exactly when it is the first, the last, the current one or its neighbour, or there are at most seven pages |

## Left out

Assumptions of the cache model:

- The clock never goes backwards.
- Loaders do not throw before their first await and do not re-enter their own key before it.
- Payloads and faults are abstract values; a loader's result is not mutated after it was delivered.
- The promise of a load is known by its position; settling a settled promise is not an event.
- The revalidate window event and the `notify` options have no effect on the cache and are not modelled.

Of the analytics:

- Money is exact integers and rates are exact tenths of a percent; floating-point error is not modelled.
- Times are milliseconds on a local clock with a fixed offset, so a day is 86,400,000 ms; daylight-saving shifts are not modelled.
- Days are numbers; the `YYYY-MM-DD` text of a day, labels and Intl formatting are not modelled.
- LoanOrderIrrelevant: is about rates, counts and levels; of the order of the borrowers of one day count, and of which of a customer's equally severe loans is listed, it says nothing.
- Names, phones, national ids and branch names are only carried along.
- Upper and lower case are those of the ASCII letters.

Of the sockets and requests:

- The network, socket options and events; a transport is a token and the number of native disconnects.
- RealtimeClient.Disconnect: takes the index of the caller as a ghost parameter, which the original does not know.
- The request timeout and its AbortController, headers and the refresh's own fetch; each attempt's answer comes from the parameter `network`, an aborted fetch being one of them.
- The refresh never throws (it catches everything), so an attempt only says whether it gives a session.
- The words of error messages; an error is known by its kind and status.
- The owner's branch picker lives in local storage and is a parameter.
- What the server answers to a request; BranchIsolation is about the key that the answer was delivered for.
- Strings of a URL are octets; the replacement of invalid UTF-8 while decoding is not modelled.

Of the page bar: fractional or NaN page numbers.

Not modelled at all, because it is display or plumbing: components, drawers and styling; the operations page,
whose state machine runs on the server; owner notifications, roles, phone numbers, tooltips and
auth storage; the API service's bootstrapping.
