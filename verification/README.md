# Penny: verified model

Penny is a local proxy between coding agents and model providers. It holds spending to budgets with a
reserve, dispatch and settle protocol on an append-only ledger, watches sessions for loops, translates
provider streams, and prices tokens exactly. This project models those parts in Dafny and proves what
they keep.

* **Ledger** (`LedgerModel`, `CostLedger`, `LedgerFacts`, `ReserveFacts`, `LedgerBook`,
  `LedgerAnswers`). A call of the ledger is one write transaction, so it is a function from the rows
  before to the rows after and the answer. The class `CostLedger` works on the table in place and rolls
  back by snapshot; its methods are proved equal to those functions, and the theorems range over every
  run of calls. `LedgerBook` is the same ledger without rows or cached totals, one account per request;
  the rows refine it.
* **Enforcement** (`BudgetEvaluator`, `BudgetPreview`, `Proxy`). The evaluator turns an answer into a
  verdict and warnings, the previews predict it, and the proxy drives it for many requests at once.
  `Proxy.Steps` interleaves the admission, check and settlement steps of any number of requests.
* **Detector** (`Detector`, `DetectorRuns`, `DetectorFeeds`). Alerts, sliding windows, eviction, pause and
  resume, and the bounded event log, compared with a detector that forgets nothing.
* **Streams** (`Utf8`, `SseFraming`, `SseDecoder`, `SseAgreement`, `SseExactAgreement`, `Payloads`,
  `StreamTranslator`, `StreamUsage`, `StreamMeaning`, `StreamChunks`, `StreamReadBack`,
  `NativeStream`, `StreamRelay`). Two incremental event-stream decoders written separately, the
  translation of a messages stream into completion chunks, the token counts the proxy reads off either
  form, and the whole way from upstream bytes to the tokens a request is settled on. Bytes are decoded by
  a lossy UTF-8 decoder written out in full.
* **Arithmetic** (`Amounts`, `Pricing`, `MoneyText`, `Text`, `Outcomes`). Checked 64-bit money, prorated
  pricing with half-away-from-zero rounding, and the decimal printer and parser.

Where the code falls short of what one would expect of it, the code is modelled as it is. For each of these
an input that shows it is proved, and so is the exact condition under which it happens:

* a translated stream has no field for cache tokens, although `docs/LIMITATIONS.md` lines 16-20 say they
  are read from streaming responses; the two accounts of a finished stream of one-payload events agree
  exactly when it reports its input and no cache tokens (`CacheTokensAreDropped`,
  `PathsAgreeWithoutCacheTokens`);
* a native stream that ends in `event:message_stop`, without the optional space, is recorded as incomplete,
  and an indented line can end one too early (`TheyStopApart`, `NativeEndIsSeenWhen` with
  `ProviderStopsWhen` and `ProxyStopsWhen`);
* the tail command loses the last message of a stream whose last line is not ended
  (`UnfinishedDataIsLost`, `FinishDeliversThePendingMessage`);
* the two decoders differ on some mixed line endings (`DisagreeingInputs`, `DecodersAgreeExactly`);
* a negative hard limit can hide an overrun from observe mode (`ANegativeLimitHidesAnOverrun`,
  `HiddenOverruns`);
* a soft-limit read that fails refuses a guarded request and leaves its reservation standing
  (`AReservationLeftStanding`, `AFailedReadKeepsTheReservation`, `AFailedReadNeedsAnUnlimitedBudget`);
* a reconcile that would overflow leaves the estimate standing (`ACostCanStrand`,
  `StrandedExactlyOnOverflow`);
* a feed can pause a session and evict its window in the same call (`TiesCanOrphanAPause`,
  `OrphansExactlyWhenCrowdedOut`);
* `i64::MIN` prints but does not parse back, as the only amount (`ParsingUndoesPrinting`);
* a second sign is accepted, and a minus there applies to the whole part but not to the fraction
  (`TwoSignsAndAFraction`, `ParserAcceptsExactlyTheNumerals`, `SignsCombineWithoutAFraction`).

## Model

| member | source | states |
|---|---|---|
| `CostLedgers.CostLedger.ReserveInternal` | crates/penny-ledger/src/lib.rs:62-146 | the whole transaction: the table afterwards and the answer are those of `ReserveStep`; a denial, an overflow or a refused replay rolls back to the table before |
| `CostLedgers.CostLedger.ReplayReservation` | crates/penny-ledger/src/lib.rs:276-322 | the replay of existing reserve rows: mismatch errors, duplicate rows, and the rebuilt grant |
| `CostLedgers.CostLedger.ReconcileRequest` | crates/penny-ledger/src/lib.rs:148-211 | the whole transaction, as `SettleStep` at the actual cost: idempotent answer, conflict with a release, missing reserve, overflow rolled back |
| `CostLedgers.CostLedger.ReleaseRequest` | crates/penny-ledger/src/lib.rs:213-274 | the same with target zero |
| `CostLedgers.CostLedger.LatestRunningTotal` | crates/penny-ledger/src/lib.rs:324-341 | the total on the newest row of a budget, zero without one |
| `CostLedgers.CostLedger.RequestEntriesByType` | crates/penny-ledger/src/lib.rs:378-406 | the rows of one request and type, oldest first |
| `CostLedgers.CostLedger.InsertLedgerEntry` | crates/penny-ledger/src/lib.rs:343-370 | exactly one row appended, with the next id |
| `LedgerFacts.ApplyExtends` | crates/penny-ledger/src/lib.rs:95-139 | every call of every kind appends only rows of its own request and type, each total built on the row before it, and appends at all only to a request that has no rows of that type and no opposite settlement |
| `LedgerFacts.RunningTotalsAreSums` | crates/penny-ledger/src/lib.rs:324-341 | in every run each cached total is the sum of its budget's amounts so far, and the ids count up from one |
| `LedgerFacts.ExtendsEntries` | crates/penny-ledger/src/lib.rs:378-406 | a posting adds its own rows to its own request and type and leaves every other request's rows alone |
| `LedgerFacts.EntriesAreFrozen` | crates/penny-ledger/src/lib.rs:87-93 | once a request has rows of a type, no later call adds or removes any |
| `LedgerFacts.SettlementIsFinal` | crates/penny-ledger/src/lib.rs:164-184 | after a settlement and any further calls, settling the same way answers the same ids and settling the other way fails; neither changes the table |
| `ReserveFacts.ReserveIsAllOrNothing` | crates/penny-ledger/src/lib.rs:95-145 | a fresh reservation over distinct budgets is granted exactly when no budget alone refuses it, and then moves each listed total by the estimate and no other; otherwise nothing is written and the first refusing budget is named |
| `ReserveFacts.ReplayReturnsTheOriginal` | crates/penny-ledger/src/lib.rs:87-93 | a granted reservation replayed after any later calls, in either mode, returns the original value and writes nothing |
| `ReserveFacts.ReplayAcceptsOnlyTheOriginal` | crates/penny-ledger/src/lib.rs:276-322 | a replay never writes, and is accepted exactly with the same number of budgets, all of them original, and the same cost |
| `ReserveFacts.GrantsExactlyTheCapacity` | crates/penny-ledger/tests/ledger_concurrency_stress.rs:145-168 | of N fresh requests of cost c against one limit, exactly min(N, room div c) are granted |
| `LedgerAnswers.ReserveChecksItsArguments` | crates/penny-ledger/src/lib.rs:69-86 | a blank request, a negative estimate and an empty list of budgets are answered in this order, each with its own answer and nothing written |
| `LedgerAnswers.GrantAnswersItsRows` | crates/penny-ledger/src/lib.rs:95-145 | a grant answers the ids of the rows it wrote, one reserve row of the request at the estimate for each budget in order |
| `LedgerAnswers.ReplayFailsAtTheFirstMismatch` | crates/penny-ledger/src/lib.rs:276-322 | which error a replay gives: another number of budgets, duplicate originals, then the first budget without an original row or with one of another amount |
| `LedgerAnswers.SettlementChecksItsRequest` | crates/penny-ledger/src/lib.rs:148-184 | what a reconcile or release answers without posting: blank request, negative cost, the ids already there, the conflict with the other settlement, or no reservation, in this order |
| `LedgerAnswers.SettlementAnswersItsRows` | crates/penny-ledger/src/lib.rs:186-211 | a settlement answers the ids of the rows it wrote, one for each reserved row in order, of what is missing to the target |
| `LedgerAnswers.SettlementFailsAtTheFirstOverflow` | crates/penny-ledger/src/lib.rs:186-207 | otherwise it names the overflow of its first row that cannot move, of the difference or of the total, and writes nothing |
| `LedgerBook.RunRefines` | crates/penny-ledger/src/lib.rs:62-274 | over every run the row table refines a book of one account per request, in which a call is granted, settled or refused by sums alone |
| `LedgerBook.OpenSettleRefines` | crates/penny-ledger/src/lib.rs:186-207 | an open request settles exactly when every moved total stays in 64 bits, and the book moves with it |
| `LedgerBook.TotalsDecompose` | crates/penny-ledger/src/lib.rs:178-207 | the latest total is the open estimates plus the reconciled actuals; released requests count nothing |
| `LedgerBook.GuardBoundsTheTotal` | crates/penny-ledger/src/lib.rs:98-121 | with a fixed limit and guard-mode reservations only, at every point of every run, 0 <= total <= max(0, limit) + what reconciled requests exceeded their estimates by |
| `LedgerBook.GuardNeverExceedsTheLimit` | crates/penny-ledger/src/lib.rs:98-121 | when no actual exceeds its estimate a non-negative limit is never exceeded |
| `LedgerBook.ReleaseAlwaysSucceeds` | crates/penny-ledger/src/lib.rs:234-269 | releasing an open request can never overflow or fail |
| `BudgetEvaluation.BudgetEvaluator.Evaluate` | crates/penny-budget/src/lib.rs:32-177 | the decision and the table afterwards are those of `EvaluateReading`: a failed lookup, reserve or soft-limit read fails closed in guard mode and open in observe mode |
| `BudgetEvaluation.BudgetEvaluator.NeedsToRead` | crates/penny-budget/src/lib.rs:241-251 | whether some budget has no hard limit or no remaining amount, so that totals must be read |
| `BudgetEvaluation.AFailedReadKeepsTheReservation` | crates/penny-budget/src/lib.rs:104-117 | a failed soft-limit read refuses a guarded request and leaves its reservation standing exactly when, in the table before the call, no budget refuses and some budget has no hard limit or one whose distance to the new total leaves 64 bits |
| `BudgetEvaluation.AFailedReadNeedsAnUnlimitedBudget` | crates/penny-budget/src/lib.rs:104-117 | after any run of calls and over non-negative hard limits, that is exactly when no budget refuses and some budget has no hard limit |
| `BudgetEvaluation.AReservationLeftStanding` | crates/penny-budget/src/lib.rs:104-117 | such an input: any first request over one budget without a hard limit |
| `BudgetEvaluation.BudgetEvaluator.ComputeOverLimitWarnings` | crates/penny-budget/src/lib.rs:202-234 | the hard warnings read off the remaining amounts, and the violation flag set exactly when there is one |
| `BudgetEvaluation.BudgetEvaluator.ComputeSoftLimitWarnings` | crates/penny-budget/src/lib.rs:236-287 | the soft warnings, from a total rebuilt as limit minus remaining or looked up |
| `BudgetEvaluation.WarningsAreExpected` | crates/penny-budget/src/lib.rs:202-287 | when each remaining amount is limit minus total, the warnings are those the totals themselves call for |
| `BudgetEvaluation.GuardIsExact` | crates/penny-budget/src/lib.rs:68-177 | guard mode on a fresh request blocks on the first refusing budget with nothing written, and otherwise allows with no hard warning and a soft warning for exactly the budgets that reached their soft limit |
| `BudgetEvaluation.ObserveWarnsExactly` | crates/penny-budget/src/lib.rs:68-177 | observe mode warns for exactly the budgets over their hard limit by a 64-bit difference, and exactly those that reached the soft limit |
| `BudgetEvaluation.ObserveNeverBlocks` | crates/penny-budget/src/lib.rs:334-361 | observe mode allows every request, whether lookup, reservation or soft-limit read fails |
| `BudgetEvaluation.AFailedLookupFailsClosed` | crates/penny-budget/src/lib.rs:38-49 | when the applicable budgets cannot be read nothing is written: guard mode fails closed, observe mode allows with one warning |
| `BudgetEvaluation.HiddenOverruns` | crates/penny-budget/src/lib.rs:202-234 | an overrun goes unwarned exactly when limit minus total leaves 64 bits, which needs a negative limit |
| `BudgetEvaluation.ANegativeLimitHidesAnOverrun` | crates/penny-budget/src/lib.rs:202-234 | such an overrun: limit -2, total i64::MAX |
| `BudgetPreview.FetchLatestRunningTotals` | crates/penny-admin/src/lib.rs:1076-1102 | a map that gives every budget with rows its latest total and no other budget an entry |
| `BudgetPreview.BuildBudgetSummary` | crates/penny-admin/src/lib.rs:1104-1190 | a row per budget in id order with its own flags, and the worst flag as status |
| `BudgetPreview.BuildRows` | crates/penny-cli/src/main.rs:3587-3632 | the rows and the two or-ed flags, each true exactly when some budget raises it |
| `BudgetPreview.PreviewAgreesWithEnforcement` | crates/penny-admin/src/lib.rs:1136-1183 | over the hard limit in the preview whenever enforcement would deny, never when it would grant; exactly so when no total overflows |
| `BudgetPreview.PreviewAgreesOnSoftLimits` | crates/penny-admin/src/lib.rs:1136-1183 | on a fresh request that guard mode grants, the preview sees a soft limit reached exactly when the decision carries a soft warning |
| `BudgetPreview.PreviewRowSays` | crates/penny-admin/src/lib.rs:1136-1183 | a row shows the newest total, that and the cost together or the largest amount on overflow, the two limits, and flags that compare them |
| `Proxy.ProxyState.EvaluateBudget` | crates/penny-proxy/src/lib.rs:1398-1479 | the enforcement of one request: no budgets, failed counting, failed pricing, and the evaluation with its ledger effect |
| `Proxy.GuardEnforcesTheBudgets` | crates/penny-proxy/src/lib.rs:1421-1446 | in guard mode a fresh request that has budgets is refused, with nothing written, exactly when some budget alone would be over its hard limit or out of range; otherwise it is admitted and every listed total has moved by the estimate, and no other |
| `Proxy.GuardRefusesWhenItCannotTell` | crates/penny-proxy/src/lib.rs:1406-1443 | guard mode refuses and writes nothing when counting the budgets, pricing or the lookup failed |
| `Proxy.ObserveEnforcesWithoutRefusing` | crates/penny-proxy/src/lib.rs:1406-1479 | observe mode refuses nothing; with budgets it reserves the estimate, zero when pricing failed, on all of them unless a total leaves 64 bits |
| `Proxy.NothingToEnforce` | crates/penny-proxy/src/lib.rs:1421-1426 | without budgets the request is dispatched and nothing is written |
| `Proxy.EnforcementIsOneAction` | crates/penny-proxy/src/lib.rs:1398-1479 | whatever enforcement finds, it is one action of the interleaved system |
| `Proxy.ProxyState.HasReserveEntry` | crates/penny-proxy/src/lib.rs:1533-1543 | whether the request has a reserve row, which decides if it will settle |
| `Proxy.ProxyState.SettleAfterDispatch` | crates/penny-proxy/src/lib.rs:520-718 | the settlement for each dispatch outcome: release, reconcile, or nothing when nothing was reserved |
| `Proxy.ProxyState.MaybeReleaseOnDispatchFailure` | crates/penny-proxy/src/lib.rs:1571-1583 | a release exactly when a reserve was persisted |
| `Proxy.ProxyState.ReconcileAfterDispatch` | crates/penny-proxy/src/lib.rs:1552-1569 | a reconcile exactly when a reserve was persisted, and whether it succeeded |
| `Proxy.ProxyState.ProcessRequest` | crates/penny-proxy/src/lib.rs:468-718 | uninterrupted, the pipeline is its three actions of the interleaved system run one after the other, and ends finished |
| `Proxy.TotalsAreWhatRequestsOwe` | crates/penny-proxy/src/lib.rs:502-718 | however the steps of any number of requests interleave, at every point a budget's total is the sum over the requests that reserved and to which the budget applies: the estimate they were evaluated for in flight, usage cost after success, nothing after failure |
| `Proxy.ReservesAllOrNothing` | crates/penny-proxy/src/lib.rs:1437-1446 | at every point a request has reserved nothing, or exactly its applicable budgets in order, each for the estimate it was evaluated for |
| `Proxy.AdmissionReservesEveryBudget` | crates/penny-proxy/src/lib.rs:1437-1446 | a request admitted over some budgets has reserved all of them, save in observe mode one the ledger cannot reserve, which has reserved none |
| `Proxy.FinishedRequestsLeaveOneTrace` | crates/penny-proxy/src/lib.rs:502-718 | a finished request has no rows, or reserve and release, or reserve and reconcile, one row of each per applicable budget |
| `Proxy.StrandedExactlyOnOverflow` | crates/penny-proxy/src/lib.rs:1552-1569 | a success leaves its estimate standing exactly when it had reserved and its cost is negative or carries a total out of 64 bits |
| `Proxy.ACostCanStrand` | crates/penny-proxy/src/lib.rs:1552-1569 | such a run: an estimate of zero, another request for the largest amount, then a cost of one micro |
| `Proxy.SettledTotalsAreUsage` | crates/penny-proxy/src/lib.rs:502-718 | when all have finished and none is stranded, a budget's total is the usage cost of the successful requests that reserved and to which it applies |
| `Pricing.CalculateWithCache` | crates/penny-cost/src/lib.rs:75-128 | the sum of the four rounded parts, within two micros of the exact price of the four token counts at their own rates, or the overflow error exactly when a part or partial sum leaves 64 bits; no price is an error unless no tokens were used |
| `Pricing.BillIsExact` | crates/penny-cost/src/lib.rs:97-127 | the bill written out: fresh input, cache reads, cache writes and output, each the nearest micro to its count times its rate, missing cache rates being the input rate; the total is their sum, and the overflow error comes exactly when a part or the sum of the first few leaves 64 bits |
| `Pricing.OneKindIsPricedAtItsRate` | crates/penny-cost/src/lib.rs:97-127 | tokens of one kind alone cost the nearest micro to their count times their own rate |
| `Pricing.AddParts` | crates/penny-cost/src/lib.rs:97-127 | the running total over the four parts |
| `Pricing.RoundsHalfAwayFromZero` | crates/penny-cost/src/lib.rs:294-303 | the nearest micro, away from zero on a tie |
| `Pricing.ProrationNeverOverflowsI128` | crates/penny-cost/src/lib.rs:294-303 | the product and the rounding adjustment fit 128 bits for every token count and rate |
| `Pricing.ProrationIsMonotone` | crates/penny-cost/src/lib.rs:294-303 | more tokens never cost less at a non-negative rate |
| `Pricing.ProrationIsOdd` | crates/penny-cost/src/lib.rs:294-303 | negating the rate negates the result |
| `Pricing.CostIsWithinTwoMicros` | crates/penny-cost/src/lib.rs:97-127 | a four-part cost is within two micros of uncached * input + read * read rate + write * write rate + output * output rate |
| `Pricing.SplittingInputCostsAtMostOneMicro` | crates/penny-cost/src/lib.rs:97-127 | without cache rates, splitting the input in three moves the price by at most one micro |
| `MoneyText.ParseMoneyStr` | crates/penny-types/src/lib.rs:150-202 | the parse of any string, with its padding loop and checked arithmetic |
| `MoneyText.PadAndParse` | crates/penny-types/src/lib.rs:177-187 | a fraction of one to six digits, padded, is its value in micros |
| `MoneyText.ParsesTheGrammarExactly` | crates/penny-types/src/lib.rs:150-202 | every `[sign]digits[.digits]` string with at most six fraction digits, however surrounded by blanks, parses to the value it denotes or fails when that leaves i64 |
| `MoneyText.ParsingUndoesPrinting` | crates/penny-types/src/lib.rs:66-78 | printing then parsing is the identity on every amount but i64::MIN, which is out of range |
| `MoneyText.PrintsCanonically` | crates/penny-types/src/lib.rs:66-78 | an amount prints as a minus exactly when negative, whole dollars without a leading zero, a point and six digits, that together have its value |
| `MoneyText.ParsesEveryNumeral` | crates/penny-types/src/lib.rs:150-202 | the grammar with a second sign after a first: exact value or error, the second sign going with the whole part alone |
| `MoneyText.OnlyNumeralsParse` | crates/penny-types/src/lib.rs:150-202 | nothing else gets past the format checks |
| `MoneyText.ParserAcceptsExactlyTheNumerals` | crates/penny-types/src/lib.rs:150-202 | a string is accepted exactly when some such numeral, of a value in range, spells it |
| `MoneyText.SignsCombineWithoutAFraction` | crates/penny-types/src/lib.rs:150-202 | both signs apply to the whole number exactly when the second is no minus or the fraction is zero |
| `MoneyText.SecondSignIsAccepted` | crates/penny-types/src/lib.rs:150-202 | an input: `--5` parses to 5 |
| `MoneyText.TwoSignsAndAFraction` | crates/penny-types/src/lib.rs:150-202 | inputs where they do not: `--5.5` parses to 4.5 and `+-5.5` to -4.5 |
| `Detector.DetectEngine.Feed` | crates/penny-detect/src/lib.rs:137-264 | the new state and result are those of `FeedStep` for some set of victims the capacity check may choose |
| `Detector.DetectEngine.ResumeSession` | crates/penny-detect/src/lib.rs:277-304 | a resume clears the pause, the window and the alert and records one event; an unpaused session is untouched |
| `Detector.DetectEngine.PruneInactiveSessions` | crates/penny-detect/src/lib.rs:386-411 | exactly the windows seen within retention stay, and the pauses and alerts that still have one |
| `Detector.DetectEngine.CapSessionCount` | crates/penny-detect/src/lib.rs:413-438 | as many sessions go as overflow, none of them seen later than one that stays |
| `Detector.DetectEngine.PruneWindow` | crates/penny-detect/src/lib.rs:365-368 | the digests at or after the cutoff, in order |
| `Detector.DetectEngine.PushRecordedEvent` | crates/penny-detect/src/lib.rs:370-384 | the last `max_recorded_events` of the events and the new one |
| `Detector.DetectEngine.RecordAlerts` | crates/penny-detect/src/lib.rs:172-256 | the events of a feed, its active alert, and its pause on the first loop alert |
| `DetectorFeeds.FeedRaisesExactly` | crates/penny-detect/src/lib.rs:326-352 | the alerts of a feed, in order: a tool loop exactly when its digest failed a tool that failed at least threshold times in the window, with that cardinality; a content loop exactly when its hash is that often in it, with the cardinality and the whole seconds since the oldest digest; a burn rate exactly when one is configured, two digests span long enough and cost more per hour, with that rate |
| `DetectorFeeds.ToolAlertIsExact` | crates/penny-detect/src/lib.rs:440-462 | the tool loop of any window, by the cardinality of its failures of the tool |
| `DetectorFeeds.ContentAlertIsExact` | crates/penny-detect/src/lib.rs:464-488 | the content loop of any window, by the cardinality of its equal hashes, since its oldest digest |
| `DetectorFeeds.BurnAlertIsExact` | crates/penny-detect/src/lib.rs:490-517 | the burn rate of any window: cost times 3600 over the seconds between its first and last digest |
| `DetectorFeeds.FeedLooksBack` | crates/penny-detect/src/lib.rs:152-170 | the window a feed looks at: the digests of its session, unless that expired, and its own, those at or after the loop cutoff and no others, in order |
| `DetectorFeeds.FeedExpiresTheOld` | crates/penny-detect/src/lib.rs:386-411 | of every other session a feed keeps the window exactly when it is not older than the retention and not evicted, and then the pause and the alert exactly when they are not older either, all unchanged |
| `DetectorFeeds.NothingOldIsLeft` | crates/penny-detect/src/lib.rs:386-411 | after a feed no window, pause or alert of any session is older than the retention |
| `DetectorFeeds.FeedConcludes` | crates/penny-detect/src/lib.rs:172-264 | of its own session: paused now exactly when pausing is configured and some alert is a loop, for the first one; an active alert exactly when one was raised, the first; one event for each alert, then the pause |
| `DetectorFeeds.DisabledFeedDoesNothing` | crates/penny-detect/src/lib.rs:143-145 | a detector that is switched off raises and changes nothing |
| `DetectorFeeds.ResumeForgetsTheSession` | crates/penny-detect/src/lib.rs:277-304 | a resume drops the three entries of its session and no other, and records since when it was paused; an unpaused session is untouched |
| `DetectorRuns.FeedBoundsWindows` | crates/penny-detect/src/lib.rs:413-438 | after every feed there are at most `max_sessions` windows |
| `DetectorRuns.EventsAreTheTailOfTheLog` | crates/penny-detect/src/lib.rs:370-384 | the recorded events are always the newest ones of the full log |
| `DetectorRuns.HeldSessionsHaveWindows` | crates/penny-detect/src/lib.rs:147-171 | with strictly increasing timestamps and room for one session, every paused or alerting session has a window |
| `DetectorRuns.FeedOrphans` | crates/penny-detect/src/lib.rs:137-256 | whatever the state, a feed leaves without a window at most the session it feeds: exactly when that is evicted while it alerts |
| `DetectorRuns.OrphansExactlyWhenCrowdedOut` | crates/penny-detect/src/lib.rs:413-438 | over every run, an allowed eviction can orphan a session exactly when the fed one alerts, the table is one over capacity and no other session was seen earlier; a pause exactly when it moreover pauses |
| `DetectorRuns.TiesCanOrphanAPause` | crates/penny-detect/src/lib.rs:413-438 | a run from the start that does: room for one session, a threshold of one, two sessions fed at one instant |
| `DetectorRuns.ResumeEarnsAFreshWindow` | crates/penny-detect/src/lib.rs:277-304 | after a resume, whatever happens, the session is not paused again before max(1, threshold) further feeds of it |
| `DetectorRuns.DetectorAgreesWithFullHistory` | crates/penny-detect/src/lib.rs:326-352 | with retention at least the loop window, non-decreasing timestamps and no capacity eviction, every feed raises exactly the alerts of a detector that forgets nothing |
| `SseFraming.FindSseDelimiter` | crates/penny-providers/src/lib.rs:1071-1092 | the first delimiter and its width, none exactly when there is none |
| `SseFraming.StreamBuffer.DrainSseEvents` | crates/penny-providers/src/lib.rs:1094-1105 | the non-blank blocks of the framing, decoded, with its leftover kept in the buffer |
| `SseFraming.ParseSseEvent` | crates/penny-providers/src/lib.rs:1107-1124 | the event name and the joined data of a block's fields |
| `SseFraming.FramingSpellsTheInput` | crates/penny-providers/src/lib.rs:1094-1105 | blocks, delimiters and leftover spell the input, each block ends at its first delimiter, the leftover has none |
| `SseFraming.FramingIsUnique` | crates/penny-providers/src/lib.rs:1094-1105 | no other cut of the input does |
| `SseFraming.CutIsStable` | crates/penny-providers/src/lib.rs:1071-1092 | bytes that arrive later never move a delimiter already found |
| `SseFraming.ChunksFrameAsOne` | crates/penny-providers/src/lib.rs:1094-1105 | draining after every chunk yields the blocks and leftover of the whole stream, including a delimiter split between chunks |
| `SseFraming.DrainingIgnoresChunkBoundaries` | crates/penny-providers/src/lib.rs:1094-1105 | events and leftover are a function of the bytes alone |
| `Utf8.DecodeSplitsAtAscii` | crates/penny-providers/src/lib.rs:1097 | lossy decoding distributes over every ASCII byte, so cutting there before decoding loses nothing |
| `Utf8.DecodeAddsNoAscii` | crates/penny-providers/src/lib.rs:1097 | a decoded ASCII character comes from its own byte and nothing else |
| `Utf8.DecodeUndoesEncode` | crates/penny-providers/src/lib.rs:1279-1289 | well-formed text survives the lossy decoder |
| `SseDecoding.SseDecoder.Push` | crates/penny-cli/src/main.rs:3358-3389 | the messages, leftover and fields of reading the buffered bytes and the chunk line by line |
| `SseDecoding.SseDecoder.Finish` | crates/penny-cli/src/main.rs:3391-3397 | what the end of the stream delivers |
| `SseDecoding.SseDecoder.TakeMessage` | crates/penny-cli/src/main.rs:3399-3408 | the pending message, none exactly when no field was read, and the fields cleared |
| `SseDecoding.PushingIgnoresChunkBoundaries` | crates/penny-cli/src/main.rs:3358-3389 | messages and final state are a function of the bytes alone |
| `SseDecoding.FinishDeliversThePendingMessage` | crates/penny-cli/src/main.rs:3391-3397 | the end of the stream delivers what a closing blank line would have exactly when the last line was finished or leaves no fields; otherwise it delivers nothing |
| `SseDecoding.UnfinishedDataIsLost` | crates/penny-cli/src/main.rs:3391-3397 | a stream that ends in `data:x` delivers nothing |
| `SseAgreement.DecodersAgree` | crates/penny-cli/src/main.rs:3357-3389 | on plain line endings the framed blocks, parsed, and the line reader give the same messages in the same order; blocks without fields give none |
| `SseAgreement.ChunkedDecodersAgree` | crates/penny-providers/src/lib.rs:1094-1124 | the same for any two chunkings of one stream that has no carriage return, or ends every line in CR LF |
| `SseExactAgreement.DecodersAgreeExactly` | crates/penny-providers/src/lib.rs:1071-1124 | on any bytes, the messages are the same exactly when each framed block holds at most one group of field lines between blank lines and no data line or last event line of it ends in CR CR before a line end that loses both, and no group is ended in the leftover |
| `SseExactAgreement.BlockParses` | crates/penny-providers/src/lib.rs:1107-1124 | parsing a block takes its lines less two carriage returns each, one for a last line ended by a bare LF |
| `SseAgreement.MixedEndingsDisagree` | crates/penny-providers/src/lib.rs:1071-1092 | LF followed by CR LF ends a message for the line reader and no block for the framing |
| `SseExactAgreement.ExtraReturnsDisagree` | crates/penny-providers/src/lib.rs:1112 | a data line ended by CR CR LF keeps a carriage return for the line reader alone |
| `SseExactAgreement.DisagreeingInputs` | crates/penny-cli/src/main.rs:3357-3389 | an input for each |
| `StreamTranslation.AnthropicStreamState.MapStreamEvent` | crates/penny-providers/src/lib.rs:459-554 | the chunks and the new state of one event, as `MapEvent` |
| `StreamTranslation.SendEvents` | crates/penny-providers/src/lib.rs:899-922 | the inner loop over one drain: sends, and stops at the terminal event or when the receiver takes no more |
| `StreamTranslation.SendLoop` | crates/penny-providers/src/lib.rs:885-925 | the lines sent, translated or verbatim, are a function of the upstream bytes, not of their chunks, cut short where the receiver takes no more |
| `StreamTranslation.SentIsTranslated` | crates/penny-providers/src/lib.rs:913-921 | for a completion client they are the lines of the translated events |
| `StreamMeaning.DoneComesOnceAndLast` | crates/penny-providers/src/lib.rs:459-470 | the terminal chunk comes at most once, only last, and exactly when the upstream ends |
| `StreamMeaning.RoleComesOnce` | crates/penny-providers/src/lib.rs:478-502 | the role chunk comes exactly once when a message starts, and never otherwise |
| `StreamMeaning.ContentIsTheUpstreamText` | crates/penny-providers/src/lib.rs:504-523 | the deltas spell the upstream text before the terminal event |
| `StreamMeaning.UsageIsTheLastReported` | crates/penny-providers/src/lib.rs:1190-1217 | a usage can be read off the chunks exactly when message_stop ended the stream, and it is the last input and output tokens reported, zero for none |
| `StreamChunks.FinishReasonIsTheLastReported` | crates/penny-providers/src/lib.rs:1190-1217 | a stream ended by message_stop says why in its last chunk before the terminal one: length exactly for a last reported max_tokens, tool_calls exactly for tool_use, stop otherwise |
| `StreamChunks.LastChunkCarriesTheCounts` | crates/penny-providers/src/lib.rs:1190-1217 | that chunk carries the last prompt and completion counts, zero for none, their 64-bit sum, and an empty delta |
| `StreamChunks.OnlyTheLastChunkFinishes` | crates/penny-providers/src/lib.rs:1144-1188 | no other chunk has a finish reason or counts |
| `StreamChunks.ChunksNameTheirMessage` | crates/penny-providers/src/lib.rs:1144-1217 | every chunk an event adds names the id and model of the last message_start so far, or the request's where that names none, the object and the creation time |
| `StreamChunks.DoneIsTheMarker` | crates/penny-providers/src/lib.rs:464 | the terminal marker is the six characters of [DONE] in any case |
| `StreamChunks.KindsAreNames` | crates/penny-providers/src/lib.rs:475-552 | which event names the translation tells apart |
| `StreamReadBack.LinesReadBack` | crates/penny-providers/src/lib.rs:1144-1217 | the bytes of the lines for any writable chunks, framed and parsed again, give one event with the payload of each chunk, in order, and leave nothing over |
| `StreamReadBack.TranslationReadsBack` | crates/penny-providers/src/lib.rs:459-552 | a client that frames and parses the translated stream reads exactly its chunks: each payload, and the marker for the terminal one |
| `StreamMeaning.TranslatedIsWritable` | crates/penny-providers/src/lib.rs:1144-1217 | every chunk built is a value the JSON library can write |
| `StreamMeaning.LinesReadAsChunks` | crates/penny-proxy/src/lib.rs:1133-1151 | reading the rendered lines gives the first usage of the chunks |
| `StreamMeaning.ProxyReadsTheUpstreamUsage` | crates/penny-proxy/src/lib.rs:1638-1664 | from upstream bytes to settled tokens, for any cleanup that leaves the sent lines as they are and a client that takes them: every line is collected, the end is seen exactly when the upstream ended the stream, the tokens are the last reported |
| `StreamUsage.ProviderUsageFromOpenAiSseLines` | crates/penny-proxy/src/lib.rs:1133-1151 | the usage of the first line that has one; nothing when a line that is not JSON comes first |
| `StreamUsage.ProviderUsageFromAnthropicSseLines` | crates/penny-proxy/src/lib.rs:1155-1232 | the usage tallied over all physical lines |
| `StreamUsage.UsageIsTheFirstFound` | crates/penny-proxy/src/lib.rs:1133-1151 | the usage is that of the first data line with one, provided every data line before it reads as JSON or is a terminal marker |
| `StreamUsage.DataLineTallies` | crates/penny-proxy/src/lib.rs:1155-1232 | what one data line adds to the tally: its payload, nothing for a blank one, a terminal marker or one that is not JSON |
| `StreamUsage.CompletionUsageReads` | crates/penny-proxy/src/lib.rs:905-926 | the names the three counts of a completion are read under |
| `StreamUsage.UsageFromCompletion` | crates/penny-proxy/src/lib.rs:905-926 | present exactly with both counts; fresh and cached input add up to the prompt tokens, as many cached as reported but no more than those; output as reported; nothing is cache creation |
| `StreamUsage.StreamReadsAMessageAlike` | crates/penny-proxy/src/lib.rs:931-949 | a complete message has the usage a stream starting with it would have, and none without output tokens |
| `StreamUsage.CollectStream` | crates/penny-proxy/src/lib.rs:1638-1655 | the cleaned lines up to the first terminal one, the one the client no longer takes, or the end, as a recursion and as a prefix told apart by where it ends; whether a terminal one was seen, and for a client that takes all, whether there is one |
| `StreamUsage.PayloadContainsAnsiMarker` | crates/penny-proxy/src/lib.rs:1014-1034 | true exactly when an escape character occurs, raw or as a JSON escape |
| `StreamUsage.EscapeIsSpelled` | crates/penny-proxy/src/lib.rs:1020-1029 | the JSON escape is one of two six-character texts, in full |
| `NativeStream.NativeUsageIsTheLastReported` | crates/penny-proxy/src/lib.rs:1155-1232 | on a forwarded stream the usage is the last of all four counts reported, present exactly when input was |
| `NativeStream.PathsAgreeWithoutCacheTokens` | crates/penny-providers/src/lib.rs:1190-1217 | the translated and the native account of one finished stream agree exactly when input was reported and no cache tokens were |
| `NativeStream.CacheTokensAreDropped` | docs/LIMITATIONS.md:16-20 | one cached token read makes them differ: the translated stream carries no cache counts |
| `NativeStream.NativeEndIsSeenWhen` | crates/penny-proxy/src/lib.rs:1638-1655 | a native stream that the cleanup leaves as it is, for a client that takes it, is seen to end exactly when the proxy takes for its end some block up to the one the provider stops at, or any block when it never stops |
| `NativeStream.ProviderStopsWhen` | crates/penny-providers/src/lib.rs:904 | the provider stops at a block whose last event line, less its carriage returns, is one of two spellings |
| `NativeStream.ProxyStopsWhen` | crates/penny-proxy/src/lib.rs:1234-1241 | the proxy takes a forwarded block for the end exactly when some line of the block, trimmed at both ends, is the spaced spelling, whatever its line endings |
| `NativeStream.ProxyReadsTheNativeUsage` | crates/penny-proxy/src/lib.rs:1638-1664 | on events as a messages upstream writes them, left as they are by the cleanup and taken by the client: every line is collected, the end is seen exactly when there is a message_stop, and the tokens are the last of all four counts reported |
| `NativeStream.TheyStopApart` | crates/penny-proxy/src/lib.rs:1234-1241 | a stop without the space that only the provider sees, and an indented one that only the proxy sees |
| `StreamRelay.StreamPassthroughResponse` | crates/penny-proxy/src/lib.rs:1638-1661 | the collected lines, the usage read off them or else the estimate, and whether the stream is complete |
| `StreamRelay.RelayStream` | crates/penny-proxy/src/lib.rs:1638-1661 | provider and proxy composed over any upstream bytes in any chunks: a translated stream is settled on the last reported tokens exactly when a message_stop ended it, on the estimate otherwise; a native one is complete exactly when some forwarded block up to the provider's stop is taken for the end |
| `NativeStream.TheEndIsSeenOnlyAfterASpace` | crates/penny-proxy/src/lib.rs:1234-1241 | the provider stops at `event:message_stop` with or without the space after the colon, the proxy sees the end only with it |

## Left out

- The store: SQLite, WAL, migrations, lock retries. A transaction is one step and never fails for reasons of storage, so a failed reserve lookup and an unwritable settlement are not modelled. Reading the applicable budgets, counting the budgets, pricing the estimate and reading the soft-limit totals may fail; the theorems over interleaved requests assume that the last of these does not.
- The choice of applicable budgets by scope: the budgets of a call are an argument. Where a statement says so they have distinct ids, as rows of a table with a primary key do.
- Interleaving inside one evaluation: the soft-limit totals are read right after the reservation commits, as one step with it, so a warning that another request's commit falls between the two is not modelled.
- HTTP, tokio, channels and timeouts: a dispatch is an outcome, an error or a usage cost; a client that disconnects is a number of lines it takes (`CollectStream`), and a receiver that goes is a number of lines it takes (`SendLoop`).
- Persistence of requests, usage and events, tracing, response bodies and headers, and the text of error and denial messages; ledger errors are told apart by kind.
- JSON text: reading and writing it is a pair of functions, and the stream theorems assume only that an object which can be written, and nests no deeper than the parser's default of 127 levels, reads back and is written on one line (`Payloads.Lawful`). Numbers that are not 64-bit integers are kept as text, and can be written when the library keeps that text.
- Floating point: the burn rate is compared over the reals, and `from_usd`, `to_usd`, `estimate_range` and the REAL columns are not modelled.
- Token estimation and tokenizers, the pricebook and its import: token counts and the price row are arguments, and the cost a dispatch settles at is any amount, so the fallback to the estimate when pricing fails is covered without being modelled.
- Time arithmetic limits: timestamps and window lengths are unbounded integers, so chrono overflow and the cast of very large configured seconds to `i64` are not modelled.
- The model, provider and input-token fields of a request digest, which no alert reads, and the alert's JSON detail and severity.
- The ANSI regular expressions and JSON minification of the payload cleanup; only the quick scan that guards them is modelled, and the cleanup of a streamed line is any function of the line.
- The completion passthrough provider, the mock provider, and the translation of complete responses: easy beside the streaming translation.
- Configuration layers, slugs, CSV, report SQL, CLI tables, daemon files and reset times: I/O or easy claims.
- BudgetEvaluation.BudgetEvaluator.Evaluate: the events it records are not modelled, and a failed soft-limit read is told to it rather than met.
- BudgetPreview.BuildBudgetSummary: one model stands for the admin and the CLI preview, which are the same loop written twice; the scope and window that a row repeats from its budget, and the choice of the applicable budgets, are not modelled.
- Proxy.ProxyState.EvaluateBudget: its soft-limit read is taken not to fail; `BudgetEvaluation.AFailedReadKeepsTheReservation` says what one call does when it fails. The number of budgets and the price are arguments.
- Proxy.ProxyState.ProcessRequest: attribution, the persistence of the request, and the detection that follows it are outside; whether the session is paused is an argument.
- NativeStream.NativeUsageIsTheLastReported: states the counts for events of one payload on one line, as a messages upstream writes them. For other blocks the proxy reads each data line as a payload of its own while the event reader joins them, so there is no one payload to speak of; `ProviderUsageFromAnthropicSseLines` covers those line by line.
- SseExactAgreement.DecodersAgreeExactly: only messages pushed before the end of the stream are compared, as the framing has no finish.
- StreamUsage.ProviderUsageFromAnthropicSseLines: the price snapshot stored with a usage, a copy of the counts, is not modelled.
