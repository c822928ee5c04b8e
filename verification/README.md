# Verified model of the funding-hedging backend's money-moving core

This project models, in Dafny, the parts of the backend that move money or account for it, and
proves what must hold over whole runs of them.

- **Borrow tasks** (`BorrowStore`, `BorrowDomain`, `BorrowProtocol`, `BorrowLog`,
  `BorrowLogRefines`, `BorrowRuns`, `BorrowScheduler`, `BorrowGates`). The three tables of the
  durable store are a class whose transactions update its fields in place; each transaction's
  contract is its new content as a function of the old. `BorrowGates` says what the gates and
  results do over the fields. `BorrowProtocol` lets these transactions happen in any order:
  task creation, status writes, edits whose check and versioned write are separate steps, log
  clearing, settings, global Start and Stop, inserting a pending attempt, the executor call, its
  result, a result lost in a crash, and owner recovery at any moment. The world also records a
  history of inserts, calls, results, Starts, Stops and clears, which no step reads.
- **Cursors and pages** (`Cursor`, `Paging`). Integer text, unpadded base64url (section 5 of
  RFC 4648), keyset pages, and the merge of two sources behind one cursor.
- **PnL curve and repayment matching** (`PnlSeries`, `PnlLaws`, `RepayMatching`). The bucket maps, counters
  and the sparse prefix-sum loop, against plain sums over the events.
- **Hedge quantity and gate** (`DecimalText`, `DecimalGrid`, `HedgeLegs`, `HedgePreflight`,
  `HedgeFilters`, `SmoothGate`). Decimals are a coefficient and a power of ten; prices and sizes in the gate are
  exact reals.
- **Hedge workers** (`WorkerProtocol`, `WorkerRelaunch`, `WorkerLaunch`, `WorkerRegistry`). One task's threads, registry entry,
  relaunch flag, wake object and pending notifications, with every critical section one step.
- **Position merge** (`PositionsMerge`, `PositionsDrift`).
- **Transfers and repayments** (`MoneyMovement`). Both stores and the request handlers, with
  begin, send, receive, price capture and resolve as separate steps of any number of requests, any
  of which can be cut short anywhere.

`DecimalText` and `Arithmetic` hold the number lemmas, `Options` the optional value.

Results that go against the documentation or need a condition:

- An accepted interval text, client order id or order quantity breaks its documented pattern exactly
  when it ends in one newline, which `$` in the pattern matches before
  (`BorrowDomain.IntervalExceptNewline`, `HedgePreflight.ClientIdExceptNewline`,
  `HedgePreflight.QuantityExceptNewline`). The interval floor is 0.1 s, although the documentation
  speaks of two seconds (`BorrowDomain.ParseIntervalExact`).
- `success_count <= success_target` holds in every run exactly when an edit's client version is at
  most one ahead of the row it was checked against (`BorrowRuns.CountsHoldExactly`).
- A quantity bound falls back from `MARKET_LOT_SIZE` to `LOT_SIZE` as documented except when the
  market field is a number that is not positive, such as the text `"0.00"`; then the bound is lost
  (`HedgePreflight.BoundFallsBackExactly`).
- "Strictly above the threshold" after rounding is "at least half a hundredth above" before it; for
  a negative threshold a tie does not pass (`SmoothGate.RoundedAbove`).
- A relaunch asked of the registered worker can be taken by an older thread, and can be lost, exactly
  when some thread is out of the registry but has not read the flag at the request
  (`WorkerRelaunch.OlderTakesExactly`, `WorkerRelaunch.RequestLostExactly`; such a state is reached in
  `WorkerProtocol.FlagMayBeTakenByAnOlderThread`). Otherwise it is served by a worker started after it
  (`WorkerRelaunch.RequestIsServed`).

## Model

| member | source | states |
|---|---|---|
| `BorrowStore.MaxCreationSeqIsMax` | backend/borrow_tasks/store.py:270-303 | the number a new task gets exceeds every creation number in use |
| `BorrowStore.MaxSequenceIsMax` | backend/borrow_tasks/store.py:605-609 | the sequence a new attempt gets exceeds every surviving sequence of its task |
| `BorrowStore.BorrowTaskStore.RecoverOrphans` | backend/borrow_tasks/store.py:208-228 | owner start-up clears every in-flight marker and turns every pending row into a response-less unknown, in one transaction |
| `BorrowStore.BorrowTaskStore.Create` | backend/borrow_tasks/store.py:270-303 | the whole new content after inserting a task, or nothing when the id exists |
| `BorrowStore.BorrowTaskStore.SetStatus` | backend/borrow_tasks/store.py:366-387 | the unconditional status write, version bump and optional live authorization |
| `BorrowStore.BorrowTaskStore.Edit` | backend/borrow_tasks/store.py:389-411 | the versioned write happens exactly when the row still has the expected version |
| `BorrowStore.BorrowTaskStore.ClearAttemptLogs` | backend/borrow_tasks/store.py:324-348 | only rows named by an in-flight marker stay; the counts of deleted and retained rows are exact |
| `BorrowStore.BorrowTaskStore.SetExecution` | backend/borrow_tasks/store.py:478-518 | Start clears the re-arm flag and the cooldown only when none is in force |
| `BorrowStore.BorrowTaskStore.InsertPendingAttempt` | backend/borrow_tasks/store.py:522-623 | all guards checked in the transaction; on success the row, the marker, the version and the cursor move together, otherwise nothing does (which guards: `BorrowGates.InsertNeeds`) |
| `BorrowStore.BorrowTaskStore.Resolve` | backend/borrow_tasks/store.py:641-810 | both branches of resolution: a repeated failure folds into its line and the new row is deleted, anything else is finalized and counted (what is counted and limited: `BorrowGates.ResultSettlesTask`, `BorrowGates.RateLimitSetsCooldown`) |
| `BorrowStore.BorrowTaskStore.RecordRateLimit` | backend/borrow_tasks/store.py:812-830 | a retry delay sets the cooldown, a 418 demands re-arming, other results touch nothing (over the fields: `BorrowGates.RateLimitSetsCooldown`) |
| `BorrowLog.RunIsMaximal` | backend/borrow_tasks/store.py:625-639 | the runs that the collapsed log merges are joined throughout and cannot be extended |
| `BorrowLog.CollapseSnoc` | backend/borrow_tasks/store.py:641-735 | appending one result to a history rewrites the last collapsed line exactly when it joins the last result |
| `BorrowProtocol.StepStructured` | backend/borrow_tasks/store.py:522-810 | every step keeps rows in id order, sequences rising, and markers and pending rows naming each other |
| `BorrowLogRefines.FoldsExactly` | backend/borrow_tasks/store.py:641-735 | the store's two stored comparisons decide folding as the full history's last result does |
| `BorrowLogRefines.StepLogged` | backend/borrow_tasks/store.py:208-228 | one step of any kind keeps the shown log equal to the collapsed history |
| `BorrowLogRefines.LogRefinesHistory` | backend/borrow_tasks/store.py:641-810 | over any run, a task's resolved rows are its uncoalesced history since the last clear with every maximal run of equal failures collapsed into its first row with the last one's finish |
| `BorrowRuns.MarkersAreThePendingRows` | backend/borrow_tasks/store.py:580-618 | in every reachable state markers and pending attempts correspond one to one, at most one per task |
| `BorrowRuns.SequencesRiseWithIds` | backend/borrow_tasks/store.py:605-618 | within a task sequence numbers rise with attempt ids, deletions notwithstanding |
| `BorrowRuns.CountsHold` | backend/borrow_tasks/store.py:773-804 | success_count equals the successes ever recorded, never exceeds the target, and is below it while an attempt is in flight, with edits racing resolutions |
| `BorrowRuns.VersionTooFarAheadBreaks` | backend/borrow_tasks/service.py:256-278 | a run that breaks the bound for every client version two or more ahead |
| `BorrowRuns.CountsHoldExactly` | backend/borrow_tasks/store.py:389-409 | the bound holds in all runs if and only if no edit version runs more than one ahead |
| `BorrowRuns.NothingSentUntilRearmed` | backend/borrow_tasks/store.py:561-579 | in live mode, between a 418 result and any later insert or executor call lies a Start pressed at or after the cooldown then in force |
| `BorrowRuns.CooldownNeverShortened` | backend/borrow_tasks/store.py:478-518 | with a clock that does not run backwards, an active cooldown is never cleared early, moved earlier, or bypassed by a live insert (that it is set, and waited out: `BorrowGates.RetryDelayIsWaitedOut`) |
| `BorrowGates.RateLimitSetsCooldown` | backend/borrow_tasks/store.py:812-830 | in every reachable state, folded or kept, a rate-limited result with a retry delay sets the cooldown to its finish plus the delay, a 418 demands re-arming, and every other result leaves all settings alone |
| `BorrowGates.RecordedLimit` | backend/borrow_tasks/store.py:641-830 | every result is put on record as it was: its own row with its latency and gap, its ban, and the end of the cooldown it asked for |
| `BorrowGates.SettingsMirrorHistory` | backend/borrow_tasks/store.py:478-518 | in every reachable state execution is on exactly when the last of Start and Stop was Start, and the cooldown in force is exactly the last one asked for and not cleared since |
| `BorrowGates.LiveInsertsFollowStart` | backend/borrow_tasks/store.py:555-580 | every insert of every run was for a borrowing, idle task below its target; a live one was authorized when it ran and has a Start before it with no Stop since |
| `BorrowGates.LimitHoldsBackInserts` | backend/borrow_tasks/store.py:574-580 | until a later limit replaces it, a live insert after a limit is dispatched at or after its end, or follows a Start pressed at or after it |
| `BorrowGates.RetryDelayIsWaitedOut` | backend/borrow_tasks/store.py:574-580 | with a clock that does not run backwards, a live insert after a rate limit is dispatched at or after its finish plus its delay, until a later limit replaces it |
| `BorrowGates.InsertNeeds` | backend/borrow_tasks/store.py:555-580 | an insert goes through if and only if the task is borrowing, idle and below its target and, live, authorized with execution on, armed and out of cooldown at the dispatch |
| `BorrowGates.InsertedRow` | backend/borrow_tasks/store.py:581-618 | the row an insert adds: the next id, one above the highest sequence, pending, with its times and amount; marker and cursor move with it |
| `BorrowGates.ResultSettlesTask` | backend/borrow_tasks/store.py:91-104 | a success counts once and completes a borrowing or paused task that reaches its target; deleted and completed tasks keep their status, no other result touches count or status, and no other task is touched |
| `BorrowGates.RestartSettles` | backend/borrow_tasks/store.py:208-228 | a restart leaves no marker and no pending row, makes each pending row an unknown result, and changes nothing else |
| `BorrowGates.ColumnsMoveAsMeant` | backend/borrow_tasks/store.py:366-411 | in every reachable state each step changes only the task columns it is meant to, and every written row carries the next version |
| `BorrowGates.WritesTakeEffect` | backend/borrow_tasks/store.py:270-411 | a new task starts borrowing, authorized and at zero; a status write takes the status; an edit is applied if and only if the row still has the version it names |
| `BorrowGates.JoinsExactly` | backend/borrow_tasks/store.py:625-639 | only repeated refusals, rate limits and disabled executions with one reason and code share a line; successes and unknowns never do |
| `BorrowGates.PreviousIsNewest` | backend/borrow_tasks/store.py:744-753 | the dispatch a gap is measured from is that of the newest dispatched row with a lower id, of any task |
| `BorrowScheduler.EligibleFacts` | backend/borrow_tasks/store.py:350-364 | the eligible listing holds exactly the eligible tasks, once each, in creation order |
| `BorrowScheduler.ReachableListing` | backend/borrow_tasks/store.py:276-280 | in every reachable state the eligible listing is strictly ordered by creation number |
| `BorrowScheduler.FindCursor` | backend/borrow_tasks/scheduler.py:15-27 | the scan finds the cursor task's creation number, or that it is not a candidate |
| `BorrowScheduler.SelectNextTask` | backend/borrow_tasks/scheduler.py:15-35 | the task selected by creation number is the cyclic successor of the cursor, the first task when the cursor is not eligible, none when the list is empty |
| `BorrowScheduler.CyclicOrder` | backend/borrow_tasks/scheduler.py:15-35 | while the eligible set stays the same, round k serves the k-th task in cyclic creation order, whatever else happens between dispatches |
| `BorrowScheduler.EveryTaskOncePerCycle` | backend/borrow_tasks/scheduler.py:15-35 | any n consecutive dispatches over n eligible tasks serve each exactly once |
| `BorrowScheduler.ReachableIntervals` | backend/borrow_tasks/service.py:343-353 | whatever interval texts were sent, every reachable world has at least 100000 microseconds in force |
| `BorrowScheduler.DispatchesSpaced` | backend/borrow_tasks/service.py:408-427 | missed ticks are never replayed: whatever the delays, interval changes and other transactions, one process's dispatches are at least the interval floor apart |
| `BorrowScheduler.DispatchRateBound` | backend/borrow_tasks/service.py:408-427 | a window of W microseconds of one process's monotonic time holds at most W/100000 + 1 dispatches, in every run from the fresh database |
| `BorrowScheduler.ProcessFollowsProtocol` | backend/borrow_tasks/service.py:429-479 | the world of a ticking process is always one the protocol reaches, so the protocol's results hold for it |
| `BorrowScheduler.TickIsTheServicesTick` | backend/borrow_tasks/service.py:408-465 | a tick of the timed run has the due mark, the insert and the effect that the service's tick promises, and adds a dispatch time exactly when it inserts |
| `BorrowScheduler.BorrowService.PutSettings` | backend/borrow_tasks/service.py:343-353 | a rejected text changes nothing, an accepted one sets the parsed interval, and the floor is kept |
| `BorrowScheduler.BorrowService.Tick` | backend/borrow_tasks/service.py:408-465 | when a tick inserts, for which task, and with what effect; and that it changes nothing otherwise but the due mark (over the fields: `BorrowGates.TickNeeds`) |
| `BorrowGates.TickNeeds` | backend/borrow_tasks/service.py:405-470 | a tick inserts if and only if it is due, in the owner process, with credentials when live, out of cooldown, some task is insertable, and live execution is on and armed at the dispatch |
| `BorrowGates.ListedAreInsertable` | backend/borrow_tasks/store.py:350-364 | in every reachable state the listed tasks are exactly those borrowing, authorized, idle and below their target |
| `BorrowScheduler.BorrowService.EndDispatch` | backend/borrow_tasks/service.py:429-479 | after the executor call the in-flight id is dropped and the attempt resolved |
| `BorrowDomain.ParseIntervalExact` | backend/borrow_tasks/domain.py:189-219 | a text is accepted as an interval exactly when it is a plain decimal whose value is a whole number of microseconds, at least 100000, and that number is the result |
| `BorrowDomain.IntervalExceptNewline` | backend/borrow_tasks/domain.py:189-202 | an accepted interval text breaks the documented pattern if and only if it ends in one newline, and a documented text is read alike with one |
| `BorrowDomain.HalfASecondAndNewline` | backend/borrow_tasks/domain.py:189-219 | "0.5" followed by a newline is accepted as 500000 microseconds |
| `BorrowDomain.ClampRetryAfter` | backend/borrow_tasks/domain.py:72-82 | the retry delay is always within 60 to 300 seconds, unchanged inside that range |
| `Cursor.BytesRoundTrip` | backend/borrow_tasks/domain.py:250-266 | unpadded base64url of any bytes decodes to those bytes |
| `Cursor.NoPadding` | backend/borrow_tasks/domain.py:250-253 | no padding character is ever emitted |
| `Cursor.CursorRoundTrip` | backend/borrow_tasks/domain.py:250-266 | a log cursor decodes to exactly its time and id, for all integers |
| `Cursor.EntriesCursorRoundTrip` | backend/hedge_open_tasks/domain.py:1709-1738 | an entries cursor decodes to exactly its time, rank and id, and to nothing when the rank is not 0 or 1 |
| `Paging.FollowFrom` | backend/borrow_tasks/store.py:832-854 | pages read below the previous page's last key, joined together, are the rest of the list |
| `Paging.PagesEnumerateTheLog` | backend/borrow_tasks/service.py:282-297 | following next_cursor yields every row exactly once in descending (effective time, id) order for every page size, through the cursor text |
| `Paging.LogIsNewestFirst` | backend/borrow_tasks/store.py:832-854 | of two entries met, the earlier shown finished (else was dispatched, else scheduled) later, or at the same time with the higher id |
| `Paging.EntriesPageIsUnionPage` | backend/hedge_open_tasks/service.py:1525-1589 | one page cut from two merged limit+1 windows is one page of the merged sources |
| `Paging.EntriesEnumerateTheUnion` | backend/hedge_open_tasks/service.py:1525-1589 | the unified stream enumerates attempts and events exactly once in descending (time, rank, id) order |
| `Paging.EntriesAreNewestFirst` | backend/hedge_open_tasks/service.py:1525-1590 | the stream falls in time, then rank, then id |
| `RepayMatching.BuildRepayMatchIndex` | backend/ledger_flow/domain.py:536-552 | the index holds, per asset, exactly the terminal records with a settlement time, sorted by time and request id |
| `RepayMatching.MatchInterestRepay` | backend/ledger_flow/domain.py:555-570 | the search through the index finds the record the unindexed definition names |
| `RepayMatching.MatchIsLeast` | backend/ledger_flow/domain.py:555-570 | the match is the least (settlement time, request id) terminal repayment of the asset settled at or after accrual, and exists when any does |
| `RepayMatching.MatchIgnoresOrder` | backend/ledger_flow/domain.py:536-552 | two record lists with the same members give the same match |
| `RepayMatching.MatchChangesExactly` | backend/ledger_flow/domain.py:504-570 | one more repayment changes a row's match if and only if it qualifies and comes before the match there was |
| `RepayMatching.MatchedValueIsFrozen` | backend/ledger_flow/domain.py:573-596 | a later repayment, one before the accrual, or a price move never changes a matched row's match or USDT value |
| `RepayMatching.SettledRowAtStoredPrice` | backend/ledger_flow/domain.py:534-596 | a row settled by a full, succeeded repayment of its asset at or after its accrual is worth its interest at the price stored with the first such one, or nothing known when none was stored; an unsettled row at the current price |
| `RepayMatching.TextOrder` | backend/ledger_flow/domain.py:534-556 | request ids break ties in text order: a prefix, or lower at the first difference |
| `PnlSeries.FoldIncome` | backend/ledger_flow/domain.py:667-675 | funding and commission buckets and the unpriced assets are those of the row list |
| `PnlSeries.FoldCapital` | backend/ledger_flow/domain.py:676-678 | spot commissions are folded on top of the fees already there |
| `PnlSeries.FoldInterest` | backend/ledger_flow/domain.py:679-691 | interest is folded as a cost at each row's own matched or current price |
| `PnlSeries.FoldSlippage` | backend/ledger_flow/domain.py:693-735 | both slippage sources give the buckets and the two counters of their legs (what a leg is worth: `PnlLaws.SlippageIsSoldMinusBought`) |
| `PnlSeries.RunningIsSum` | backend/ledger_flow/domain.py:648-665 | adding bucket after bucket gives the sum of all in-window events at or before that bucket |
| `PnlSeries.EmitPoints` | backend/ledger_flow/domain.py:754-771 | the emission loop yields the zero origin and then exactly one true point per emission time |
| `PnlSeries.BuildPnlSeries` | backend/ledger_flow/domain.py:599-787 | each point's components are the sums of all in-window events up to it, net is their sum, times rise, the last point carries the totals of all in-window events, and the counters and unpriced set are exact (over the rows: `PnlLaws.TotalsAreTheRows`) |
| `PnlSeries.LegsAreConserved` | backend/ledger_flow/domain.py:693-735 | every slippage leg due in the window is either priced into the curve or counted as incomplete |
| `PnlSeries.AdjacentWindowsAddUp` | backend/ledger_flow/domain.py:648-665 | totals over [a,b] and [b+1,c] add up to the total over [a,c] |
| `PnlSeries.ReportedIsTotal` | backend/ledger_flow/domain.py:737-787 | the totals reported, read as zero where the source reports none, are those of all in-window events |
| `PnlSeries.TotalsAddUp` | backend/ledger_flow/domain.py:737-787 | the totals reported for adjacent windows, absent ones read as zero, add up component by component to those reported for the joined window |
| `PnlLaws.SlippageIsSoldMinusBought` | backend/ledger_flow/domain.py:472-493 | for every direction, kind, price and quantity, the value is the price of the leg the task sells minus the price of the leg it buys, times the quantity; absent exactly when a part is missing or not positive or the kind is neither |
| `PnlLaws.FillCarriesItsValue` | backend/ledger_flow/domain.py:694-711 | a fill carries that value of its own prices and quantity at its own time, none when incomplete |
| `PnlLaws.OpenLegCarriesItsValue` | backend/ledger_flow/domain.py:712-735 | the opening leg of a close log carries that value of its opening prices at its opening time in whole milliseconds |
| `PnlLaws.CloseLegCarriesItsValue` | backend/ledger_flow/domain.py:712-735 | the closing leg carries that value of its closing prices at its closing time |
| `PnlLaws.SlippageTotal` | backend/ledger_flow/domain.py:694-735 | the slippage of a window is the sum over its fills and both legs of its close logs of sold price minus bought price times quantity |
| `PnlLaws.TotalsAreTheRows` | backend/ledger_flow/domain.py:667-787 | the totals row by row: funding and both commissions as booked at current prices, interest as a cost at its own settled price, slippage as traded, and their net |
| `PnlLaws.FootnoteCounts` | backend/ledger_flow/domain.py:694-735 | the two counts are the legs without a time or due without a value, and the priced legs in the window whose quantities differ |
| `PnlLaws.SpotStartIsFirst` | backend/ledger_flow/domain.py:751-753 | the partial mark ends at the earliest spot flow on record |
| `PnlLaws.BucketHoldsEvent` | backend/ledger_flow/domain.py:648-649 | an event falls in the grid bucket that starts at or before it, less than one width earlier |
| `PnlLaws.UnpricedIncomeExactly` | backend/ledger_flow/domain.py:635-675 | an asset is reported exactly when some funding or commission row of it needs a price there is none of |
| `PnlLaws.UnpricedCapitalExactly` | backend/ledger_flow/domain.py:676-678 | likewise for spot commissions |
| `PnlLaws.UnpricedInterestExactly` | backend/ledger_flow/domain.py:679-691 | likewise for interest, whose price is the stored one when it is settled |
| `DecimalText.FmtRoundTrip` | backend/hedge_open_tasks/domain.py:1753-1766 | printing a decimal without trailing zeros and parsing it back keeps its value |
| `DecimalText.FmtShape` | backend/hedge_open_tasks/domain.py:1753-1766 | the printed text is a canonical integer part and, when one is left, a fraction that does not end in zero, never scientific notation |
| `DecimalText.FmtIdentifiesValue` | backend/hedge_open_tasks/domain.py:1753-1766 | two decimals print the same text if and only if they have the same value |
| `DecimalGrid.Bezout` | backend/hedge_open_tasks/domain.py:816-836 | the gcd is an integer combination of its arguments |
| `DecimalGrid.LcmDividesCommonMultiples` | backend/hedge_open_tasks/domain.py:816-836 | every common multiple of two step counts is a multiple of a*b/gcd |
| `DecimalGrid.DecimalLcmIsLeast` | backend/hedge_open_tasks/domain.py:797-836 | the decimal grid exists exactly for positive steps, is the least positive common multiple and divides every other |
| `DecimalGrid.GridIgnoresTrailingZeros` | backend/hedge_open_tasks/domain.py:797-836 | writing a step with more or fewer trailing zeros gives the same grid |
| `DecimalGrid.FloorToGridIsGreatest` | backend/hedge_open_tasks/domain.py:839-844 | flooring gives the greatest multiple of the grid not above the amount |
| `HedgePreflight.BoundFallsBackExactly` | backend/hedge_open_tasks/domain.py:886-910 | a bound is the documented fallback if and only if the market field is not a non-positive number hiding a lot bound |
| `HedgePreflight.ZeroTextLosesTheLotBound` | backend/hedge_open_tasks/domain.py:886-910 | a market maximum written "0.00" loses a lot maximum of 9000 |
| `HedgePreflight.PreflightQuantityIsGreatest` | backend/hedge_open_tasks/domain.py:1229-1308 | any quantity the preflight computes is the greatest common multiple of both legs' effective steps not above the amount, and an accepted one is positive (which field is the step: `HedgeFilters.QuantityIsGreatestOnGrids`) |
| `HedgePreflight.AcceptsExactly` | backend/hedge_open_tasks/domain.py:1175-1369 | a live preflight accepts if and only if everything was readable and the greatest common point is positive, within both legs' bounds and minimum notional, and funded (over the fields: `HedgeFilters.AcceptsByTheFields`) |
| `HedgePreflight.UnreadableRejections` | backend/hedge_open_tasks/domain.py:1196-1295 | an unreadable fact is always reported as incomplete and never as a violated rule, nor the reverse; an untradable symbol and a wrong position mode each get their own verdict |
| `HedgePreflight.RejectionsAreExact` | backend/hedge_open_tasks/domain.py:1064-1091 | below-minimum, above-maximum, below-notional, insufficient balance and acceptance are each given if and only if their own condition holds of the greatest common point, in order of precedence |
| `HedgePreflight.ClientIdExceptNewline` | backend/hedge_open_tasks/wire_constraints.py:41-55 | an accepted client id breaks the documented pattern if and only if it ends in one newline; a documented id followed by one is accepted exactly up to 36 characters |
| `HedgePreflight.IdAndNewline` | backend/hedge_open_tasks/wire_constraints.py:41-55 | a client id outside the documented pattern that is accepted |
| `HedgePreflight.QuantityExceptNewline` | backend/hedge_open_tasks/wire_constraints.py:30-34 | an accepted quantity breaks the documented pattern if and only if it ends in one newline, and a documented one is read alike with one |
| `HedgePreflight.HalfAndNewline` | backend/hedge_open_tasks/wire_constraints.py:80-90 | "0.5" followed by a newline is accepted as the quantity 0.5 |
| `HedgePreflight.ValidateOrderParams` | backend/hedge_open_tasks/wire_constraints.py:58-122 | the violations listed are exactly the rules the order breaks |
| `HedgePreflight.PrintedQuantity` | backend/hedge_open_tasks/executor.py:88-135 | the printed quantity passes the fixed-point pattern and is read back with the same value |
| `HedgePreflight.ClientIdsAreValid` | backend/hedge_open_tasks/executor.py:138-147 | both client ids derived from an attempt id are valid and differ |
| `HedgePreflight.AcceptedOrdersAreClean` | backend/hedge_open_tasks/executor.py:88-135 | every accepted preflight yields two order bodies that break no offline rule under their own leg's step, minimum and maximum (over the fields: `HedgeFilters.AcceptedOrdersPassTheFields`) |
| `HedgeFilters.QuantityIsGreatestOnGrids` | backend/hedge_open_tasks/domain.py:860-883 | over the filter fields: any quantity computed is the greatest amount not above the one asked for that is, for each leg, a multiple of its market step when that is a number above zero, else of its lot step |
| `HedgeFilters.AcceptsByTheFields` | backend/hedge_open_tasks/domain.py:860-936 | over the filter fields: a preflight accepts if and only if it has what it needs and such an amount exists, positive, within the bounds and the least order value that decide, and funded |
| `HedgeFilters.AcceptedOrdersPassTheFields` | backend/hedge_open_tasks/executor.py:88-135 | both orders of an accepted preflight break none of the step, minimum and maximum fields that decide for their leg, and the quantities read from their texts lie on those grids and within those bounds |
| `HedgeFilters.StepIsDecided` | backend/hedge_open_tasks/domain.py:860-883 | the step is the market one when it is a number above zero, else the lot one |
| `HedgeFilters.BoundsAreDecided` | backend/hedge_open_tasks/domain.py:886-936 | a bound is the market field whenever that is a number, else the lot field; the least value is the newer field, the older where it is absent, and none where it does not apply; only a number above zero counts |
| `HedgeFilters.RulesByTheFields` | backend/hedge_open_tasks/domain.py:1064-1091 | each filter rule is broken exactly when a field that decides says so |
| `HedgeFilters.OrdersTradeTheLegs` | backend/hedge_open_tasks/executor.py:88-147 | forward openings and reverse closings buy spot and sell the contract, the others the reverse, each order with its own symbol and id and both with one quantity |
| `HedgeFilters.BalanceShownAgrees` | backend/hedge_open_tasks/domain.py:1296-1369 | the balance is judged exactly when no rule is broken, and the numbers shown agree with the verdict |
| `HedgeLegs.ClosingUndoesOpening` | backend/hedge_open_tasks/domain.py:746-775 | legs trade opposite sides, opening forward buys spot, closing trades each leg back on the position side it was opened on |
| `SmoothGate.RoundHalfUpIsNearest` | backend/domain/snapshot.py:718-745 | rounding is to the nearest hundredth, ties away from zero |
| `SmoothGate.RoundedAbove` | backend/hedge_open_tasks/domain.py:1597-1598 | strictly above the threshold after rounding, stated on the unrounded spread, both directions |
| `SmoothGate.ThresholdCanonical` | backend/hedge_open_tasks/domain.py:1518-1542 | the stored threshold is the two-place text of the value entered |
| `SmoothGate.ThresholdIsStable` | backend/hedge_open_tasks/domain.py:1518-1542 | canonicalising is idempotent and keeps the value |
| `SmoothGate.ThresholdIsDecimal` | backend/hedge_open_tasks/domain.py:1518-1542 | a text is accepted if and only if it is an optional sign, digits and at most two decimals, and its hundredths are its decimal value times a hundred |
| `SmoothGate.GateUsesTheTasksOwnOrders` | backend/hedge_open_tasks/domain.py:1569-1619 | the gate passes on market if and only if the unrounded gain of the task's own two orders clears the threshold and both quotes those orders take hold at least 80% of the quantity, for every direction and task type |
| `SmoothGate.WaitNamesTheReason` | backend/hedge_open_tasks/domain.py:1569-1619 | the reason names the first thing wrong, and the coverages shown are the shares of the quantity that the task's own two orders find |
| `WorkerProtocol.StepKeepsValid` | backend/hedge_open_tasks/service.py:2196-2286 | every step keeps single ownership, the flag's reader and the waiter's pending announcements |
| `WorkerProtocol.OneWorkerInTheLoop` | backend/hedge_open_tasks/service.py:2196-2286 | under every interleaving at most one thread of the task is in the round loop |
| `WorkerProtocol.FlagAlwaysHasReader` | backend/hedge_open_tasks/service.py:2266-2271 | a set relaunch flag always has a thread that has still to read it |
| `WorkerProtocol.RelaunchIsActedOn` | backend/hedge_open_tasks/service.py:2266-2286 | while the task runs, the gate is on and the service is not stopping, a requested relaunch is still pending or some thread has acted on it |
| `WorkerProtocol.LaunchLeavesAWorker` | backend/hedge_open_tasks/service.py:2275-2286 | acting on the flag always leaves a registered worker that has not left |
| `WorkerLaunch.LaunchWasAllowed` | backend/hedge_open_tasks/service.py:2269-2286 | a worker about to launch its successor has, in this order and whatever ran between, taken a set flag, found no stop, the task running and the start gate on |
| `WorkerLaunch.StartedOnlyWhenNoneLives` | backend/hedge_open_tasks/service.py:2196-2232 | threads start one at a time, by an ensure or such a launch, only while no other living worker is registered |
| `WorkerProtocol.FlagMayBeTakenByAnOlderThread` | backend/hedge_open_tasks/service.py:2260-2286 | a reachable state with such an exiting thread, and the run in which it takes the request made to the second worker |
| `WorkerRelaunch.OlderTakesExactly` | backend/hedge_open_tasks/service.py:2205-2271 | in every reachable state, some continuation puts an older thread in front of the flag set for the registered worker if and only if some thread is out of the registry and has not read the flag |
| `WorkerRelaunch.RequestIsServed` | backend/hedge_open_tasks/service.py:2205-2286 | with no such thread, and while a relaunch is allowed, the flag stands until the worker asked has left, then is decided on by that worker or a later thread, and at the end has been served by a worker started after the request |
| `WorkerRelaunch.RequestLostExactly` | backend/hedge_open_tasks/service.py:2205-2286 | while a relaunch is allowed, all workers can end with none started after the request if and only if such a thread exists at the request |
| `WorkerProtocol.NoLostWakeUp` | backend/hedge_open_tasks/service.py:2131-2175 | a waiter asleep on an unmoved version has, for every change since it read that version, an announcement that ends on its own wake object; a finished one has moved the version |
| `WorkerProtocol.AnnouncementProgresses` | backend/hedge_open_tasks/service.py:1854-1876 | each step of a pending announcement brings it nearer to that bump |
| `WorkerRegistry.TaskWorkers.EnsureTaskWorker` | backend/hedge_open_tasks/service.py:2196-2232 | the critical section of ensure_worker is the protocol's step |
| `WorkerRegistry.TaskWorkers.ReleaseSubscriptions` | backend/hedge_open_tasks/service.py:1910-1920 | dropping subscriptions and wake object together |
| `WorkerRegistry.TaskWorkers.LeaveRegistry` | backend/hedge_open_tasks/service.py:2266-2268 | a worker removes only its own registry entry |
| `WorkerRegistry.TaskWorkers.TakeRelaunchFlag` | backend/hedge_open_tasks/service.py:2269-2271 | the flag is read and cleared in one step |
| `WorkerRegistry.TaskWorkers.SmoothWake` | backend/hedge_open_tasks/service.py:1846-1852 | the wake object is found or made, never replaced |
| `WorkerRegistry.TaskWorkers.WaitFor` | backend/hedge_open_tasks/service.py:2171-2174 | the waiter sleeps exactly when the version has not moved |
| `WorkerRegistry.TaskWorkers.NotifySmoothTask` | backend/hedge_open_tasks/service.py:1854-1861 | a notification bumps the registered wake object once, or finds none |
| `WorkerRegistry.TaskWorkers.StopService` | backend/hedge_open_tasks/service.py:636-648 | stop sets the stop event and starts the announcement that clears the flags first |
| `PositionsMerge.ChooseIsLatest` | backend/hedge_open_tasks/domain.py:2266-2284 | the bucket taken is an active one of the position's symbol and direction, opened last, and is absent only when there is none |
| `PositionsMerge.AssembleRows` | backend/hedge_open_tasks/domain.py:2260-2309 | the two loops build one row per exchange position and one per bucket not taken |
| `PositionsMerge.GroupReverseRows` | backend/hedge_open_tasks/domain.py:2315-2338 | the grouping loop's row lists, totals and validity are those of each asset's open reverse rows |
| `PositionsMerge.ApplyVerdicts` | backend/hedge_open_tasks/domain.py:2340-2355 | visiting the groups in any order gives each row its own asset's verdict |
| `PositionsMerge.MergePositions` | backend/hedge_open_tasks/domain.py:2198-2363 | the merged list is the stable sort of the assembled, judged rows; with distinct cycle keys and distinct (symbol, side) the list returned holds every bucket and every exchange position exactly once |
| `PositionsMerge.MergeConserves` | backend/hedge_open_tasks/domain.py:2260-2309 | with distinct cycle keys and distinct (symbol, side), every bucket and every exchange position is in exactly one row |
| `PositionsMerge.MatchesAreOpenCycles` | backend/hedge_open_tasks/domain.py:2266-2309 | a closed cycle is never paired with an exchange position, and a position stays without a bucket only when it has no open cycle |
| `PositionsMerge.OneVerdictPerAsset` | backend/hedge_open_tasks/domain.py:2311-2355 | all open reverse rows of one asset carry one drift verdict, that of the merged rows themselves (over the fields: `PositionsDrift.ReverseDriftExactly`) |
| `PositionsDrift.ReverseDriftExactly` | backend/hedge_open_tasks/domain.py:2311-2355 | with distinct cycle keys and distinct (symbol, side), a reverse row drifts if and only if it is an open cycle on record, the account, its three balances and every quantity of the asset's open reverse cycles can be read, and the sum of those quantities exceeds max(borrowed - free - locked, 0) by more than 1% of the sum |
| `PositionsDrift.DriftOverRows` | backend/hedge_open_tasks/domain.py:2311-2355 | without that condition, the same with the sum over the buckets of the merged rows |
| `PositionsDrift.SoldPermutes` | backend/hedge_open_tasks/domain.py:2311-2338 | that sum does not depend on the order of the cycles |
| `PositionsDrift.UngroupedNeverDrifts` | backend/hedge_open_tasks/domain.py:2315-2325 | a reverse row that is closed or without a record never drifts |
| `PositionsDrift.BalancesAreTheAccounts` | backend/hedge_open_tasks/domain.py:2040-2195 | the balances on every merged row are the account's for its base asset, absent where the account has none |
| `PositionsDrift.BaseAssetSources` | backend/hedge_open_tasks/domain.py:1947-1986 | the base asset is the recorded one, else the snapshot's, else the symbol without its quote |
| `PositionsDrift.SideReadsBack` | backend/hedge_open_tasks/domain.py:1988-2000 | the position side a hedge account's opening names is read back as its direction |
| `PositionsDrift.MergedOrder` | backend/hedge_open_tasks/domain.py:2357-2362 | merged rows come by symbol, then direction, then opening time |
| `PositionsMerge.MarkersAreTrue` | backend/hedge_open_tasks/domain.py:2040-2195 | on every merged row the single-leg marker means the legs differ by more than 1% of the larger, and a forward row's drift marker that a readable account holds less than the record |
| `MoneyMovement.OnlyRefusalsFail` | backend/app/server.py:940-980 | exactly the explicit refusals are recorded as failed and exactly the confirmations as succeeded |
| `MoneyMovement.AssetTransferStore.Begin` | backend/asset_transfer/store.py:73-109 | the first begin inserts a pending row, every other returns the row there is |
| `MoneyMovement.AssetTransferStore.Resolve` | backend/asset_transfer/store.py:111-131 | the outcome overwrites the row, and only that row |
| `MoneyMovement.MarginRepayStore.Begin` | backend/margin_repay/store.py:89-124 | the first begin inserts a pending row, every other returns the row there is |
| `MoneyMovement.MarginRepayStore.Resolve` | backend/margin_repay/store.py:126-159 | the outcome and the captured price overwrite the row, and only that row |
| `MoneyMovement.StepKeepsValid` | backend/app/server.py:904-924 | every step of any request keeps one owner per record, its pending status while owned, and the call count |
| `MoneyMovement.AtMostOneCall` | backend/app/server.py:904-924 | under any interleaving, repetition and crash, a request id causes at most one outgoing call, and none before its record is stored |
| `MoneyMovement.ResolvedIsFinal` | backend/margin_repay/store.py:126-159 | a resolved record never changes again in any continuation, although resolve itself overwrites unconditionally |
| `MoneyMovement.SurvivorResolves` | backend/app/server.py:1022-1050 | a request that inserted its record and lived to reply left it resolved, as it replied |
| `MoneyMovement.AnswerIsRecorded` | backend/app/server.py:940-1050 | through anything that happens around it, a request whose answer arrived and that lived to reply left exactly that answer's classification on its record |
| `MoneyMovement.CapturedPriceIsKept` | backend/app/server.py:1036-1046 | a full repayment that succeeded keeps the price captured for it until its reply and on its record, and no other request keeps one |
| `MoneyMovement.PendingIsExplained` | backend/app/server.py:904-924 | a pending record always has a request of its id that is still working on it or was cut short |
| `MoneyMovement.PriceImpliesTerminal` | backend/ledger_flow/domain.py:526-533 | a stored repayment price sits on a record that satisfies the terminal-repayment predicate |

## Left out

- SQLite, JSON, HTTP parsing, authentication and threads: tables are maps and sequences, a `with self._conn` block is one step, and only the interleaving of steps is modelled.
- Row order: the order of task rows is the order of their creation, and attempt rows are kept in id order, as the queries read them.
- The owner lock file: one owner per database is assumed.
- Decimal context precision (28 or 40 digits), NaN and infinities: amounts, prices and sizes are exact, and unparseable or non-finite values are absent ones.
- ISO time text: times are integers of microseconds or milliseconds; opening times sort by value, as their fixed-width text does.
- Executors, exchange clients, market-data and preflight providers, and the hedge store: their results are arbitrary inputs; the hedge store's paging is assumed to return its rows below the cursor in order.
- Hedge order submission, leg reconciliation and settlement: the deciding transactions are in the hedge store, which is not part of this model.
- Cursor.CursorRoundTrip: the source's decoder also accepts padding, discards characters outside the alphabet, and takes surrounding space and other integer forms, none of which an emitted cursor has; the model rejects those inputs.
- SmoothGate.ThresholdCanonical: the spread is kept in hundredths; its display text is not modelled.
- HedgePreflight.AcceptedOrdersAreClean: symbols are ASCII, so upper case means no letter a to z; order keys without an offline rule (position side, side effect, reduce-only) are not modelled.
- HedgePreflight.ValidateOrderParams: negative step or bound arguments and a body that is not an object are not modelled, nor is the order of the reported violations.
- HedgePreflight.AcceptsExactly: the snapshot record text and the rate limits carried by the snapshot are not modelled.
- PositionsMerge.MergePositions: display fields copied from the account, and the account lists before they are indexed by asset, are not modelled; a later row of the same asset has already replaced an earlier one.
- WorkerProtocol.NoLostWakeUp: one task's slice is modelled, with a market provider present; other tasks' entries in the shared dictionaries do not interact with it. What the gate decides from the data it reads is in SmoothGate.
- WorkerProtocol.RelaunchIsActedOn: whether the worker then dispatches depends on the hedge store.
- BorrowGates.RetryDelayIsWaitedOut: needs a clock on which no insert is dispatched earlier than a Start pressed before it; without one, `BorrowGates.LimitHoldsBackInserts` names the only other way past a limit.
- BorrowRuns.CooldownNeverShortened: needs a clock that does not run backwards between a dispatch and its result, and a retry delay that is not negative.
- BorrowRuns.NothingSentUntilRearmed: outside live mode the disabled executor makes no call, so a rate-limited result is not a possible step there and is dropped.
- BorrowScheduler.DispatchRateBound: across a restart the monotonic clock and the last tick begin anew, so the bound is per process.
- MoneyMovement.PriceImpliesTerminal: a price edited by hand in the database is outside the model.
- MoneyMovement.OnlyRefusalsFail: error message texts are dropped.
- The ordered listing of repayment records: matching is proved independent of their order.
- Normalising, deduplicating and summarising ledger rows: one-pass projections that would add only easy members.
- Database migration, configuration, fee tables, error-code tables and message texts: no protocol or arithmetic to prove.
