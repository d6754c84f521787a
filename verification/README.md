# Verification model of crypto_ai_system

A Dafny model of the stateful and arithmetical core of `crypto_ai_system`: a trading system that opens and closes
real positions through an exchange, keeps paper and shadow positions beside them, backtests strategies, and suspends
the ones that decay. The statements of the model table and of the section before it are proved, for all inputs and all
runs. Check them with `dafny verify dfyconfig.toml`.

## What is modelled

| part | modules |
|---|---|
| Live close protocol with crashes: settle cycle, write-ahead of the close id, lost replies, ledger, loss breaker | `RetryPolicy`, `LiveClose`, `LiveCloseSafety`, `LiveCloseFinality`, `LiveCloseProgress`, `LiveCloseBooking`, `LiveCloseOrphans`, `LiveKernel`, `LiveLedger`, `LiveLedgerRuns` |
| One decision, at most one order, within the daily budget and the loss limit | `OrderBudget`, `OrderBudgetRuns` |
| Backtest: simulator, costs, metrics, regimes, walk-forward, drawdown | `Simulator`, `SimulatorExits`, `SimulatorCausality`, `SimulatorRefinement`, `CostModel`, `BacktestMetrics`, `PerformanceMetrics`, `Statistics`, `WalkForward`, `Drawdown`, `Grouping` |
| Fast forms against simple ones: backward paging and its cache, the torn-tail-tolerant log, as-of joins | `Paging`, `CandleCache`, `SampleLog`, `HigherTimeframe`, `TrendDirection`, `EventAlignment`, `TimeSeries` |
| Paper kernels, paper books under caps, the shadow book and its report | `PositionKernel`, `PaperBooks`, `ShadowBook`, `ShadowFidelity`, `GateReport` |
| Whole-run state machines: strategy lifecycle, testnet sessions | `Lifecycle`, `TestnetSessions` |

**How crashes are modelled.** A settle cycle (and an executor call) is the sequence of worlds it leaves behind, one
per file write and per venue call. A crash is a cut of that sequence at any length; the next cycle starts from the
world that was reached. The imperative classes (`LiveKernel.Kernel`, `OrderBudget.OrderExecutor`, `ShadowBook.Tracker`)
are proved to leave behind exactly those sequences, and the theorems quantify over all events: opens, settles cut
anywhere, and venue moves in between. Between any two queries the venue may change any order that is not final.

**Form.** Where the source updates records and files in place the model does too: classes with those fields, whose
methods are proved to compute a specification function, about which the lemmas speak. Loops are loops.

## Assumptions

- The venue: a POST has taken effect or never will by the time its reply or exception returns; a 4xx other than 429,
  code -2013 and the states CANCELED, REJECTED and EXPIRED are truthful and final. A FILLED order stays filled.
- Every freshly built close and entry has a distinct client order id (the source hashes creation time and content;
  the model draws ids from a clock).
- One runner at a time, and atomic replacement of JSON files (`core/run_lock.py`, `core/json_io.py`).
- Floats are reals and rounding is dropped. `round` in `_size`, the square roots of the stability score and of the
  deviations, the median of the timestamp differences, `evaluate_spec` and `json.loads`/`json.dumps` are parameters;
  what is asked of each stands in the contract that uses it (a sample's text has no outer blanks and its first brace
  closes with its last character; the root of a non-negative number squares back to it).
- The testnet venue fills market orders in full and clamps reduce-only orders to the position.

## What the proofs brought out

- **Lifecycle (code versus its documentation).** The agent says the caller persists the failure count it returns. The
  driver saves the pool only when some status changed, so the stored count can fall behind. `StoredIsExactIffSaved`
  gives the exact condition; `LoneFailureNeverArchived` a strategy that is never archived.
- **Cache.** `cached[-bars:]` with `bars == 0` is the whole list, and an empty cache file asked for no rows raises
  (`CandleCache.HitIsNewest`, `CandleCache.CacheFile.Load`).
- **R of a stop.** The kernels book -1R on a stop whichever side of the entry it is on
  (`PositionKernel.RecordedRIsPriceMove`). Shadow plans cannot be affected (`ShadowBook.PlansCarryRisk`).
- **Slippage.** Above 20000 bps the entry fill of a short can fall so far below zero that its stop does too, and
  slippage turns into a gain (`BacktestMetrics.SlippageCostsExactlyUpTo`) and the survival ratio has to be clamped
  (`BacktestMetrics.ClampNeverActsExactlyUpTo`).
- **Page limit.** Above the venue's cap per call a full page looks short, and `klines_history` stops early
  (`Paging.SuffixExactlyWithinCap`).
- **Testnet residuals.** A long residual beyond tolerance blocks every later OK session for good, a short one heals
  in one session (`TestnetSessions.ResidualLongNeverOk`, `TestnetSessions.ResidualShortHeals`).
- **Quantities.** PARTIALLY_FILLED counts as a fill and clears the position (`LiveCloseBooking.PartialFillClears`), and
  a cancel after a partial fill drops that part (`LiveCloseBooking.CancelledPartIsDropped`). `BookedIsOpened` and
  `BookedIsExecuted` say when the quantities agree.
- **Orphans.** A close booked while partially filled can still execute, with no position tracking it, against the next
  position (`LiveCloseOrphans.OrphanHitsTheNextPosition`). It is the only way an order gets loose (`OrphansArePartlyBooked`, `NoOrphanExactly`).
- **Crash between ledger append and clear.** It repeats the row (`LiveCloseBooking.CrashRepeatsTheRow`); one row per
  settlement holds exactly when there is none (`LiveLedgerRuns.ExactlyOneRowPerSettlement`). In the shadow book it settles a
  plan twice (`ShadowBook.CrashSettlesTwice`); plans are conserved exactly without it (`ShadowBook.PlansAreConserved`).
- **Crash between POST and counter write.** It leaves an order uncounted, and the daily cap can be exceeded
  (`OrderBudgetRuns.CrashBreaksTheCap`); the cap holds exactly without it (`CapHoldsExactlyWithoutLosses`).
- **Midnight.** A submit that straddles it is counted on the next day (`OrderBudgetRuns.MidnightEscapesTheCounter`); the
  counter covers the day exactly when no count comes a day late (`CounterCoversExactlyWithinTheDay`).
- **Opening.** The kernel overwrites an open position; its caller looks first, and must
  (`LiveCloseSafety.OpeningOverAnOpenPosition`).

## Model

| member | source | states |
|---|---|---|
| PositionKernel.LiveExitsWithPaper | src/crypto_ai_system/execution/live_position_kernel.py:177-229 | On every feed the live and the paper kernel leave the position on the same candle, for the same reason, with the same holding count |
| PositionKernel.StutterInvariance | src/crypto_ai_system/execution/paper_position_kernel.py:158-215 | Delivering each timestamped candle any positive number of times in a row gives the exit, price, R and holding count of delivering it once |
| PositionKernel.HoldingCountsDistinctCandles | src/crypto_ai_system/execution/paper_position_kernel.py:158-169 | A surviving position has counted exactly the distinct candles of the feed |
| PositionKernel.IntrabarIsPessimistic | src/crypto_ai_system/execution/paper_position_kernel.py:172-215 | For every plan, a level takes the position out exactly when the plan carries risk and the candle reaches it, the stop first; when both are reached that is the worse R of the two if and only if the target is worth at least -1R, as every target on the winning side is |
| PositionKernel.RecordedRIsPriceMove | src/crypto_ai_system/execution/paper_position_kernel.py:172-215 | Every recorded R is the price move over the risk if and only if the plan carries no risk or its stop is on the losing side of the entry; a stop on the winning side books -1R on a gain |
| PositionKernel.ManualAndTimeExits | src/crypto_ai_system/execution/paper_position_kernel.py:172-215 | A manual exit whenever one is asked for and there is a price; a time exit exactly when nothing else took the position out, there is a price and the advanced count has reached the limit; both at the last close, with the R of the move to it |
| PositionKernel.CallsCount | src/crypto_ai_system/execution/paper_position_kernel.py:158-169 | Each call counts its candle unless it carries the timestamp counted last; a manual exit counts nothing |
| PositionKernel.PaperKernel.Open | src/crypto_ai_system/execution/paper_position_kernel.py:80-155 | Opens a fresh position exactly when the entry filled with positive price and quantity, otherwise changes nothing |
| PositionKernel.PaperKernel.Settle | src/crypto_ai_system/execution/paper_position_kernel.py:218-262 | Advances the stored position by one candle; on exit records the outcome once and clears it; without an open position changes nothing |
| RetryPolicy.AmbiguousUnlessProven | src/crypto_ai_system/execution/retry_policy.py:25-63 | A failed submit is taken as "no order" exactly on the replies that prove it; every other failure is ambiguous |
| LiveCloseSafety.NoSecondCloseRaced | src/crypto_ai_system/execution/live_position_kernel.py:327-483 | In every reachable state, with a crash after any write or call: a close POSTed for the open position that the venue can still fill or has filled is the one whose id is persisted in the position |
| LiveCloseSafety.NoFabricatedNoLostOutcome | src/crypto_ai_system/execution/live_position_kernel.py:277-324 | In every reachable state each ledger row is priced from a venue-reported fill of a close of its own position, with P&L = signed (exit - entry) x quantity, and every position that is no longer open has a row |
| LiveCloseSafety.PostedBehindWriteAhead | src/crypto_ai_system/execution/live_position_kernel.py:432-439 | Every close POST of every cycle of every run carries the id the position file already holds, at a moment when all earlier closes of the position are dead |
| LiveCloseSafety.RunKeeps | src/crypto_ai_system/execution/live_position_kernel.py:387-483 | The protocol invariant holds after every run of opens, venue moves and settle cycles cut anywhere |
| LiveCloseSafety.CycleKeeps | src/crypto_ai_system/execution/live_position_kernel.py:387-483 | The invariant holds after every single effect of a settle cycle, not only at its end |
| LiveCloseFinality.RetiredForGood | src/crypto_ai_system/execution/live_position_kernel.py:357-374 | An id that is dead or unknown at the venue, or can execute no more, stays so in every continuation of the run |
| LiveCloseFinality.ForgottenCloseNeverFills | src/crypto_ai_system/execution/live_position_kernel.py:440-447 | A close the open position no longer remembers is dead, and never fills in any continuation |
| LiveCloseProgress.PendingIsKept | src/crypto_ai_system/execution/live_position_kernel.py:327-384 | However long the venue leaves a pending close undecided, through failed queries, crashes and venue moves, the position, its pending id, the ledger and the orders sent stay as they are |
| LiveCloseProgress.RecoveredAfterAnyWait | src/crypto_ai_system/execution/live_position_kernel.py:327-384 | After any such wait the first decisive answer settles that very order with no second close sent before it: a fill is booked and clears the position; a death drops the id from the position file, it can never fill, and from there on the cycle remembers closes under a fresh id only |
| LiveCloseProgress.LostCloseIsRecovered | src/crypto_ai_system/execution/live_position_kernel.py:418-483 | A cycle that crashes right after a POST that reached the book is recovered after any wait: the first cycle that learns of the fill books that very order and clears the position, and no second close was sent |
| LiveCloseProgress.SendsExactlyOnExit | src/crypto_ai_system/execution/live_position_kernel.py:418-483 | A cycle sends one close, under a fresh id, exactly when nothing is pending (or what was pending is dead), the candle calls for an exit and the guard approves a positive quantity; otherwise it sends none |
| LiveCloseProgress.PendingFillIsBooked | src/crypto_ai_system/execution/live_position_kernel.py:327-356 | A pending close that has filled is booked by the first cycle that can ask, with no further order |
| LiveCloseProgress.ExitIsActedOn | src/crypto_ai_system/execution/live_position_kernel.py:432-483 | An exit signal whose close is approved, accepted and filled is booked in the same cycle |
| LiveCloseProgress.NoSignalNoOrder | src/crypto_ai_system/execution/live_position_kernel.py:425-430 | Without a pending close and a signal a cycle orders nothing and only counts the candle |
| LiveCloseProgress.WaitingIsReported | src/crypto_ai_system/execution/live_position_kernel.py:375-384 | A close that is still open is reported as pending when the venue answered, unconfirmed when it did not |
| LiveCloseProgress.RefusedCloseFails | src/crypto_ai_system/execution/live_position_kernel.py:432-455 | A close the guard refuses fails: nothing is sent, and the written-ahead id is dropped again |
| LiveKernel.Kernel.Settle | src/crypto_ai_system/execution/live_position_kernel.py:387-483 | One call leaves behind, write by write and call by call, exactly the worlds of the protocol the safety theorems speak of |
| LiveKernel.Kernel.ResolvePendingClose | src/crypto_ai_system/execution/live_position_kernel.py:327-384 | A pending close is settled by querying its own id: booked if it filled, dropped if provably dead, kept otherwise |
| LiveKernel.Kernel.CloseForReal | src/crypto_ai_system/execution/live_position_kernel.py:432-483 | The fresh id is saved before the POST; the position is booked from the fill read back, keeps the id, or drops it when nothing reached the venue |
| LiveKernel.Kernel.SubmitLiveClose | src/crypto_ai_system/execution/live_strategy_execution.py:126-177 | An ambiguous reply is resolved by querying the id; only a proven absence counts as not performed |
| LiveKernel.Kernel.SettleFill | src/crypto_ai_system/execution/live_position_kernel.py:277-324 | The ledger row is appended before the position is cleared |
| LiveKernel.Kernel.Open | src/crypto_ai_system/execution/live_position_kernel.py:102-174 | Opens exactly on a performed, reconciled, filled entry with positive price and quantity: a fresh position at the fill's price and quantity (the intended ones only where the fill reports none), with the entry's direction and levels and the risk to a positive stop, over whatever the file held |
| LiveClose.OpenTracksTheFill | src/crypto_ai_system/execution/live_position_kernel.py:126-158 | The same of the protocol's open, which changes nothing else |
| LiveKernel.Kernel.OpenIfFilled | src/crypto_ai_system/pipeline/trading_steps/positions.py:69-83 | The caller opens only when nothing is open, and then exactly that position |
| LiveCloseSafety.OpeningOverAnOpenPosition | src/crypto_ai_system/execution/live_position_kernel.py:102-174 | Why it must: opening over an open position keeps the protocol invariant if and only if the overwritten position already has its ledger row |
| LiveLedger.LiveDailyRealizedPnl | src/crypto_ai_system/execution/live_pnl_ledger.py:88-101 | The loop returns the sum of the P&L of the rows closed that day |
| LiveLedger.SumOfOne | src/crypto_ai_system/execution/live_pnl_ledger.py:88-101 | Only rows of the day count: one row makes its P&L on its own day and nothing on any other |
| LiveLedger.DailyLossLimitBreached | src/crypto_ai_system/execution/live_pnl_ledger.py:104-118 | Breached exactly when the limit is unset, not positive, or reached by the day's loss |
| LiveLedger.StepBooks | src/crypto_ai_system/execution/live_position_kernel.py:308-324 | A step appends one row when it clears the position or is cut between append and clear, and none otherwise |
| LiveLedger.DailySumIsSettledPlusStranded | src/crypto_ai_system/execution/live_pnl_ledger.py:88-101 | On every day of every run the sum the loss breaker reads is the P&L of the settled fills plus that of the rows repeated by a crash between append and clear |
| LiveLedgerRuns.ExactlyOneRowPerSettlement | src/crypto_ai_system/execution/live_position_kernel.py:432-483 | After any run every settled position has exactly one row and an open one none, if and only if no crash fell between a ledger append and its clear |
| LiveLedgerRuns.RunConservesRows | src/crypto_ai_system/execution/live_position_kernel.py:277-324 | Conservation, position by position: over any run from any invariant state it gains one row for its settlement and one for each row stranded of it |
| LiveLedgerRuns.DailySumIsSettled | src/crypto_ai_system/execution/live_pnl_ledger.py:88-101 | Without such a crash the loss breaker reads, on every day, exactly the P&L of the settled fills |
| LiveCloseBooking.StrandedRowIsRepeated | src/crypto_ai_system/execution/live_position_kernel.py:308-324 | After such a crash the next cycle that can ask books the same fill a second time |
| LiveCloseBooking.CrashRepeatsTheRow | src/crypto_ai_system/execution/live_position_kernel.py:308-324 | A concrete run: one position, one fill, two rows |
| LiveCloseBooking.BookedIsOpened | src/crypto_ai_system/execution/live_position_kernel.py:277-307 | In every reachable state a row books the opened quantity if and only if its fill was complete or reported no quantity |
| LiveCloseBooking.BookedIsExecuted | src/crypto_ai_system/execution/live_position_kernel.py:357-374 | When any run settles a position all its other closes are dead, and the booked quantity is what the venue executed over all its closes if and only if none of the dead ones had executed anything |
| LiveCloseBooking.PartialFillClears | src/crypto_ai_system/execution/live_position_kernel.py:277-324 | A concrete run: a close of 2.0 reported PARTIALLY_FILLED with 1.0 clears the position and books 1.0 |
| LiveCloseBooking.CancelledPartIsDropped | src/crypto_ai_system/execution/live_position_kernel.py:357-374 | A concrete run: a close cancelled after 1.0 and a second one for the other 1.0 leave one row of 1.0, with 2.0 executed |
| LiveCloseOrphans.OrphansArePartlyBooked | src/crypto_ai_system/execution/live_position_kernel.py:277-324 | In every reachable state an order that can still execute, of any position, is the close persisted in the open position, or a row of a closed position was booked from it while it was partially filled |
| LiveCloseOrphans.NoOrphanExactly | src/crypto_ai_system/execution/live_position_kernel.py:277-324 | In every reachable state no order that can execute is untracked if and only if every partial fill booked for a closed position has run to its end |
| LiveCloseOrphans.NoOrphanWhenFilled | src/crypto_ai_system/execution/live_position_kernel.py:277-324 | If every booked fill was FILLED, every order that can still execute is the close persisted in the open position |
| LiveCloseOrphans.ClearingLeavesNoneExactly | src/crypto_ai_system/execution/live_position_kernel.py:277-324 | When any run settles a position and no other one has an order that can execute, none is left at all if and only if the booked fill was FILLED |
| LiveCloseOrphans.OrphanHitsTheNextPosition | src/crypto_ai_system/execution/live_position_kernel.py:277-324 | A concrete run: the half-filled close of a settled position executes its other half while the next position is open with nothing pending |
| OrderBudget.OneDecisionOneOrder | src/crypto_ai_system/execution/order_executor.py:263-290 | Over every run with crashes and re-runs no persisted decision is submitted twice |
| OrderBudget.EntriesWithinCapPlusLost | src/crypto_ai_system/execution/live_order_final_guard.py:49-65 | A day's entries that may exist at the venue exceed the configured cap by at most those a crash left uncounted, and the day's counter never exceeds the cap |
| OrderBudgetRuns.LostAreTheLosses | src/crypto_ai_system/execution/live_strategy_execution.py:91-101 | Conservation: the orders of a run that may exist uncounted are exactly those its crashes between POST and counter write left behind |
| OrderBudgetRuns.NoneLostIffNoLosses | src/crypto_ai_system/execution/live_strategy_execution.py:91-101 | No order that may exist is uncounted if and only if none was before and no step lost one |
| OrderBudgetRuns.EntriesWithinCap | src/crypto_ai_system/execution/live_strategy_execution.py:91-101 | Without such a crash, unresolved submits included, a day's entries stay within the cap |
| OrderBudgetRuns.CrashBreaksTheCap | src/crypto_ai_system/execution/live_strategy_execution.py:91-101 | A concrete run: with a cap of one a day, one such crash lets a second entry out |
| OrderBudgetRuns.CapHoldsExactlyWithoutLosses | src/crypto_ai_system/execution/live_order_final_guard.py:49-65 | The cap holds for every configuration, run and day with at most that many losses if and only if the number is zero |
| OrderBudgetRuns.EntriesCounterCap | src/crypto_ai_system/execution/live_order_final_guard.py:49-65 | Over every run and on every day: entries that may exist <= the day's counter + the run's lost or midnight-straddling submits, and counter <= cap |
| OrderBudgetRuns.CounterCoversExactlyWithinTheDay | src/crypto_ai_system/execution/live_order_final_guard.py:49-65 | The day's counter covers the day's entries for every configuration, loss-free run and day if and only if no counter write comes on a later day than its POST |
| OrderBudgetRuns.MidnightEscapesTheCounter | src/crypto_ai_system/execution/live_order_final_guard.py:56-65 | A concrete run: a submit that straddles midnight is counted on the next day, so the first day's counter misses it |
| OrderBudgetRuns.NoEntryBeyondTheLossLimit | src/crypto_ai_system/execution/live_order_final_guard.py:171-178 | Over every run no entry ever left whose guard, when it ran, found the P&L booked that day at the loss limit |
| OrderBudgetRuns.EntriesStopAtTheSettledLoss | src/crypto_ai_system/execution/live_pnl_ledger.py:88-118 | Guard and close protocol together: while no row was repeated by a crash, an entry leaves only if the fills settled that day add up to more than minus the limit |
| OrderBudget.WritesAre | src/crypto_ai_system/execution/live_order_final_guard.py:155-250 | The writes of one call in the fields of the decision and of what is read: consumed exactly if the decision asks for an order; POSTed exactly if the flag, kill-switch and risk-gate checks, the loss limit, the size, ceiling, exposure and daily caps all let it through; counted exactly if the venue may have the order |
| OrderBudget.OrderIsTheDecisions | src/crypto_ai_system/execution/order_executor.py:263-290 | The order that leaves is the decision's: its side, entry, notional, and its quantity or else notional over entry |
| OrderBudgetRuns.EveryEntryPassedItsGuard | src/crypto_ai_system/execution/live_order_final_guard.py:155-250 | Over every run every order that ever left had passed every check and every limit on what its guard read |
| OrderBudget.PostedWithinNotionalCaps | src/crypto_ai_system/execution/live_order_final_guard.py:199-224 | Whatever leaves has passed the other checks, is gate-approved and within the size cap, the absolute ceiling and the open-exposure cap |
| OrderBudget.ApprovedDecisionIsSubmittedOnce | src/crypto_ai_system/execution/order_executor.py:263-290 | An approved decision whose POST is accepted leaves one order, counted today; executing it again does nothing |
| OrderBudget.OrderExecutor.RunOrderExecutor | src/crypto_ai_system/execution/order_executor.py:263-290 | The executor's writes, in order: decision consumed, POST, counter |
| OrderBudget.OrderExecutor.RecordSubmission | src/crypto_ai_system/execution/live_order_final_guard.py:56-65 | Raises today's counter by one and leaves every other day's alone |
| OrderBudget.OrderExecutor.PostEntry | src/crypto_ai_system/execution/live_strategy_execution.py:35-101 | One POST, taken as performed unless its reply or the resolving query proves there is no order |
| Simulator.SimulateStrategy | src/crypto_ai_system/backtesting/execution_simulator.py:61-155 | The one-pass loop returns the recursive ledger and the number of entries |
| Simulator.ManageBar | src/crypto_ai_system/backtesting/execution_simulator.py:119-138 | An open position closes on a bar exactly as the exit conditions say, stop before target before time |
| Simulator.LedgerIsTimed | src/crypto_ai_system/backtesting/execution_simulator.py:81-155 | Each trade enters on the first signal after the last exit and leaves on the first bar where stop, target or time holds; only the last can be forced; the next entry bar is at least two after the exit bar |
| SimulatorExits.EveryExitIsExplained | src/crypto_ai_system/backtesting/execution_simulator.py:119-155 | Every trade read off the bars: STOP exactly when its last bar reaches the stop (long: low, short: high), else TARGET exactly when it reaches the target, else MAX_HOLDING at the numeric close of the last bar it may be held; at the stop, the target or the close; no earlier bar does any of these; forced at the end of the frame only if none ever did |
| SimulatorExits.EveryEntryIsExplained | src/crypto_ai_system/backtesting/execution_simulator.py:89-118 | Every position is opened by the first bar that can open one: at the next open plus slippage, levels at their multiples of that bar's ATR from the fill, quantity x stop distance = equity x risk fraction |
| SimulatorExits.EveryTradeBooksMoney | src/crypto_ai_system/backtesting/cost_model.py:65-103 | Every trade is settled on the prices it traded at: gross on the mids, the slippage rate and the fee rate on both legs, net the rest, and the R figures the money over the risk amount |
| Simulator.HeldAtMostMax | src/crypto_ai_system/backtesting/execution_simulator.py:81-155 | With numeric closes no position is held beyond max(1, maximum holding) |
| Simulator.EveryEntryIsTraded | src/crypto_ai_system/backtesting/execution_simulator.py:81-155 | With numeric closes every entry is closed exactly once, in order |
| SimulatorCausality.NoLookAhead | src/crypto_ai_system/backtesting/execution_simulator.py:61-155 | Frames that agree on their first k bars give the same entries before k, sizes and levels included, and the same non-forced exits before k |
| SimulatorRefinement.SimulatorIsTheDeclarativeReading | src/crypto_ai_system/backtesting/execution_simulator.py:81-146 | A ledger is the simulator's if and only if each trade enters on the first signal once flat, leaves on the first bar that says so (stop first), and no position is missed; the one position it drops is a last one with no numeric close |
| CostModel.SlippageIsRateOnBothLegs | src/crypto_ai_system/backtesting/cost_model.py:65-103 | Slippage cost is the slippage rate on the traded notional of both legs, for either side |
| CostModel.NetPlusCostsIsGross | src/crypto_ai_system/backtesting/cost_model.py:65-103 | Net plus fees plus slippage is gross, in money and in R |
| CostModel.CostsNonNegative | src/crypto_ai_system/backtesting/cost_model.py:65-103 | Fees are never negative, and slippage is not while the two mids add up to nothing negative |
| CostModel.StopLosesTheRiskAmount | src/crypto_ai_system/backtesting/cost_model.py:35-52 | Being stopped out from the entry fill loses exactly equity x risk fraction, whatever the ATR, before fees and exit slippage |
| CostModel.LevelsBracketEntry | src/crypto_ai_system/backtesting/cost_model.py:35-46 | The stop lies on the losing and the target on the winning side, by their multiples of the ATR |
| BacktestMetrics.NetPlusCostsIsGrossInTotal | src/crypto_ai_system/backtesting/performance_metrics.py:84-117 | Net R + fee R + slippage R = gross R summed over a whole ledger |
| BacktestMetrics.SlippageCostsExactlyUpTo | src/crypto_ai_system/backtesting/cost_model.py:25-47 | Slippage is a cost on every trade of every ledger over positive prices if and only if the rate is at most 20000 bps |
| BacktestMetrics.CostRobustnessOfLedger | src/crypto_ai_system/backtesting/robustness_scorer.py:121-133 | Over every simulated ledger on positive prices net + costs = gross at any rate, and without a net edge the ratio is 0; at slippage up to 20000 bps no cost is negative and with a net edge the ratio is net over gross, in (0, 1] |
| BacktestMetrics.ClampNeverActsExactlyUpTo | src/crypto_ai_system/backtesting/robustness_scorer.py:121-133 | The clamp of the ratio acts on no ledger over positive prices if and only if slippage is at most 20000 bps |
| PerformanceMetrics.RegimeBreakdown | src/crypto_ai_system/backtesting/regime_evaluator.py:16-33 | One entry per regime that occurs, with every metric of exactly its trades; the profitable regimes are those with a positive mean |
| PerformanceMetrics.ConsistencyIsBreakdown | src/crypto_ai_system/backtesting/performance_metrics.py:46-58 | When every trade records its regime the consistency metric of the ledger is the share of profitable regimes in the breakdown |
| PerformanceMetrics.ComputeBacktestMetrics | src/crypto_ai_system/backtesting/performance_metrics.py:61-117 | All metrics of a ledger, the drawdown as the maximum over all earlier and later points |
| PerformanceMetrics.FiguresAddUp | src/crypto_ai_system/backtesting/performance_metrics.py:84-117 | Net R is gross profit minus gross loss, and the sum of the long and the short results; the win rate lies in [0, 1] |
| PerformanceMetrics.AveragesAre | src/crypto_ai_system/backtesting/performance_metrics.py:84-117 | Every average is a total over its count: of all results, of the wins, of the losses, of the long and of the short ones |
| PerformanceMetrics.RatesAre | src/crypto_ai_system/backtesting/performance_metrics.py:84-117 | The win rate is the share of the wins, and the profit factor what the profit is to the loss |
| PerformanceMetrics.RatiosAre | src/crypto_ai_system/backtesting/performance_metrics.py:84-117 | Sharpe and Sortino are the mean over the root mean square of all deviations, and of the losing results |
| PerformanceMetrics.CostsAddUp | src/crypto_ai_system/backtesting/performance_metrics.py:113-115 | Net + fee + slippage figures of a settled ledger make up its gross R |
| PerformanceMetrics.UndefinedExactly | src/crypto_ai_system/backtesting/performance_metrics.py:1-11 | Win rate, expectancy, profit factor, Sharpe and Sortino are None exactly on the samples that do not define them |
| PerformanceMetrics.ProfitFactorJudgesTheEdge | src/crypto_ai_system/backtesting/performance_metrics.py:84-117 | Where it is defined the profit factor exceeds 1 if and only if the expectancy is positive |
| PerformanceMetrics.DrawdownWithinLosses | src/crypto_ai_system/backtesting/performance_metrics.py:34-43 | The maximum drawdown is at least every single loss and at most all losses together |
| PerformanceMetrics.RegimesAddUp | src/crypto_ai_system/backtesting/regime_evaluator.py:16-33 | Per-regime totals and counts add back to those of the ledger |
| Grouping.GroupBy | src/crypto_ai_system/feedback/gate_calibration_report.py:112-122 | The dict-of-lists loop gives every key that occurs exactly its rows, in order |
| Grouping.GroupTotalsAddUp | src/crypto_ai_system/backtesting/regime_evaluator.py:16-33 | Group totals add up to the total, in whatever order the groups are listed |
| WalkForward.SplitWindows | src/crypto_ai_system/backtesting/walk_forward.py:30-42 | The loop yields min(k, n) non-empty contiguous windows tiling [0, n), with sizes at most one apart, and none for n or k not positive |
| WalkForward.EveryBarOnce | src/crypto_ai_system/backtesting/walk_forward.py:30-42 | Tiling windows hold every bar exactly once |
| WalkForward.ScoreIs | src/crypto_ai_system/backtesting/walk_forward.py:78-93 | A window of at least two bars is scored by the simulation of its own bars, a shorter one has no trades |
| WalkForward.CountedIs | src/crypto_ai_system/backtesting/walk_forward.py:94-98 | A window counts if it made enough trades, and passes if its expectancy is positive |
| WalkForward.StabilityRange | src/crypto_ai_system/backtesting/walk_forward.py:45-58 | Temporal stability lies in [0, 1]: 0 exactly when the mean edge is not positive, 1 exactly when it is and all windows agree |
| WalkForward.RunWalkForward | src/crypto_ai_system/backtesting/walk_forward.py:61-105 | Each window is scored from its own bars alone; pass rate and stability are those of the windows that traded, and lie in [0, 1] |
| Drawdown.MaxDrawdownR | src/crypto_ai_system/backtesting/performance_metrics.py:34-43 | The one-pass result is the maximum over all i <= j of equity at i minus equity at j |
| Drawdown.DrawdownsR | risk/risk_guard.py:69-84 | The guard's maximum is the negation of that maximum; its current drawdown is how far equity lies below its highest point, between that maximum and 0, and is 0 exactly at the all-time peak |
| Drawdown.BothDrawdowns | risk/risk_guard.py:69-84 | The backtest's and the guard's drawdown are exact negations of one another on every series |
| Drawdown.ConsecutiveLosses | risk/risk_guard.py:58-66 | The count is the length of the losing run the history ends with |
| Drawdown.RunRiskGuard | risk/risk_guard.py:124-143 | Each breaker blocks exactly on its condition; the drawdown one exactly while equity lies the limit below an earlier point, so it unlatches on recovery |
| Drawdown.LimitIs | risk/risk_guard.py:86-92 | The drawdown limit is the equity fraction in units of the risk per trade, of one percent where none is set |
| Paging.KlinesHistory | src/crypto_ai_system/data/binance_futures_collector.py:291-337 | Ends against any replies with an ordered frame; against a venue that gives full pages of a fixed history up to the page limit it is exactly the newest rows, and de-duplication is a no-op |
| Paging.FundingRateHistory | src/crypto_ai_system/data/binance_futures_collector.py:143-184 | The same of a venue whose pages may come back short mid-history |
| Paging.FrameIsOrdered | src/crypto_ai_system/data/binance_futures_collector.py:179-184 | Whatever was collected, the frame is oldest-first with one row per collected time and no other |
| Paging.HonestTurn | src/crypto_ai_system/data/binance_futures_collector.py:309-331 | Against such a venue each turn goes strictly further back by the next slice, and ends only when nothing is left |
| Paging.SuffixExactlyWithinCap | src/crypto_ai_system/data/binance_futures_collector.py:291-337 | Of a venue with a cap per call klines_history gives the newest rows of every history, for any number asked for, if and only if its page limit is within that cap |
| CandleCache.CacheFile.Load | src/crypto_ai_system/data/candle_history.py:65-95 | A hit, exactly when the file is deep and fresh enough, is the newest rows of the series last fetched; a miss is the newest rows of the venue's history and overwrites the file unless empty; asking an empty file for no rows raises |
| CandleCache.HitIsNewest | src/crypto_ai_system/data/candle_history.py:83-86 | The slice a hit returns is the newest rows if and only if a positive number is asked for (or there is nothing to slice wrongly) |
| CandleCache.NewestOfNewest | src/crypto_ai_system/data/candle_history.py:83-95 | A suffix of the cached suffix is the suffix of the whole history |
| CandleCache.CacheFile.Fetch | src/crypto_ai_system/data/candle_history.py:88-95 | The file is overwritten with what was fetched, unless that is empty |
| SampleLog.LoadReturnsWhatReachedIt | src/crypto_ai_system/data/extended_basis_probe.py:186-216 | After any run of appends, each cut at any character, loading gives the newest MAX_SAMPLE_LINES of the samples whose full text reached the file, in order |
| SampleLog.LogHoldsWhatReachedIt | src/crypto_ai_system/data/extended_basis_probe.py:186-216 | The same on top of any existing file: what it held is kept, torn or not |
| SampleLog.AppendKeepsAndGains | src/crypto_ai_system/data/extended_basis_probe.py:186-198 | One cut append keeps every sample the file held and gains exactly those written in full |
| SampleLog.UncutAppendIsWhole | src/crypto_ai_system/data/extended_basis_probe.py:186-198 | An append that is not cut loses nothing |
| SampleLog.RowOfCut | src/crypto_ai_system/data/extended_basis_probe.py:201-216 | A sample's line cut anywhere reads as that sample if whole and as nothing otherwise |
| SampleLog.ScanIs | src/crypto_ai_system/data/extended_basis_probe.py:200-216 | The object scanner: braces and brackets nest outside strings, and only an unescaped quote ends a string |
| SampleLog.LoadSamples | src/crypto_ai_system/data/extended_basis_probe.py:201-216 | The line loop returns the newest MAX_SAMPLE_LINES samples of the file |
| SampleLog.Log.AppendSamples | src/crypto_ai_system/data/extended_basis_probe.py:186-198 | The writes put the leading newline and the lines into the file, up to wherever the crash comes |
| HigherTimeframe.NoLookAhead | src/crypto_ai_system/features/higher_timeframe.py:77-133 | For fixed timestamps no change to closes of rows stamped at or after row i changes a trend, a gap or the alignment at row i |
| HigherTimeframe.JoinReadsTheLatestClosedBar | src/crypto_ai_system/features/higher_timeframe.py:55-74 | A row at t is joined to the newest of exactly the bars closed by t, or to nothing when none is; the bars are one per period with a numeric close, holding the last of them |
| HigherTimeframe.JoinReadsThePast | src/crypto_ai_system/features/higher_timeframe.py:123-127 | The join at t is a function of the candles stamped before t |
| HigherTimeframe.SeriesKeepsTheLast | src/crypto_ai_system/features/higher_timeframe.py:100-101 | Of candles with one timestamp the sorted series keeps exactly the last |
| HigherTimeframe.BarsResample | src/crypto_ai_system/features/higher_timeframe.py:55-61 | The bars are in order, one for every period with a numeric close, each holding the last such close |
| HigherTimeframe.AddHigherTimeframeFeatures | src/crypto_ai_system/features/higher_timeframe.py:77-133 | The column loops give every row the cells and the alignment of its timestamp, blank in the cases the source leaves blank |
| HigherTimeframe.FeaturesAre | src/crypto_ai_system/features/higher_timeframe.py:74-131 | Cells are blank for an unparsable timestamp, a base interval that is not positive, or a timeframe not coarser than it; else the join at the row's own time |
| TrendDirection.TrendFollowsCloses | src/crypto_ai_system/features/higher_timeframe.py:63-69 | On positive closes that never fall the trend is never DOWN, on closes that never rise never UP; it is known exactly once there are as many bars as the slow span |
| TrendDirection.PublishIs | src/crypto_ai_system/features/higher_timeframe.py:53-71 | What a bar publishes: the gap of the fast to the slow mean over the slow one, once both have their bars; up or down beyond the flat band; at the bar's close |
| TrendDirection.MeanIsWeighted | src/crypto_ai_system/features/higher_timeframe.py:62-64 | The EMA recurrence is the weighted mean of all closes, the first weighing (1 - alpha)^(n - 1) |
| TrendDirection.AlignmentIs | src/crypto_ai_system/features/higher_timeframe.py:129-133 | The alignment score is known exactly when every timeframe has a trend: timeframes up less timeframes down, over their number |
| TrendDirection.SlowLagsFast | src/crypto_ai_system/features/indicators.py:11-12 | Over closes that never turn, the slow mean lags the fast one, which lags the last close |
| EventAlignment.AsofAlignEvents | src/crypto_ai_system/features/feature_store.py:25-45 | The array filled by sort, sweep and scatter holds for every bar the last event at or before it, and NaN for a bar without a timestamp |
| EventAlignment.LatestIsTheLastAtOrBefore | src/crypto_ai_system/features/feature_store.py:25-45 | That event is at or before the bar with none later that is; there is none exactly when all events are later |
| EventAlignment.LaterEventsDoNotLeak | src/crypto_ai_system/features/feature_store.py:28-30 | No event after a bar affects it |
| EventAlignment.MergeAsof | src/crypto_ai_system/features/feature_store.py:41-44 | One forward sweep over sorted bars and events gives each bar its last event |
| PaperBooks.CapsHold | src/crypto_ai_system/execution/paper_book_kernel.py:157-211 | Over every interleaving of opens and settles, open books stay within the total cap, the per-direction cap and the per-(signal, direction) cap |
| PaperBooks.BookSettlesAlone | src/crypto_ai_system/execution/paper_book_kernel.py:214-280 | Whatever other books do in between, an open book leaves with the exit, and on the candle, it would have alone, or is still open with the same holding state |
| PaperBooks.OpenTouchesOnlyItsBook | src/crypto_ai_system/execution/paper_book_kernel.py:157-211 | A refusal changes nothing; an accepted open replaces only its own book, which was not open |
| PaperBooks.OpeningIs | src/crypto_ai_system/execution/paper_book_kernel.py:157-211 | The refusal reasons in their order, each with its condition, and the position stored when none applies |
| PaperBooks.SettlingIs | src/crypto_ai_system/execution/paper_book_kernel.py:244-280 | One settled book: closed, with a summary of the position as it left, or open with its candle counted and the last close seen |
| PaperBooks.PaperBookKernel.OpenInBook | src/crypto_ai_system/execution/paper_book_kernel.py:157-211 | The first refusal reason that applies, in the source's order, or the position, stored in its own book; the caps are kept |
| PaperBooks.PaperBookKernel.SettleBooks | src/crypto_ai_system/execution/paper_book_kernel.py:214-280 | Every open book is settled against the candle, in book order; closed ones are summarised; the caps are kept |
| ShadowBook.PlansAreConserved | src/crypto_ai_system/feedback/counterfactual_tracker.py:348-387 | Over every run, crashes after any write included: recorded plans = open + settled as multisets if and only if no crash fell between the append of an outcome and the save of the book |
| ShadowBook.PlansAndStrays | src/crypto_ai_system/feedback/counterfactual_tracker.py:228-387 | Conservation with crashes: open + settled plans = recorded plans + one for every outcome appended before such a crash; open ids are distinct and at most 50, and every outcome is classified by the sign of its R |
| ShadowBook.CrashSettlesTwice | src/crypto_ai_system/feedback/counterfactual_tracker.py:363-387 | A concrete run: one blocked signal, one crash between append and save, two outcomes |
| ShadowBook.CutIsAWrite | src/crypto_ai_system/feedback/counterfactual_tracker.py:363-387 | A settle call cut anywhere leaves the book of the last write it got to |
| ShadowFidelity.ShadowExitsLikePaper | src/crypto_ai_system/feedback/counterfactual_tracker.py:348-387 | Over any continuation of the run, crashes included, the first outcome of a shadow position is when, where and why the paper kernel would have left a position on its plan over the candles that reached it; or it has none and is open with the paper kernel's holding state |
| ShadowFidelity.EveryCandleIsSeen | src/crypto_ai_system/feedback/counterfactual_tracker.py:348-387 | Without crashes every candle of the run reaches every shadow position |
| ShadowBook.SettlingConserves | src/crypto_ai_system/feedback/counterfactual_tracker.py:348-387 | Settling moves plans from the book to the registry, losing and inventing none |
| ShadowBook.PlansCarryRisk | src/crypto_ai_system/feedback/counterfactual_tracker.py:141-185 | A plan that passes the coherence check has positive risk and its stop on the losing side |
| ShadowBook.PlanIs | src/crypto_ai_system/feedback/counterfactual_tracker.py:141-185 | A plan on the signal's own levels, exactly when it names a direction and three prices and its levels lie on their sides of the entry |
| ShadowBook.KindIs | src/crypto_ai_system/feedback/counterfactual_tracker.py:258-266 | Missed, avoided or neutral by the sign of the R |
| ShadowBook.Tracker.RecordBlockedSignal | src/crypto_ai_system/feedback/counterfactual_tracker.py:228-256 | Records exactly a plan that exists, is not open already, and finds room |
| ShadowBook.Tracker.SettleCounterfactuals | src/crypto_ai_system/feedback/counterfactual_tracker.py:348-387 | Splits the book into those that stay open and outcomes appended to the registry, in this order of writes: each outcome, then the book |
| GateReport.KindsAddUp | src/crypto_ai_system/feedback/gate_calibration_report.py:72-109 | Missed + avoided + neutral = count if and only if every row is classified |
| GateReport.TrackerRowsAddUp | src/crypto_ai_system/feedback/gate_calibration_report.py:72-109 | Of the tracker's own outcomes every one is counted, as missed, avoided or neutral |
| GateReport.SummaryBounds | src/crypto_ai_system/feedback/gate_calibration_report.py:72-109 | Worst <= expectancy <= best, and the missed rate lies in [0, 1] |
| GateReport.VerdictIs | src/crypto_ai_system/feedback/gate_calibration_report.py:62-69 | Costly above 0.1R, protective below -0.1R, neutral between, and none of these before the sample is large enough |
| GateReport.RatesAre | src/crypto_ai_system/feedback/gate_calibration_report.py:72-109 | The expectancy is the total over the count, the missed rate the share of the missed |
| GateReport.KeysAre | src/crypto_ai_system/feedback/gate_calibration_report.py:112-122 | Rows group by their own text, or as unknown where they have none |
| GateReport.BeforeIs | src/crypto_ai_system/feedback/gate_calibration_report.py:112-122 | Names are ordered at their first difference |
| GateReport.GroupsAddUp | src/crypto_ai_system/feedback/gate_calibration_report.py:112-122 | Per-group counts and total R add up to the overall figures |
| GateReport.BuildReport | src/crypto_ai_system/feedback/gate_calibration_report.py:112-163 | Overall and per reason, stage, regime and direction (a missing one counts as unknown) the summary of exactly the closed rows with that value, and the costly reasons, each once, ranked by total R, then name |
| GateReport.RankCostly | src/crypto_ai_system/feedback/gate_calibration_report.py:133-143 | The ranking lists exactly the costly groups, most R turned away first, ties by name |
| GateReport.RankingIsUnique | src/crypto_ai_system/feedback/gate_calibration_report.py:133-143 | There is only one such list, whatever order the groups are visited in |
| Lifecycle.StoredNeverOverCounts | src/crypto_ai_system/feedback/strategy_feedback_step.py:98-131 | Over every run the stored failure count never exceeds the true run of consecutive failing evaluations, and both are zero exactly for PAPER_ACTIVE entries |
| Lifecycle.StoredIsExactIffSaved | src/crypto_ai_system/feedback/strategy_feedback_step.py:130-131 | The stored count is the true streak if and only if every failing evaluation of the streak came at a run that saved the pool |
| Lifecycle.LoneFailureNeverArchived | src/crypto_ai_system/feedback/strategy_feedback_step.py:130-131 | A concrete family: alone in the pool, a strategy failing its probation window is never archived, however long it fails |
| Lifecycle.DegradationTakesAStreak | src/crypto_ai_system/feedback/strategy_lifecycle_agent.py:119-139 | SUSPENDED is reached only after at least 2 and ARCHIVED after at least 3 consecutive failing evaluations |
| Lifecycle.FeedbackDecides | src/crypto_ai_system/feedback/strategy_feedback_step.py:98-131 | What a run of the driver leaves, in the figures of the report: ARCHIVED at the third failure in a row with 100 trades and a negative lifetime expectancy, else SUSPENDED at the second with a failing suspension window, else PROBATION, WARNING or PAPER_ACTIVE; nothing is saved if no status changes |
| Lifecycle.CompanyGetsItArchived | src/crypto_ai_system/feedback/strategy_feedback_step.py:98-131 | A concrete run that archives: a neighbour's change of status saves the count |
| Lifecycle.TwoFailuresSuspend | src/crypto_ai_system/feedback/strategy_feedback_step.py:98-131 | A concrete run that suspends, alone in the pool |
| Lifecycle.TerminalIsAbsorbing | src/crypto_ai_system/feedback/strategy_lifecycle_agent.py:122-124 | Suspended and archived entries never change again |
| Lifecycle.LifecycleDriver.RunFeedback | src/crypto_ai_system/feedback/strategy_feedback_step.py:83-137 | The loop updates every occupying entry, and the pool file changes exactly when some status does; it returns how many were evaluated and how many changed |
| TestnetSessions.OpenReconcilesIffFlat | src/crypto_ai_system/execution/signed_testnet_reconciliation.py:110-141 | With a reachable venue an opening buy reconciles if and only if the prior position was within tolerance of flat |
| TestnetSessions.SessionIsOkIff | src/crypto_ai_system/execution/testnet_session_harness.py:100-151 | A session is OK if and only if its price was positive, the account flat within tolerance, the guard let both legs through, and both could be reconciled |
| TestnetSessions.SizeIsTradable | src/crypto_ai_system/execution/testnet_session_harness.py:33-36 | At a positive price a session trades at least the minimum quantity |
| TestnetSessions.SizeIs | src/crypto_ai_system/execution/testnet_session_harness.py:33-36 | The rounded notional over price, but at least 0.001, and nothing without a price |
| TestnetSessions.ReconcilesExactly | src/crypto_ai_system/execution/signed_testnet_reconciliation.py:68-141 | Which replies reconcile, in their fields, for either side, opening or reducing |
| TestnetSessions.OkSessionKeepsFlat | src/crypto_ai_system/execution/testnet_session_harness.py:100-151 | A session is OK only from flat within tolerance, and leaves the account at least as flat |
| TestnetSessions.OkRunKeepsFlat | src/crypto_ai_system/execution/testnet_session_harness.py:189-218 | Any number of OK sessions keeps the account as flat as it started |
| TestnetSessions.ResidualLongNeverOk | src/crypto_ai_system/execution/testnet_session_harness.py:189-218 | From a residual long beyond tolerance no later session is ever OK, and the residual stays |
| TestnetSessions.ResidualShortHeals | src/crypto_ai_system/execution/testnet_session_harness.py:100-151 | A residual short smaller than the order is gone after one approved session; that session is OK only within tolerance |
| TestnetSessions.RecordsArePlausible | src/crypto_ai_system/execution/testnet_session_harness.py:189-218 | At most n records; a close leg exists exactly when the open was submitted; only the last record can be BLOCKED |
| TestnetSessions.AggregateCounts | src/crypto_ai_system/execution/testnet_session_harness.py:154-186 | 2 x OK sessions <= reconciled legs <= submitted legs <= 2 x sessions, so the reconcile rate lies in [0, 1] |
| TestnetSessions.Account.RunOneSession | src/crypto_ai_system/execution/testnet_session_harness.py:100-151 | Buy, reconcile, reduce-only sell, reconcile: the record and the position left |
| TestnetSessions.Account.RunSessions | src/crypto_ai_system/execution/testnet_session_harness.py:189-218 | The loop's records and final position; it stops at the first blocked session |

## Left out

- HTTP, signing, host checks, configuration, event log, dashboards and reports as text: I/O.
- The guards' flag, key, promotion and risk-gate checks: one boolean, next to the counter, caps and loss limit that matter over runs.
- Exchange order ids, timestamps as text, registry hashes and `stable_id`: opaque distinct ids and integer times.
- `open_in_book` and `settle_books` with multi-book trading disabled: they delegate to the single-position kernel, modelled as `PositionKernel.PaperKernel`.
- A position direction other than LONG or SHORT: the kernels treat any other text as SHORT.
- Multi-column event alignment: each column is filled at the same indices; the model fills one. Events (or bars) with equal timestamps are ordered as a stable sort would, where pandas' default sort does not promise it.
- Universal newlines when the sample log is read: `json.dumps` writes no carriage return, so lines end at `\n` only.
- `load_liquidation_history` and its unclosed-day filter: same cache discipline, different source.
- An unparsable timestamp in the candle cache (treated as infinitely old by the source): cached rows carry the integer time they were fetched with.
- Candle rows other than closes in the higher-timeframe columns, and every other feature column: pandas arithmetic.
- The verdict scores of the backtest other than cost robustness: one-branch formulas.
- Sessions whose submit is itself ambiguous: a testnet order either is reported as submitted or did not happen.
- Admission to and removal from the strategy pool between lifecycle runs: the pool keeps its entries, and the theorems hold from any pool whose stored counts are zero exactly for active entries.
- Crashes inside the paper kernels and the strategy pool: crashes are events in the live protocol, the order desk, the shadow book and the sample log.
- An unreadable risk history, which blocks new positions before any figure is computed.
- A registry line torn by a crash within its own append: a ledger or registry append is one write here.
