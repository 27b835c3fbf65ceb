# Verification of the trading backend's deterministic core

This project models the parts of the backend that must be right without being watched, and proves what they promise. Every module below corresponds to one component of the repository; loops, dictionaries and object state are modelled as such, each proved against a function on values, and the promises are lemmas about those functions or about all runs of them.

* **Smart-money structure engine** (`SmcSwings`, `SmcStructure`, `SmcStructureRules`, `SmcGaps`, `SmcBlocks`, `SmcBlockHistory`, `SmcAnalysis`): multi-pass detectors over a candle series. Main results: analysing a prefix agrees with analysing the whole, list by list; lifecycles of gaps and blocks never rewrite history; each detector publishes exactly what its rule says.
* **Market data** (`Aggregation`, `AggregationWeekly`, `AggregationLaws`, `AggregationComposition`, `CandleValidation`, `MarketStore`): session-aligned bars, validation and idempotent ingestion. Main results: aggregation composes; a bar stays exactly when no late source reaches its bucket; ingesting twice changes nothing.
* **Order execution** (`OrderStateMachine`, `OrderStore`, `OrderRepository`, `Reconciliation`): the lifecycle, its event-sourced store under optimistic concurrency, and the comparison with the broker. Main results hold over every delivery of events and every interleaving of sessions.
* **Paper trading and risk** (`RiskEngine`, `PaperLedger`, `PaperBroker`): pre-trade checks and the books. Main results: an exact conservation law over all runs, ceilings kept by every approval, monotonicity of the risk engine.
* **Backtesting** (`Backtest`, `BacktestLaws`, `BacktestPolicy`, `BacktestMetrics`, `BacktestReport`, `MonteCarlo`): the next-candle simulator and its robustness tools. Main results: no look-ahead, exact accounting, where every trade comes from and how it ends.
* **Replay** (`Replay`, `ReplaySessions`, `ReplaySchedule`, `ReplayTasks`): cursor engine, versioned sessions, bounded playback and task ownership. Main results hold under arbitrary interference by other clients and in every interleaving of tasks.
* **Options and indicators** (`Options`, `Indicators`, `IndicatorsBars`, `IndicatorsPivots`, `IndicatorsTrend`): max pain as a global minimum, volatility by bisection, indicators as functions of the past.

`Domain`, `Stream`, `Arith`, `RealArith` and `Drawdowns` hold what several of them share.

Prices and quantities are reals, except order quantities in the lifecycle, which are whole units of 0.00000001. Instants are whole seconds of Indian local time (a fixed offset, so a date is the instant divided by 86400); the risk engine's are real seconds. Identifiers are integers, a dataset is named by an arbitrary digest function. Decision providers, risk policies, cost models, price models, the square root of the Sharpe ratio and digests are arbitrary functions; clocks, stop requests and what other clients do between two steps are parameters, and results hold for all of them. Quantities the source loops over are looped over here, and no precondition is stronger than what the source or its validated domain types demand.

## Where code and documentation part

The code was followed. Each of these is proved on an input, and the exact condition under which the promise holds is proved beside it.

* Hourly candles do not divide the regular session: their last four-hour or daily bar is emitted at the close and taken back when the last hourly candle becomes available (`HourlyBarTakenBack`, `BarStays`).
* Without a calendar a week is any five daily candles, and a Saturday candle takes the bar back (`SaturdayTakesWeekBack`, `WeekStays`).
* Loading an order takes two reads and can return a state the order never had (`LoadCanTear`); it does not exactly when no event is recorded between the two (`LoadUndisturbedExactly`). Writing cannot.
* Exits approved on one snapshot of a position can together turn it over (`StaleExitsCanFlip`), exactly when together they exceed it (`StaleExitsExact`).
* The directional index is longer than its input for fewer than `period - 1` bars, against the module's promise of equal lengths (`AdxCausalExactly`). Nothing refuses a first bar whose high is below its low, and then the index can be -100 (`AdxBelowZero`); unless the period is one, that bar alone decides whether a series keeps the index in range however it goes on (`AdxInRangeExactly`).
* On the first bar of a supertrend and right after a turn the close can be on the wrong side of the line (`FirstBarCanLandBelow`, `TurnCanLandBeyond`, `OnItsSideExactly`).
* The one-pass drawdown can be too small on paths that fall below zero (`DrawdownBelowZero`), exactly when no deepest fall ends where all positive values so far are equal (`DrawdownExact`).
* Two records of zero timeframe can make validation raise instead of report (`TimelessRaises`, `RaisesExactly`).
* A candle stored before it closed never becomes closed (`IngestedTooEarly`, `OpenCandleStaysOpen`); an accepted candle is what ends up stored exactly when nothing else was there (`StoredAsAcceptedExactly`).
* Stopping a playback can be answered with the status of its successor (`StopCanAnswerRunning`), exactly when a later playback was started meanwhile (`StopAnswersExactly`).
* The docstring of the weekly aggregation asks for five daily candles; with a calendar the code asks for one at each trading day's open, which is five only in a week of five trading days (`HolidayWeekOfFour`, `FiveCandlesExactly`).

## Model

| member | source | states |
|---|---|---|
| SmcSwings.Validate | packages/smc_ict/engine.py:312-325 | the engine accepts exactly the closed, single-stream, strictly chronological candle sequences |
| SmcSwings.FindSwings | packages/smc_ict/engine.py:328-366 | the swing loop computes the swings of every window, in order of confirmation |
| SmcSwings.SwingExact | packages/smc_ict/engine.py:328-366 | a swing is published if and only if its candle is the strict extreme of its own window, on the side it is published for |
| SmcSwings.SwingsKnownAt | packages/smc_ict/engine.py:328-366 | the swings of the first k candles are a list prefix of those of all candles, and exactly those confirmed by the k-th close, for any windows |
| SmcSwings.FindDisplacements | packages/smc_ict/engine.py:369-405 | the displacement loop computes exactly the candles whose body beats the average of the bodies before them |
| SmcSwings.DisplacementsKnownAt | packages/smc_ict/engine.py:369-405 | displacements never repaint |
| SmcSwings.LookupExact | packages/smc_ict/engine.py:689-751 | the displacement dictionary answers with a displacement under that very close and direction, and fails only when there is none |
| SmcSwings.LookupStable | packages/smc_ict/engine.py:689-751 | later displacements never change what an earlier close looks up |
| SmcStructure.StructureAndSweeps | packages/smc_ict/engine.py:679-778 | the loop that carries trend and consumed swings computes the structure events and sweeps of the candle-by-candle analysis |
| SmcStructure.AnalysisPrefix | packages/smc_ict/engine.py:679-778 | with the latest-swing choice, the strict confirmation filter and the carried trend and consumed set, analysing a prefix passes through exactly the states of analysing the whole |
| SmcStructure.StructureKnownAt | packages/smc_ict/engine.py:679-778 | structure events and sweeps of a prefix are list prefixes of those of the whole, in every scope, and exactly those detected by then |
| SmcStructureRules.StructureLabels | packages/smc_ict/engine.py:730-777 | in every published structure stream each break of structure follows the trend, each change of character opposes it, each shift accompanies one, and no swing is broken twice |
| SmcStructureRules.BreakExact | packages/smc_ict/engine.py:695-777 | a break of a swing is published at a candle if and only if it is the first candle that breaks it as the latest swing of its side |
| SmcStructureRules.SweepExact | packages/smc_ict/engine.py:695-729 | a sweep is published at a candle if and only if the latest swing of its side is swept there, consumed or not |
| SmcGaps.FairValueGaps | packages/smc_ict/engine.py:575-611 | the gap loop computes the gap, if any, of every three neighbouring candles |
| SmcGaps.RawGapsKnownAt | packages/smc_ict/engine.py:575-611 | raw fair-value gaps never repaint |
| SmcGaps.GapLifecycle | packages/smc_ict/engine.py:614-676 | the double loop over gaps and candles computes each gap's life and the inverse gaps |
| SmcGaps.LifeExact | packages/smc_ict/engine.py:614-676 | a gap is mitigated at its first touching candle, invalidated at its first candle through the far side, never before it was mitigated, and inverted only at that very candle |
| SmcGaps.GapHistory | packages/smc_ict/engine.py:614-676 | gap by gap, the longer analysis is a later view of the shorter: set times stay, status only moves forward |
| SmcGaps.InverseGapsKnownAt | packages/smc_ict/engine.py:614-676 | a prefix shows exactly the inverse gaps of the whole that were detected by its last close |
| SmcBlocks.SourceBlocks | packages/smc_ict/engine.py:788-832 | the first pass finds, for each break with displacement, the last opposing candle within the lookback, each source once |
| SmcBlocks.SourcesExact | packages/smc_ict/engine.py:788-832 | a source block is published if and only if it belongs to an event that is the first with its direction and instant, is displaced, and has an opposing candle within the lookback, the last of which it takes |
| SmcBlocks.LastOpposingExact | packages/smc_ict/engine.py:796-808 | the origin is the last candle of the window that opposes the break, and absent exactly when none does |
| SmcBlocks.PriceBlocks | packages/smc_ict/engine.py:781-909 | the two passes and the final sort compute the published list of order, mitigation and breaker blocks |
| SmcBlocks.SortedExact | packages/smc_ict/engine.py:909-909 | the published list holds the same blocks, ordered by detection and then kind, ties in order of creation |
| SmcBlockHistory.LifeExact | packages/smc_ict/engine.py:834-908 | each source block yields at most one mitigation block, at its first touch, and at most one breaker, at its first candle closing through it, and stops there |
| SmcBlockHistory.DerivedKinds | packages/smc_ict/engine.py:834-908 | a mitigation block keeps its source's direction, a breaker takes the opposite one |
| SmcBlockHistory.UpdatedLater | packages/smc_ict/engine.py:834-908 | an order block's set times are never rewritten and its status only moves forward as candles are added |
| SmcBlockHistory.SourcesGrow | packages/smc_ict/engine.py:788-832 | more structure events only append source blocks, each stamped by one of the new events |
| SmcAnalysis.FindEqualLevels | packages/smc_ict/engine.py:408-437 | the pairwise pass computes the equal highs and lows within tolerance |
| SmcAnalysis.EqualLevelsKnownAt | packages/smc_ict/engine.py:408-437 | each side's equal levels never repaint; the published list puts one side first and so is no list prefix |
| SmcAnalysis.StructureIndexed | packages/smc_ict/engine.py:789-797 | every structure event names the close of a candle of the series, so the block pass never looks up a missing index |
| SmcAnalysis.Analyze | packages/smc_ict/engine.py:1050-1109 | a refused snapshot yields nothing, any other yields the analysis by all passes |
| SmcAnalysis.NonRepainting | packages/smc_ict/engine.py:1050-1109 | for every valid closed series and every k, swings, displacements, raw gaps, structure events and sweeps of the first k candles are list prefixes of those of the whole, internally and externally |
| SmcAnalysis.SourceBlocksKnownAt | packages/smc_ict/engine.py:788-832 | the source order blocks of a prefix are a list prefix of those of the whole |
| SmcAnalysis.DerivedBlocksKnownAt | packages/smc_ict/engine.py:834-909 | mitigation and breaker blocks neither vanish nor appear late |
| SmcAnalysis.OrderBlockKept | packages/smc_ict/engine.py:781-909 | an order block once published stays published, with its times kept and its status only moved forward |
| SmcAnalysis.OrderBlockOnTime | packages/smc_ict/engine.py:781-909 | no order block appears after the fact: one detected in time was published in time |
| Aggregation.BuildCalendar | packages/market_data/aggregation.py:186-196 | the session list makes a calendar, or fails on the first session that is foreign, repeated or opened on another day |
| Aggregation.FilterAvailable | packages/market_data/aggregation.py:56-60 | only closed candles already available at the cutoff are aggregated |
| Aggregation.GroupCandles | packages/market_data/aggregation.py:63-80 | the dictionary holds, for each bucket, exactly its sources in order |
| Aggregation.EmitBars | packages/market_data/aggregation.py:83-100 | the output is one bar for each complete bucket and no other, in strictly increasing order of time |
| Aggregation.AggregationUnique | packages/market_data/aggregation.py:63-100 | that specification determines the bars |
| Aggregation.SortExact | packages/market_data/aggregation.py:44-44 | sorting keeps every candle and orders them by time |
| AggregationWeekly.Aggregate | packages/market_data/aggregation.py:30-100 | each refusal in its turn, and otherwise exactly the complete buckets' or weeks' bars |
| AggregationWeekly.AggregateWeekly | packages/market_data/aggregation.py:103-152 | weekly bars: one for each complete week, or the refusal for non-daily sources or an uncovered week |
| AggregationWeekly.MondayExact | packages/market_data/aggregation.py:110-111 | a date lies in the week of exactly one Monday |
| AggregationWeekly.WeekStays | packages/market_data/aggregation.py:103-152 | a weekly bar stays at a later instant if and only if no further daily candle of its week becomes known, and is then unchanged |
| AggregationWeekly.WeekNeverTakenBack | packages/market_data/aggregation.py:103-152 | with daily candles on the week's own trading days only, no weekly bar is ever taken back |
| AggregationWeekly.SaturdayTakesWeekBack | packages/market_data/aggregation.py:125-129 | without a calendar, a Saturday candle takes back the bar of Monday to Friday |
| AggregationWeekly.FiveCandlesExactly | packages/market_data/aggregation.py:125-150 | a weekly bar stands for five daily candles if and only if there is no calendar or the week has five trading days |
| AggregationWeekly.HolidayWeekOfFour | packages/market_data/aggregation.py:130-150 | a week with a holiday on its Friday whose bar is made of four candles |
| AggregationLaws.BarStays | packages/market_data/aggregation.py:56-100 | a bar once emitted stays at a later instant if and only if no further source of its bucket becomes known in between, and is then the same bar |
| AggregationLaws.NoRetraction | packages/market_data/aggregation.py:56-100 | with sources on the session grid and sessions of a whole number of base intervals, every emitted bar stays, unchanged, at every later instant |
| AggregationLaws.BarsRemain | packages/market_data/aggregation.py:30-100 | all bars of an earlier aggregation are among those of a later one |
| AggregationLaws.HourlyBarTakenBack | packages/market_data/aggregation.py:82-99 | when sessions are no whole number of base intervals a bar can be taken back: the last four-hour bar of hourly candles |
| AggregationComposition.EmitsExact | packages/market_data/aggregation.py:82-99 | on regular sources a bucket emits a bar if and only if it is over and every one of its base intervals has a source of its own day |
| AggregationComposition.AggregationComposes | packages/market_data/aggregation.py:30-100 | on regular sources, aggregating to a whole-session intraday timeframe and then to a target gives exactly the bars of aggregating directly, at every instant |
| AggregationComposition.BarSound | packages/market_data/aggregation.py:155-177 | every bar is a valid candle whose sources tile its bucket, with their extremes, their first open, last close and the sum of their volumes |
| AggregationComposition.SourceFeedsOne | packages/market_data/aggregation.py:63-80 | no source feeds two bars |
| OrderStateMachine.RunLawful | packages/execution/state_machine.py:108-161 | over every delivery: filled stays within quantity and equals the sum of the fills that counted, each status has its filled quantity, the version counts the processed ids, and a reason is set exactly when reconciliation is required |
| OrderStateMachine.RunMonotone | packages/execution/state_machine.py:108-161 | later deliveries only add: a broker id once set stays, reconciliation once required stays required |
| OrderStateMachine.RedeliveryHarmless | packages/execution/state_machine.py:110-111 | delivering a processed event again, at any later point, changes nothing |
| OrderStateMachine.ApprovedOnceSubmittedOnce | packages/execution/state_machine.py:79-98 | an order at the broker, or with anything filled, had exactly one risk approval and one submit start |
| OrderStateMachine.AdvanceDecreases | packages/execution/state_machine.py:108-150 | every event that moves an order along decreases first the unfilled quantity, then the rank of the status |
| OrderStateMachine.LifecycleEnds | packages/execution/state_machine.py:108-150 | no delivery moves an order along more than 2 * quantity + 7 times |
| OrderStateMachine.ReconciliationExact | packages/execution/state_machine.py:108-161 | reconciliation is required if and only if some delivered event was late, named another broker order, overfilled, or reported an unknown submission |
| OrderStore.CommitSeesCurrent | packages/execution/repository.py:71-105 | passing the version check proves that the row and the ids, read at different moments, were one snapshot |
| OrderStore.CommitSound | packages/execution/repository.py:71-105 | a commit, whatever its session read, leaves the order equal to its replay, and the uniqueness constraint on event ids never trips |
| OrderStore.AlwaysSound | packages/execution/repository.py:46-105 | in every interleaving of row reads, id reads and commits by any sessions, every order and every half-finished read is sound |
| OrderStore.StoredStateIsReplay | packages/execution/repository.py:71-126 | after every interleaving the stored order equals the fold of its events from a fresh order, versions number 1, 2, ..., and event ids are distinct |
| OrderStore.NothingLost | packages/execution/repository.py:71-105 | no step of any session loses or rewrites a recorded event |
| OrderStore.WrittenFromSnapshot | packages/execution/repository.py:71-105 | a commit that writes applied its event to the order exactly as it stood; a conflict means the row read was out of date |
| OrderStore.LoadConsistentExactly | packages/execution/repository.py:46-69 | what a load returns is a state the order was really in if and only if its ids match its version |
| OrderStore.LoadUndisturbedExactly | packages/execution/repository.py:46-69 | in every interleaving, a load returned a state the order was really in if and only if no event was recorded between its two reads |
| OrderStore.LoadCanTear | packages/execution/repository.py:46-69 | an interleaving in which a load returns a state the order never had |
| OrderRepository.ExecutionOrderRepository.Create | packages/execution/repository.py:29-44 | creating inserts a fresh row under a new id, for a positive quantity, and touches nothing else |
| OrderRepository.ExecutionOrderRepository.Load | packages/execution/repository.py:46-69 | loading puts the row and its event ids together, or reports a missing order |
| OrderRepository.ExecutionOrderRepository.ApplyEvent | packages/execution/repository.py:71-105 | undisturbed, applying an event stores the state machine's answer and one event row, and refusals and repeats store nothing |
| OrderRepository.ExecutionOrderRepository.Events | packages/execution/repository.py:107-126 | the events come back in the order of their versions, and replaying them gives the order |
| OrderRepository.ByVersionInOrder | packages/execution/repository.py:107-115 | a sound order's event rows already stand in the order of their versions |
| OrderRepository.ApplyTwice | packages/execution/repository.py:71-105 | applying an event a second time answers with the order unchanged and stores nothing |
| Reconciliation.Reconcile | packages/execution/reconciliation.py:55-136 | safe if and only if both sides agree on everything; the matched count is the size of the id intersection; each issue is reported exactly when it holds |
| Reconciliation.SafeExact | packages/execution/reconciliation.py:127-136 | no issue exists if and only if id-less local orders are pre-broker, ids are distinct, the id sets are equal and every pair agrees |
| RiskEngine.CollectLocks | packages/risk_engine/engine.py:166-212 | the list of locks holds exactly those that are on, in their order |
| RiskEngine.Evaluate | packages/risk_engine/engine.py:146-256 | the evaluation answers by the decision rules |
| RiskEngine.EntryAllowedExactly | packages/risk_engine/engine.py:166-256 | a quoted entry is let through if and only if nothing is locked, a stop away from the price is set, no projected exposure passes its ceiling and the instrument has headroom |
| RiskEngine.ApprovedWithinCeilings | packages/risk_engine/engine.py:216-256 | every entry let through keeps its risk at the stop and the instrument, gross, sector, strategy and absolute net exposures within their ceilings |
| RiskEngine.ApprovedIsLargest | packages/risk_engine/engine.py:247-256 | any larger quantity would pass the request, the risk budget or the instrument's ceiling |
| RiskEngine.TighterNeverApprovesMore | packages/risk_engine/engine.py:146-256 | with no limit wider, no lock lifted by whatever cause, no more capital and no exposure smaller, the approved quantity never rises, and an exit is judged the same |
| RiskEngine.WorseNeverApprovesMore | packages/risk_engine/engine.py:146-256 | so older quotes, wider spreads, longer cooldowns, deeper losses, higher counters and larger options, delta, gamma or exposure figures never get more approved |
| RiskEngine.ExitWithinPosition | packages/risk_engine/engine.py:154-164 | an approved exit is on the closing side and no larger than the position |
| PaperLedger.FillConserves | packages/paper_trading/broker.py:260-299 | through increases, reductions, closes and reversals, realized result less cost basis moves by exactly the cash of the fill |
| PaperLedger.RowAt | packages/paper_trading/broker.py:263-268 | the position of an account in an instrument is its first row, if it has one |
| PaperLedger.PostBalanced | packages/paper_trading/broker.py:135-177 | posting a fill keeps every account balanced and every idempotency key unique |
| PaperLedger.RepeatedKeyChangesNothing | packages/paper_trading/broker.py:119-126 | a key that was executed once changes nothing again, whatever is asked, and answers with the order it made |
| PaperLedger.ApprovalsAreExecutable | packages/paper_trading/broker.py:106-117 | the broker never refuses a market order the risk engine let through |
| PaperLedger.ExitsNeverEnlarge | packages/paper_trading/broker.py:260-299 | no run of exits, each approved on the position it fills into, enlarges a position or turns it over |
| PaperLedger.BrokerExitsNeverEnlarge | packages/paper_trading/broker.py:99-177 | over any run of broker orders for any accounts, a holding for which only approved exits are submitted, each judged on the books as they stand, is never enlarged or turned over |
| PaperLedger.StaleExitsExact | packages/risk_engine/engine.py:154-164 | exits all approved on one snapshot keep to the position if and only if together they do not exceed it |
| PaperLedger.StaleExitsCanFlip | packages/risk_engine/engine.py:154-164 | two approved exits of a whole position, both judged before either fills, leave it turned over |
| PaperBroker.LedgerConserved | packages/paper_trading/broker.py:78-258 | after any run of openings, fills and marks, cash is initial cash plus the sum over positions of realized result less quantity times average price, in every account |
| PaperBroker.EveryMarkBalances | packages/paper_trading/broker.py:179-258 | so every mark of every reachable state has equity equal to initial cash plus realized plus unrealized |
| PaperBroker.TallyEquation | packages/paper_trading/broker.py:192-226 | market value over what positions contributed is what they realized and stand to realize; net never exceeds gross; every open position needs a price |
| PaperBroker.PersistentPaperBroker.InitializeAccount | packages/paper_trading/broker.py:78-97 | an account opens once, with positive capital, and again only with the same |
| PaperBroker.PersistentPaperBroker.ExecuteMarket | packages/paper_trading/broker.py:99-177 | filling answers and changes the books as specified, and keeps them balanced |
| PaperBroker.PersistentPaperBroker.UpdatePosition | packages/paper_trading/broker.py:260-299 | the position row is added or replaced by the filled one |
| PaperBroker.PersistentPaperBroker.MarkToMarket | packages/paper_trading/broker.py:179-258 | a mark shows equity as initial cash plus results, raises the peak, never shows a negative drawdown, and shows one above 1 exactly for negative equity; a missing price changes nothing |
| Backtest.RunBacktest | packages/backtesting/engine.py:298-400 | the loop over its running variables computes the candle-by-candle run, or the refusal of its candles |
| BacktestLaws.BacktestCausal | packages/backtesting/engine.py:288-416 | the run on the first k candles and the full run agree on all rejections and unforced trades so far and on the first k-1 equity and drawdown points |
| BacktestLaws.PendingExact | packages/backtesting/engine.py:364-368 | what waits for the next open is the last close's decision, exactly when it is an exit with a position open or an entry without one |
| BacktestLaws.EquityAccounted | packages/backtesting/engine.py:322-380 | equity is always the capital plus the net of closed trades, and each point adds what the open position stands to make |
| BacktestLaws.FinalEquityAccounted | packages/backtesting/engine.py:382-416 | final equity is the capital plus every trade's net result, and the last equity point |
| BacktestLaws.TradesNeverOverlap | packages/backtesting/engine.py:322-400 | every trade enters strictly after the previous one exited |
| BacktestLaws.TradesFromPast | packages/backtesting/engine.py:323-354 | every trade was decided on a strict past and entered at the next open, on that decision's terms |
| BacktestLaws.TradesEndAsTheySay | packages/backtesting/engine.py:324-362 | every trade ended as its reason says: on an exit decided at the close before, inside a candle that touched its stop or target, or at the last close |
| BacktestLaws.SurvivorsUntouched | packages/backtesting/engine.py:356-362 | no position outlives a candle that touches its stop or target |
| BacktestLaws.ExitInsideCandle | packages/backtesting/engine.py:211-223 | an intrabar exit happens exactly when stop or target is touched, at a price the candle traded; a stop beats a target and never fills better than itself |
| BacktestLaws.SlippageNeverHelps | packages/backtesting/engine.py:169-208 | slippage never improves an entry or a trade's gross result |
| BacktestLaws.FinalPeakIsHighest | packages/backtesting/engine.py:376-400 | the final peak is the highest of the capital, all marks and the final equity, each drawdown point is measured from the peak so far, and the end of the data replaces only the last point |
| BacktestMetrics.ComputeMetrics | packages/backtesting/engine.py:226-285 | the figures in their relation to the run: averages times counts are totals, a profit factor exists exactly when something was lost and is above one exactly for a net gain, a Sharpe ratio exists exactly when two returns differ and has the sign of their sum, streaks are the longest |
| BacktestMetrics.DrawdownOfRun | packages/backtesting/engine.py:372-380 | the reported drawdown of a run is the one-pass drawdown of its path from the capital on |
| BacktestMetrics.DrawdownOfWhole | packages/backtesting/engine.py:372-400 | however a run ends, its drawdown is the larger of the one-pass figure before the last point and of the fall to the final equity from the highest value ever marked, a replaced one included |
| BacktestMetrics.RunAndMeasure | packages/backtesting/engine.py:288-416 | the reported net profit is what all trades made, and the reported drawdown of a run that ends flat is the one-pass figure of its path |
| BacktestPolicy.SizedEntryBounded | packages/backtesting/engine.py:72-106 | a sized entry has stop and target on their right sides and is the largest whole quantity within the risk and notional budgets |
| BacktestPolicy.CountStreaks | packages/backtesting/engine.py:257-264 | the loop computes the longest winning and losing streaks |
| BacktestPolicy.LongestExact | packages/backtesting/engine.py:257-264 | a streak is the most wins, or losses, in any stretch of trades with none of the other kind |
| BacktestReport.PeriodReturns | packages/backtesting/reporting.py:36-50 | the loops compute the return of each period over the one before |
| BacktestReport.ReturnsCompound | packages/backtesting/reporting.py:44-50 | the returns compound to exactly the last close if and only if no earlier period closed at zero or the last one did |
| BacktestReport.LastCloseIsLastPoint | packages/backtesting/reporting.py:39-43 | when equal labels are neighbours, the last period closes at the last equity point |
| BacktestReport.DirectionPerformance | packages/backtesting/reporting.py:73-88 | a direction has an entry if and only if some trade took it, long before short, and the entry tells the number, the net result and the share of winners of exactly those trades |
| BacktestReport.DirectionsAddUp | packages/backtesting/reporting.py:73-88 | both directions together account for every trade, its net result and every win |
| MonteCarlo.Shuffle | packages/backtesting/validation.py:153-160 | the in-place shuffle of a copy follows the generator's swaps |
| MonteCarlo.ShuffleIsPermutation | packages/backtesting/validation.py:153-160 | for every seed the shuffle is a permutation and keeps the total |
| MonteCarlo.ComputeDrawdown | packages/backtesting/validation.py:134-141 | the one pass over a path computes its drawdown figure |
| MonteCarlo.DrawdownExact | packages/backtesting/validation.py:134-141 | on every path the one-pass figure is the deepest fall from any positive point to a later one if and only if nothing falls below zero from above it, or some fall as deep as any ends where everything positive so far stood at one level; it is never negative, and on paths of the first kind at most one |
| MonteCarlo.DrawdownBelowZero | packages/backtesting/validation.py:134-141 | below zero the one pass misses a deeper fall |
| MonteCarlo.PeakFallDeepestExactly | packages/backtesting/validation.py:134-141 | at any point of any path, the fall from the peak is the deepest ending there if and only if the point is not below zero or every positive point so far is the peak |
| MonteCarlo.MonteCarloTradeSequences | packages/backtesting/validation.py:163-199 | median and both percentiles of final equity are the capital plus the total, the probability of loss is zero or one, and the worst drawdown is the largest simulated one |
| MonteCarlo.WalkForwardFolds | packages/backtesting/validation.py:97-131 | the folds start at 0, step, 2 * step and so on as long as a whole fold fits, and at no other place |
| MonteCarlo.FoldsLeakNothing | packages/backtesting/validation.py:97-131 | training, validation and test of a fold are consecutive; stepping by the test size or more, no observation falls into two test ranges |
| Replay.AcceptsExactly | packages/replay/engine.py:29-43 | the engine accepts exactly non-empty, closed, single-stream, strictly chronological candles |
| Replay.ReplayEngine.Step | packages/replay/engine.py:71-78 | a step emits the candle at the cursor and moves it on, or does nothing at the end |
| Replay.ReplayEngine.Seek | packages/replay/engine.py:84-88 | a seek exposes exactly the candles closed by then |
| Replay.CountAvailableExact | packages/replay/engine.py:84-88 | the count of available candles splits them into those closed by the instant and those not |
| Replay.ReplayEngine.Restore | packages/replay/engine.py:90-98 | a checkpoint of the same dataset puts the cursor back, any other is refused |
| Replay.ResumeElsewhere | packages/replay/engine.py:71-98 | a run broken off, checkpointed and resumed on a new engine emits the frames of an unbroken run |
| ReplaySessions.SessionTable.Create | packages/replay/persistence.py:31-59 | a new session starts at the engine's cursor; an existing one must match its evidence |
| ReplaySessions.SessionTable.Save | packages/replay/persistence.py:85-115 | a save passes exactly at its expected version, dataset and range, and then moves the session one version on |
| ReplaySessions.AttemptsOnward | packages/replay/persistence.py:85-115 | whatever saves others attempt, a session's version only rises, and one still at its version is untouched |
| ReplaySessions.ReplayCoordinator.Step | packages/replay/service.py:34-53 | a step succeeds exactly when the session can be rebuilt, stands at the expected version and is undisturbed until the save, and then emits the frame at that version's cursor |
| ReplaySessions.ReplayCoordinator.Seek | packages/replay/service.py:55-74 | a seek succeeds exactly under the same terms and lands on the candles closed by then |
| ReplaySessions.ReplayCoordinator.Snapshot | packages/replay/service.py:76-78 | a snapshot shows only candles before the stored cursor |
| ReplaySchedule.ReplayScheduler.Run | packages/replay/scheduler.py:49-86 | under any interference playback fails or emits consecutive frames, one version and one cursor step each with no other update among them; completion means the end of data, the step limit means short of it, and undisturbed it succeeds |
| ReplayTasks.SingleOwner | packages/replay/tasks.py:76-90 | in every interleaving at most one unfinished task exists for each session |
| ReplayTasks.OwnEntryOnly | packages/replay/tasks.py:139-142 | a finishing task writes its status only to its own entry |
| ReplayTasks.RecordTerminalOnce | packages/replay/task_persistence.py:19-59 | a run record leaves running at most once and is never lost or changed afterwards |
| ReplayTasks.FinishedTold | packages/replay/tasks.py:116-149 | a finished task's entry shows its own outcome, and its run record the same outcome or, if recording failed, still running |
| ReplayTasks.StopAnswersExactly | packages/replay/tasks.py:99-107 | in every interleaving a stop whose task is over is answered with that task's own status if, and with run records only if, no later playback of its session was started |
| ReplayTasks.StopCanAnswerRunning | packages/replay/tasks.py:99-107 | an interleaving with a stop, from an empty manager, in which the stop is answered with the running status of the next playback |
| Options.MaxPain | packages/options/analytics.py:360-376 | the returned strike pays out no more than any real settlement price would, and is the lowest strike that pays so little |
| Options.PainLinear | packages/options/analytics.py:366-375 | between neighbouring strikes the total payout is linear |
| Options.SomeStrikePaysLess | packages/options/analytics.py:364-376 | for every settlement price some listed strike pays no more |
| Options.ImpliedVolatility | packages/options/analytics.py:296-336 | bisection keeps the price bracketed; what it returns is within tolerance; and it returns for every price function with slope times remaining width within tolerance |
| Indicators.CausalPrefix | packages/indicators/core.py:1-6 | a causal series of a prefix is the prefix of the series |
| Indicators.Sma | packages/indicators/core.py:67-79 | the rolling sum gives the mean of the window at every index |
| Indicators.Ema | packages/indicators/core.py:82-95 | the running average is, at every index, a function of the values so far |
| Indicators.WilderBlend | packages/indicators/core.py:153-162 | Wilder's recurrence is exponential smoothing with weight 1 / period |
| Indicators.SmoothedWithin | packages/indicators/core.py:82-95 | a smoothed value never leaves the range of the values seen |
| Indicators.Rsi | packages/indicators/core.py:98-120 | the running averages give, at every index, the score of the prices so far |
| Indicators.ScoreExact | packages/indicators/core.py:109-112 | the score is the gains' share of all movement in percent, 50 without movement |
| Indicators.RsiInRange | packages/indicators/core.py:98-120 | relative strength lies between 0 and 100 and starts after period changes |
| Indicators.ComputeMacd | packages/indicators/core.py:123-141 | line, signal and histogram are, at every index, functions of the prices so far, the signal starting where the line does |
| IndicatorsBars.Adx | packages/indicators/core.py:179-207 | the loops compute the smoothed directional index after its padding, or refuse the period or lists of unequal length |
| IndicatorsBars.AdxCausalExactly | packages/indicators/core.py:198-207 | the output has the input's length, and is causal, if and only if there are at least period - 1 bars; with fewer it is longer |
| IndicatorsBars.AdxBelowZero | packages/indicators/core.py:179-207 | three bars, the first with its high below its low, whose index is -100 |
| IndicatorsBars.AdxInRangeExactly | packages/indicators/core.py:179-207 | the index stays in [0, 100] however a series goes on if and only if the period is one or the first bar's high is not below its low |
| IndicatorsPivots.Pivots | packages/indicators/core.py:291-307 | pivots are flagged where they are confirmed |
| IndicatorsPivots.ConfirmsExact | packages/indicators/core.py:303-306 | a pivot is confirmed exactly when no neighbour on either side is more extreme |
| IndicatorsPivots.SupportResistance | packages/indicators/core.py:310-330 | the carried levels are, at every index, functions of the prices so far |
| IndicatorsPivots.ResistanceIsLastPivot | packages/indicators/core.py:321-330 | resistance is the price of the last confirmed pivot high |
| IndicatorsPivots.ResistanceAbsent | packages/indicators/core.py:321-330 | resistance is absent exactly while no pivot is confirmed |
| IndicatorsPivots.SupportIsLastPivot | packages/indicators/core.py:321-330 | support is the price of the last confirmed pivot low |
| IndicatorsPivots.SupportAbsent | packages/indicators/core.py:321-330 | support is absent exactly while no pivot low is confirmed |
| IndicatorsTrend.Supertrend | packages/indicators/core.py:354-390 | each refusal in its turn, and otherwise the carried bands and direction are, at every index, functions of the bars so far |
| IndicatorsTrend.TrendTrails | packages/indicators/core.py:373-389 | at every bar after the first of the trend, bands only tighten unless the last close was beyond them, the direction turns exactly at a cross, and while it holds the line never loosens |
| IndicatorsTrend.OnItsSideExactly | packages/indicators/core.py:373-389 | at every bar, exactly when the close is on its direction's side of the line: always between turns, and on the first bar and on a turn under a condition on the bands |
| IndicatorsTrend.FirstBarCanLandBelow | packages/indicators/core.py:373-389 | one bar that closes at its low, below the line of the trend it starts |
| IndicatorsTrend.TurnCanLandBeyond | packages/indicators/core.py:373-389 | three bars after which the direction has just turned up and the close is below the line |
| CandleValidation.Validate | packages/market_data/validation.py:44-110 | the validating loop computes the record-by-record progress, or raises |
| CandleValidation.EveryRecordAnswered | packages/market_data/validation.py:53-110 | every record yields one accepted candle or exactly one error event |
| CandleValidation.AcceptedOrderly | packages/market_data/validation.py:58-99 | accepted candles are valid, strictly chronological in each stream and unique in identity |
| CandleValidation.RaisesExactly | packages/market_data/validation.py:74-76 | validation raises exactly when a record of zero timeframe is later than its instrument's first such record |
| CandleValidation.TimelessRaises | packages/market_data/validation.py:74-76 | two records of zero timeframe a second apart make validation raise, at any instant |
| MarketStore.InsertIgnore | packages/market_data/repository.py:144-167 | inserting keeps rows already there and counts the new ones |
| MarketStore.InsertedKeeps | packages/market_data/repository.py:144-167 | the keys afterwards are the old ones and the rows', and old rows are kept |
| MarketStore.HistoricalCandleIngestor.Ingest | packages/market_data/ingestion.py:22-62 | ingesting changes the three tables as specified and reports the inserted counts; a batch that raises stores nothing |
| MarketStore.Compare | packages/market_data/ingestion.py:38-57 | accepted candles are split into new ones and those that contradict the store |
| MarketStore.NeverOverwrites | packages/market_data/ingestion.py:58-62 | nothing stored is ever overwritten or lost |
| MarketStore.AcceptedStored | packages/market_data/ingestion.py:38-59 | after ingestion each accepted candle is stored, unless another was there before |
| MarketStore.IngestAgainChangesNothing | packages/market_data/ingestion.py:22-62 | ingesting the same batch as of the same instant leaves every table as it is and reports zero inserts |
| MarketStore.OpenCandleStaysOpen | packages/market_data/ingestion.py:44-57 | a candle stored before it closed stays open: its closed version is reported as a conflict |
| MarketStore.IngestedTooEarly | packages/market_data/ingestion.py:22-62 | the input: one record ingested into an empty store before and again after the end of its interval leaves an open candle and a conflict |
| MarketStore.OpenCandleExample | packages/market_data/ingestion.py:22-62 | a one-minute record ingested at second 30 and at second 90 stays open |
| MarketStore.StoredAsAcceptedExactly | packages/market_data/ingestion.py:38-59 | an accepted candle is what is stored afterwards if and only if nothing else was there under its identity |

## Left out

- Decimal and float rounding, column precision and non-finite inputs: arithmetic is over the reals, so results about equality of sums and products do not cover rounding.
- Naive timestamps, other time zones and daylight saving: only the validator's refusal of a timestamp without a zone is modelled.
- The structure engine's confidence scores, texts, overlays, colours, kill zones, reference levels and price zones: presentation, or the latest value of a single pass. The evidence of structure events and blocks is kept as a set, without its order.
- Black-Scholes formulas, the Sortino ratio, Bollinger deviations, VWAP, rate of change, stochastic and relative volume: library numerics or single passes.
- Chronological split, parameter stability, cost sensitivity, benchmark comparison, out-of-sample selection, option margin, payoffs, contract selection and portfolio greeks: single expressions or picks that would only add easy members.
- Greeks of an option chain: an entry carries only what the max-pain chain check and the payout read.
- HTTP routes, authentication, configuration loading, migrations, object-relational caching, logging, brokers' network adapters and artifact stores.
- Cancellation of tasks and crashes between two steps: every step either happens or does not.
- ReplayTasks: the manager and the run-record table are one state machine on values rather than an object, because its calls interleave at their awaits; deadlock freedom and progress are not stated.
- OrderStore: sessions interleave on values for the same reason; the repository object in `OrderRepository` shows each call undisturbed.
- SmcAnalysis.Analyze: leaves out the result's reference levels, price zones, kill zones and overlays, which summarise the last candles in single passes and feed back into nothing else.
