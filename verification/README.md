# Verified model of the trading research and paper trading system

A Dafny model of the stateful core of the system, with the properties its documentation and its
tests rely on proved for all inputs, all runs and all interleavings. `Decimal` values are `real`,
timestamps are `int` seconds, the square root and SHA-256 are arbitrary functions (SHA-256 without
collisions), and the strategy, the price and candle providers, the clock and the storage are
arbitrary inputs. A storage failure or a crash may happen at any write.

## What is modelled

| files | part of the system |
|---|---|
| `BatchAnalysis`, `BatchLoops`, `IndicatorRanges` | the batch market analysis, as functions and as the loops that compute them |
| `AnalysisMeaning`, `SnapshotMeaning` | what every field of a snapshot says about the candles, apart from how it is computed |
| `StreamingFacts`, `IncrementalState` | the streaming analysis: moving averages, chained MACD signal, bounded windows, swing lists shared through views of frozen length |
| `SnapshotCursor` | four timeframes advanced lazily and reset on a backwards jump |
| `PaperOrders`, `PaperSafety`, `PaperRuns`, `PaperRuntime` | orders, fills, positions, pending orders and recovery: pure plans of durable states, their safety in every run, and the imperative runtime |
| `PositionManager` | exits and trailing stops |
| `Settlement` | closing a position: equity, ledger, journal and position in one transaction |
| `Publication`, `ResearchRepository` | content-addressed publication as a state machine of publishers and restorers, and the calls they make |
| `BacktestTrades`, `BacktestEngine`, `BacktestCausality`, `PortfolioBacktest` | the single-symbol and the shared-equity event loops |
| `TradeLife`, `PortfolioLife` | the life of every trade of the two loops, from its signal to its record, in plain arithmetic |
| `Diagnostics`, `Attribution` | counters, regime and direction attribution, and their reconciliation checks |
| `RiskGates`, `OpportunityPipeline`, `RiskReservation` | sizing, the two gates, and risk reserved for pending orders |
| `MarketCache`, `MarketReads` | the bounded cache over the unbounded history, and what reads return of what was written |
| `CandleBuilders`, `TradeCandles` | live trades into nested timeframes, and what the bars say about the trades |
| `CandleQuality`, `DealsArchive`, `ArchiveMeaning`, `CandleAggregation`, `Backfill` | offline reconstruction, aggregation, resumable backfill, shard merging |
| `Drawdown`, `ParameterSpace` | path orderings and drawdown, parameter enumeration |
| `Prelude`, `Candles`, `Positions` | shared values and sequence facts |

State that the source updates in place is a class (or a local variable of a method with a loop)
whose methods are proved against functions on values; the theorems are about those functions.

## How to read the main results

* The streaming analysis equals the batch analysis of the whole prefix in every field, and no later
  push changes a snapshot handed out earlier: `IncrementalMarketState.Push`, `SnapshotsNeverChange`.
* What the batch analysis says of the candles themselves is stated beside it, part by part:
  `IndicatorsSay`, `TrendSays`, `StructureSays`, `StateSays`, `LiquiditySays`, `RegimeSays`.
* The cursor equals filtering and recomputing, for any sequence of decision times: `SnapshotsAt`,
  `HandedIsReference`. The filter keeps exactly the candles that have ended, in seconds:
  `CompletedExactly`. The backtest run on one cursor, bar by bar, returns what filtering and
  recomputing at every decision would: `RunOnCursor`; and that is the same for all rows that agree
  on the candles ended by then: `NoLookAhead`, `NoCandleFromTheFuture`.
* Every trade of a backtest was signalled at one bar and opened at the open of the next, which is all
  it sees of that bar, and its record says what became of it: `EveryTradeExplained`,
  `EveryPortfolioTradeExplained`, `EnterSays`, `EntrySeesTheOpen`.
* In every run of the paper runtime an order has one fill and one position exactly when it is filled:
  `RunInvariant`, `OneFillOnePosition`. When and at which price it is filled: `ExecutorDecides`,
  and with `Submit` what a submission returns and stores. Recovery rebuilds what a fill wrote: `RebuildsTheFill`. At no
  durable state of a recheck is a filled order's risk missing from the committed risk:
  `RecheckCommits`.
* In every run of settlements persisted equity is explained by the ledger: `RunKeepsBooks`,
  `EquityIsExplained`.
* In every interleaving a visible manifest means a complete bundle, and whoever put it had verified
  every other part before: `ManifestMeansBundle`, `PartsInOrder`, `RestoresAgree`. What verifies, rule
  by rule: `VerifiesExactly`. Without a failed call publishing and restoring get through: `Publish`,
  `Restore`.
* A size is the largest that the risk and the contract allow, and an approved one the largest the gate
  may approve: `SizeIsLargest`, `ApprovedIsLargest`; every verdict exactly: `GateSays`.
* A platform used in any way without a restart answers every read as if there were no cache, and
  every key keeps its newest N: `CacheIsTransparent`, `ServeNew`. With restarts the cache of a key is
  invisible at every moment exactly when everything written was harmless: `InvisibleThroughout`,
  and then the answers are the same too: `UnseenRunsAnswerPlainly`. Those answers are the newest
  candles written, or the provider's: `ReadSays`.
* No live trade is lost or counted twice: with a finest timeframe first the bars of every timeframe
  and symbol are exactly the accepted trades, and every finished bar is handed on once:
  `NoTradeLostOrTwice`, `FinishedBarsHandedOn`, `FinestFirstExactly`. Which trades those are and
  what the bars say of them: `AdmittedExactly`, `CandlesSay`.
* Money is conserved at every bar of both backtests: `BarsConserve`, `MomentsConserve`, and the
  reconciliation checks never raise: `DiagnosticsNeverDiverge`, `RegimeReportNeverRaises`,
  `DirectionReportNeverRaises`.

## Where code and documentation disagree

* `app/position/settlement.py:35-36` calls a completed settlement idempotent by position. Repeating
  one that is not the latest raises unless the later settlements net to zero: `ReplayExactly` gives
  the condition, `ReplayCanRaise` an example.
* A second application of a fill is refused because its timestamp differs. With a clock that stands
  still it is accepted and reopens a closed position: `SecondFillRefused`, `SameInstantReopens`.
* `app/data/platform.py:13-14` puts a hot cache in front of the durable history. It is invisible to
  reads exactly while it is the newest part of the history: `InvisibleExactly`. A restart empties the
  cache and keeps that so; from then on any batch of candles keeps it exactly when everything the
  cache lacks and the batch does not rewrite is older than everything the cache keeps:
  `WritesExactly`, and over whole runs of batches, reads and restarts `InvisibleThroughout`. For one
  candle that is: not older than anything stored that the cache lacks, or the cache is full:
  `CandleExactly`. The first candle after a restart is the instance `LateCandleAfterRestart`.
* `app/data/platform.py:96-105` hands a trade to one builder after the other. In any order a trade
  reaches all of them or none exactly when the first refuses it or the finest accepts it, and this
  holds for every trade exactly when a finest timeframe comes first: `AllOrNothingExactly`,
  `FinestFirstExactly`. With a coarser one first a late trade always exists that only the coarse one
  counts: `LateTradeSplits`, with the instance `CoarseFirstCountsRefused`.
* The two gates look correlation up alike for a candidate with a symbol: `GatesAgree`. For an empty
  symbol the portfolio gate uses the plain coefficient where the risk gate asked the matrix. It raises
  exactly when that is out of range and refuses exactly when it takes the correlated risk over its
  budget: `EmptySymbolExactly`, with the instance `EmptySymbolDisagrees`.
* `app/data/research_object_store.py:436-444` says that writers of one prefix can only have the same
  bytes. A prefix fixes the identity and the bytes of the partitions, `OnePrefixOnePartitions`, but
  not those of the manifest: `TwoBundlesOnePrefix`, and exactly `ManifestRewrittenExactly`. A second publisher is refused exactly when its
  own file differs from the stored one, `RefusedExactly`; safety holds nevertheless.

## Model

| member | source | states |
|---|---|---|
| `Candles.OrderedSorts` | app/market/indicators.py:29-30 | the stable sort by timestamp orders its input and keeps every candle |
| `Candles.OrderedFixpoint` | app/market/indicators.py:29-30 | a list already in order, equal timestamps included, is left as it is |
| `Candles.RepeatsExactly` | app/market/advanced_structure.py:67-73 | the neighbour test on the sorted candles finds a repeated time exactly when two candles share one |
| `Candles.OrderedAnyOrder` | app/market/indicators.py:29-30 | candles with distinct times sort alike from every order |
| `BatchAnalysis.MaximaDecide` | app/market/advanced_structure.py:82-93 | comparing with the extremes of both sides decides exactly whether a candle is above all candles before it and below none after it, dually for lows |
| `BatchAnalysis.AnalyzeMarketInOrder` | app/market/analysis.py:28-43 | on chronological candles the batch analysis is the composition of all partial analyses of the whole list |
| `BatchAnalysis.AnalyzeMarketAnyOrder` | app/market/analysis.py:28-43 | the analysis raises exactly when two candles share a time, and otherwise does not depend on the order they come in |
| `AnalysisMeaning.AveragesSay` | app/market/indicators.py:37-42 | the averages of closes and volumes exist exactly for 50 and 20 candles and are the mean of the last of them |
| `AnalysisMeaning.EmaOfCloses` | app/market/indicators.py:45-54 | the exponential average of the closes exists exactly for enough candles and is the weighted mean of all of them, the weights written out |
| `AnalysisMeaning.WeightFades` | app/market/indicators.py:51-54 | one more value multiplies every earlier weight by the same factor and enters with the rest |
| `AnalysisMeaning.MacdSays` | app/market/indicators.py:109-123 | from the 34th candle on the line is the 12 mean less the 26 mean of the same candle, the signal the weighted mean of such lines, the histogram their difference |
| `AnalysisMeaning.RsiSays` | app/market/indicators.py:69-85 | the index lies off 50 by half the net change of 14 steps as a share of all their movement |
| `AnalysisMeaning.AtrSays` | app/market/indicators.py:88-106 | the average range is the mean width of the last 14 candles together with the close before each |
| `AnalysisMeaning.AdxSays` | app/market/indicators.py:126-155 | the index is the excess of rises over falls, or the reverse, as a percentage of both together |
| `AnalysisMeaning.VwapSays` | app/market/indicators.py:158-170 | the price exists exactly with 20 candles that traded and is where they balance, each with its volume |
| `AnalysisMeaning.BandsSay` | app/market/indicators.py:173-182 | the middle band is the mean of 20 closes, the others lie twice the root of mean square less squared mean away |
| `AnalysisMeaning.SupertrendSays` | app/market/indicators.py:185-202 | the direction follows the order of the two averages unless the close is three average ranges off the middle of the candle against it |
| `SnapshotMeaning.IndicatorsSay` | app/market/indicators.py:205-230 | every indicator of a snapshot is the one its name says, of the whole history |
| `SnapshotMeaning.TrendSays` | app/market/trend.py:18-72 | unknown exactly before 200 candles; up, down or neutral by the order of close and three averages; score and strength from the evidence found |
| `SnapshotMeaning.SwingsSay` | app/market/advanced_structure.py:76-94 | the swing lists hold exactly the peaks and troughs of the candles, in order |
| `SnapshotMeaning.StructureSays` | app/market/advanced_structure.py:97-167 | support is the low of the latest trough, resistance the high of the latest peak; a break exists exactly when the last close lies outside, upwards exactly above resistance, and is a BOS exactly when it goes with the last two highs and lows |
| `SnapshotMeaning.NoStructureSays` | app/market/advanced_structure.py:113-135 | without a peak or a trough there is no structure, and the level of the one there is is still reported |
| `SnapshotMeaning.StateSays` | app/market/structure.py:18-43 | of the last 20 candles: a break names its way and kind, otherwise near support, near resistance, or the swings' direction, each exactly |
| `SnapshotMeaning.LiquiditySays` | app/market/liquidity.py:17-27 | the last volume against the mean of the twenty before it, and the score it gives |
| `SnapshotMeaning.RegimeSays` | app/market/regime.py:17-39 | regime by the trend, volatility by the mean range of the last 20 candles in percent of their close, at the bounds exactly |
| `SnapshotMeaning.SnapshotSays` | app/market/analysis.py:28-43 | the parts of a snapshot are the analyses of its history and its score is their mean |
| `BatchLoops.ComputeEma` | app/market/indicators.py:45-54 | the accumulating loop returns the recursively defined average, or none when there are too few values |
| `BatchLoops.ComputeEmaSeries` | app/market/indicators.py:57-66 | the loop returns the average of every prefix long enough |
| `BatchLoops.ComputeRsi` | app/market/indicators.py:69-85 | the loop over the last 15 closes returns the RSI of the gains and losses in that window |
| `BatchLoops.ComputeTrueRanges` | app/market/indicators.py:88-99 | the loop lists the true range of every neighbouring pair |
| `BatchLoops.ComputeAdx` | app/market/indicators.py:126-155 | the loop over pairs returns the directional index of the window sums, each movement attributed to one side |
| `BatchLoops.DetectSwings` | app/market/advanced_structure.py:76-94 | the appending loop finds exactly the swing highs and lows with a full neighbourhood on both sides, in order |
| `BatchLoops.ComputeTrend` | app/market/trend.py:28-72 | the scoring steps return the trend whose score is the base plus the sum of five criteria, capped |
| `StreamingFacts.EmaSeriesSnoc` | app/market/indicators.py:57-66 | appending a value appends one average computed from the last one only |
| `StreamingFacts.MacdSeriesSnoc` | app/market/indicators.py:109-123 | a new close adds one MACD value, and only once both the 12 and the 26 average exist, so the signal's alignment is kept |
| `StreamingFacts.RsiWindow` | app/backtest/incremental_snapshots.py:234-249 | the RSI of any window of at least 15 closes is that of the whole history |
| `StreamingFacts.AdxWindow` | app/backtest/incremental_snapshots.py:267-293 | the directional index of a window of at least 16 candles is that of the whole history |
| `StreamingFacts.AtrWindow` | app/backtest/incremental_snapshots.py:259-265 | the ATR of a window of at least 15 candles is that of the whole history |
| `StreamingFacts.CompositeWindows` | app/backtest/incremental_snapshots.py:121-167 | structure, liquidity and regime of the bounded window are those of the whole history |
| `StreamingFacts.SwingsSnoc` | app/backtest/incremental_snapshots.py:376-393 | one more candle confirms at most the candle two places back and changes no earlier swing |
| `StreamingFacts.SwingInWindow` | app/backtest/incremental_snapshots.py:376-393 | the five-candle window decides a swing exactly as the whole history does |
| `IncrementalState.EmaState.Push` | app/backtest/incremental_snapshots.py:30-47 | the streaming average after every push is the batch average of everything pushed |
| `IncrementalState.SwingList.Append` | app/backtest/incremental_snapshots.py:376-393 | appending extends the shared list in place and changes nothing before the end |
| `IncrementalState.SwingView.At` | app/backtest/incremental_snapshots.py:75-82 | indexing from either end stays inside the frozen length |
| `IncrementalState.WindowsSuffice` | app/backtest/incremental_snapshots.py:169-232 | all windowed indicators of the bounded deque are those of the whole history |
| `IncrementalState.IncrementalMarketState.Push` | app/backtest/incremental_snapshots.py:121-167 | an accepted candle returns a snapshot equal in every field to the batch analysis of all accepted candles; a refused one changes nothing, and every earlier snapshot keeps its reading |
| `IncrementalState.IncrementalMarketState.UpdateSwings` | app/backtest/incremental_snapshots.py:376-393 | the swing lists stay the batch swings of the history |
| `IncrementalState.IncrementalMarketState.PushMacd` | app/backtest/incremental_snapshots.py:121-150 | the chained signal average stays the batch average of the MACD values of the history |
| `IncrementalState.IncrementalMarketState.IndicatorsNow` | app/backtest/incremental_snapshots.py:169-232 | the indicator record is the batch record of the whole history |
| `IncrementalState.IncrementalMarketState.TrendNow` | app/backtest/incremental_snapshots.py:329-374 | the duplicated scoring gives the batch trend |
| `IncrementalState.IncrementalMarketState.AdvancedNow` | app/backtest/incremental_snapshots.py:395-462 | the advanced structure read through the views is the batch structure |
| `IncrementalState.IncrementalMarketState.SnapshotsNeverChange` | app/backtest/incremental_snapshots.py:50-82 | every snapshot ever issued still reads as the batch analysis of the prefix it was issued for |
| `IncrementalState.IncrementalMarketState.Counters` | app/backtest/incremental_snapshots.py:92-119 | the count is the number of accepted candles and latest is the analysis of all of them |
| `IndicatorRanges.RsiInRange` | app/market/indicators.py:69-85 | the relative strength index is between 0 and 100 for every history |
| `IndicatorRanges.AdxInRange` | app/market/indicators.py:126-155 | so is the directional index |
| `IndicatorRanges.EmaBetween` | app/market/indicators.py:45-54 | an exponential average never leaves the range of the values it averages |
| `IndicatorRanges.TrendScoreInRange` | app/market/trend.py:28-72 | a trend score is between 0 and 100 |
| `SnapshotCursor.CompletedIsPrefix` | app/backtest/engine.py:331-341 | in chronological rows the candles complete at a time are a prefix |
| `SnapshotCursor.CompletedExactly` | app/backtest/engine.py:331-341 | the completed candles are, as often as they occur, exactly those whose start plus 900, 3600, 14400 or 86400 seconds is not after the decision time |
| `SnapshotCursor.ReferenceSays` | app/backtest/engine.py:324-342 | the answer is none while a timeframe has fewer than two ended candles, else for every timeframe the analysis of exactly its ended candles |
| `SnapshotCursor.NoLookAhead` | app/backtest/engine.py:324-342 | two sets of rows with the same candles ended by the decision time, counted in seconds and in any order, give the same answer |
| `SnapshotCursor.CatchUp` | app/backtest/incremental_snapshots.py:496-508 | the inner loop pushes exactly the completed rows not pushed yet |
| `SnapshotCursor.IncrementalSnapshotCursor.Reset` | app/backtest/incremental_snapshots.py:482-487 | starting over keeps what was handed out before readable |
| `SnapshotCursor.IncrementalSnapshotCursor.AdvanceFrame` | app/backtest/incremental_snapshots.py:496-508 | a timeframe's state has consumed exactly the candles complete at the decision time |
| `SnapshotCursor.IncrementalSnapshotCursor.SnapshotsAt` | app/backtest/incremental_snapshots.py:489-512 | for every decision time, backwards jumps and early none answers included, the answer reads exactly as filtering and recomputing from scratch |
| `SnapshotCursor.IncrementalSnapshotCursor.HandedIsReference` | app/backtest/incremental_snapshots.py:489-512 | every answer ever handed out still reads, through its shared views, as the reference for its decision time |
| `PaperOrders.ExecutorAnswers` | app/execution/paper_executor.py:26-75 | the executor's answers name the order, are stamped with the time, and a limit order fills at its own price exactly when the quote reaches it |
| `PaperOrders.ExecutorDecides` | app/execution/paper_executor.py:26-75 | refused are exactly unsound orders, ids seen before and missing prices; a market order fills at the quote; a limit order fills exactly when the quote is at its price or better, at its own price, and else waits |
| `PaperOrders.AnswersExactly` | app/execution/in_memory_order_repository.py:30-40 | a stored answer changes exactly from none or pending onwards and from accepted to an end, and the same answer again changes nothing |
| `PaperSafety.PositionBuilds` | app/execution/position_builder.py:9-37 | a filled result that names its order always makes a fill and a position under the order's id |
| `PaperSafety.FillAndPositionAgree` | app/execution/atomic_execution.py:72-82 | fill and position of one result describe the same trade in every field: identifiers, price, quantity, side, time, levels, leverage, collateral times leverage equal to the notional, no commission, nothing closed yet |
| `PaperSafety.SecondFillRefused` | app/execution/atomic_execution.py:84-91 | for a filled order the fill transaction rolls back exactly when the new result differs from the stored one, hence always under an advancing clock |
| `PaperSafety.SameInstantReopens` | app/execution/atomic_execution.py:84-91 | with a clock that stands still the same result is accepted again and reopens a closed position |
| `PaperSafety.FillKeeps` | app/execution/atomic_execution.py:55-98 | a fill applies exactly when the order is not decided yet, and then result, fill and position appear together and nothing else changes |
| `PaperSafety.AnswerKeeps` | app/execution/in_memory_order_repository.py:30-40 | a first answer that is no fill is accepted and keeps the stores consistent |
| `PaperSafety.PendingKeeps` | app/execution/pending_order_manager.py:33-49 | saving or removing a pending entry keeps the stores consistent |
| `PaperSafety.ManageKeeps` | app/position/manager.py:79-93 | replacing a position by a managed one keeps the stores consistent |
| `PaperRuns.SubmitGood` | app/execution/paper_runtime.py:32-59 | every durable state of a submission, replays included, is consistent and undoes nothing |
| `PaperRuns.RecheckGood` | app/execution/pending_order_manager.py:33-49 | so is every durable state of one recheck, which touches only its own order |
| `PaperRuns.CheckGood` | app/execution/pending_order_manager.py:30-50 | so is every durable state of a whole sweep over the pending orders |
| `PaperRuns.RefillLeavesStores` | app/execution/pending_order_manager.py:39-44 | after a crash between a fill and the removal of its pending entry, a sweep that meets it again at any position does what the entries before it do and then ends, leaving this order and all later ones as they are |
| `PaperRuns.RunInvariant` | app/execution/paper_runtime.py:32-59 | in every run of submissions, sweeps, recoveries, exits, crashes and restarts with a clock that does not go back, the stores agree about every order |
| `PaperRuns.RunGrows` | app/execution/in_memory_order_repository.py:9-15 | over any stretch of a run requests, terminal results and fills stay as they are and no position vanishes |
| `PaperRuns.OneFillOnePosition` | app/execution/atomic_execution.py:84-91 | at every moment an order has exactly one fill and one position when it is filled, and otherwise neither |
| `PaperRuns.PositionsOnlyManaged` | app/execution/atomic_execution.py:84-91 | no submission, sweep or recovery replaces a position |
| `PaperRuns.NothingToRepair` | app/recovery/reconciliation.py:62-119 | in a reachable state recovery finds nothing to rebuild |
| `PaperRuns.InspectExactly` | app/recovery/reconciliation.py:62-115 | recovery reports exactly: no order, a fill without a filled result, a filled result without a fill, several fills; it repairs exactly the missing position of a filled order with one fill |
| `PaperRuns.RepairKeepsIssues` | app/recovery/reconciliation.py:62-119 | a repair neither hides nor raises an issue nor makes another order's check raise |
| `PaperRuns.RebuildsTheFill` | app/recovery/reconciliation.py:112-114 | a position lost after a fill is rebuilt exactly as the fill wrote it |
| `PaperRuns.ReconcileOnlyAdds` | app/recovery/reconciliation.py:62-119 | in any state recovery writes only missing positions, each the one its order and stored result make |
| `PaperRuns.ReconcileResumes` | app/recovery/reconciliation.py:62-119 | recovery cut off after any repair and started again makes exactly the remaining repairs, so it is idempotent |
| `PaperRuntime.PaperTradingRuntime.ApplyFill` | app/execution/atomic_execution.py:55-98 | step by step with a failure possible at any write, either all three writes are durable or none; without a storage failure it does what the specification says |
| `PaperRuntime.PaperTradingRuntime.Execute` | app/execution/paper_executor.py:53-75 | the answer is the specified one; a filled order's id is remembered and no other, and a remembered id is refused |
| `PaperRuntime.PaperTradingRuntime.Submit` | app/execution/paper_runtime.py:32-59 | wherever it stops the durable state is one of the plan's; without a storage failure it raises exactly for a missing id, a changed request, a request without an answer or a refused fill, and otherwise returns the executor's answer for a new order or the stored one, with the order filled, waiting or refused accordingly |
| `PaperRuntime.PaperTradingRuntime.Recheck` | app/execution/pending_order_manager.py:33-49 | one pending order is filled and removed, refused or kept, wherever the step stops, and completely unless the store fails |
| `PaperRuntime.PaperTradingRuntime.Check` | app/execution/pending_order_manager.py:30-50 | the sweep ends in a durable state of its plan, in the last one when it completes or the store does not fail, and reports exactly the fills it made |
| `PaperRuntime.PaperTradingRuntime.Reconcile` | app/recovery/reconciliation.py:62-119 | the recovery loop writes exactly the planned repairs, counts them, and reports exactly the issues of the stores it started from |
| `PaperRuntime.PaperTradingRuntime.Restart` | app/execution/atomic_execution.py:89-91 | a restart loses exactly what was not committed |
| `PositionManager.OpenPosition.UpdateTrailingStop` | app/position/manager.py:62-76 | the stop moves to the trailing candidate or stays, and the answer tells which |
| `PositionManager.OpenPosition.CloseAt` | app/position/manager.py:79-93 | closing records price, result, time and reason, or changes nothing when the result cannot be computed |
| `PositionManager.OpenPosition.Manage` | app/position/manager.py:106-130 | one price stops out, takes profit or trails, in that order, and the answer says which |
| `PositionManager.ManageOpenPositions` | app/position/manager.py:96-140 | the sweep treats every position once at the price the provider gives when asked for it, reports what it did in all counters, and a missing or bad price stops it and leaves the later positions untouched |
| `PositionManager.ReportAddsUp` | app/position/manager.py:103-139 | every closing is one exit, no position is counted twice, and exactly the closed positions are reported |
| `PositionManager.PnlSign` | app/position/manager.py:38-45 | a long gains exactly above its entry, a short exactly below it, and what one gains the other loses |
| `PositionManager.PnlMagnitude` | app/position/manager.py:38-45 | the result times the entry price is collateral times leverage times the move in the trader's favour |
| `PositionManager.TickSays` | app/position/manager.py:62-130 | one price, exactly: it raises for a bad price or a position whose result cannot be computed; at the stop, else at the target, it closes with that result; else the stop moves to the policy's distance exactly when that is tighter |
| `PositionManager.TrailingStopIsBound` | app/position/manager.py:62-76 | while a position is open its stop is the tightest of the initial stop and every past price moved by the distance, the current price strictly on the safe side |
| `PositionManager.ExitsAtFirstCrossing` | app/position/manager.py:113-126 | it closes exactly at the first price crossing that bound or the target, at that price, stopped out or in profit accordingly |
| `Settlement.LedgerTotals` | app/position/settlement.py:81-97 | from any ledger row on, equity is where the row ended plus everything settled since |
| `Settlement.EquityIsExplained` | app/position/settlement.py:83-111 | persisted equity is the starting equity plus every ledger result, and never negative |
| `Settlement.SettleKeepsBooks` | app/position/settlement.py:56-116 | a settlement keeps the books: chained rows, one per position, with closed position and journal row beside it |
| `Settlement.SettlesExactly` | app/position/settlement.py:56-116 | a first settlement succeeds exactly for a closed, complete position of sound figures whose result the equity can bear, from an account in step; and what it then writes in every field |
| `Settlement.RepeatsExactly` | app/position/settlement.py:64-79 | a repeated one succeeds exactly for the result on record with nothing net settled since, reports the recorded row and changes nothing |
| `Settlement.ReplayExactly` | app/position/settlement.py:64-79 | settling a settled position again with the same result is accepted exactly when the later settlements net to zero, and then changes nothing |
| `Settlement.ReplayCanRaise` | app/position/settlement.py:64-79 | two settlements suffice for the replay of the first to raise |
| `Settlement.RunKeepsBooks` | app/position/settlement.py:56-116 | in every run of settlements and saves, each possibly cut short, the books are right and the ledger only grows at its end |
| `Settlement.SettlementService.WriteAll` | app/position/settlement.py:99-107 | the four writes become durable together or not at all, and fail only for a store failure or a journal that says otherwise |
| `Settlement.SettlementService.Settle` | app/position/settlement.py:56-116 | the service does what the specification says, raising what it says or for a store failure, then without a trace; in-memory equity equals persisted equity afterwards |
| `Settlement.SettlementService.PersistManagement` | app/application/runtime_cycle.py:158-188 | after a cycle's exits every position still open is stored as managed, every closed one is settled, every new ledger row is one of these, and no other position changes even when it stops early; without a store failure it stops exactly at the first settlement refused in turn |
| `Settlement.SettlementService.Restart` | app/application/composition.py:225 | a restarted account takes the persisted equity |
| `Publication.VerifiedHolds` | app/data/research_object_store.py:269-359 | a verified bundle has a valid manifest, its four partitions with the named hashes and a matching checksum file |
| `Publication.VerifiesExactly` | app/data/research_object_store.py:269-359 | a bundle verifies exactly when its manifest reads and every rule holds, each written out: fingerprints, fixed terms, prefix, four paths, four hashes, the checksum file |
| `Publication.RestorePrefixExactly` | app/data/research_object_restore.py:21-31 | paths are derived exactly for 64 lower-case hexadecimal digits and a symbol of letters, digits and / _ -, and how the symbol is written in them |
| `Publication.LocalConforms` | app/data/research_object_store.py:468-498 | everything a publisher of a verified bundle uploads is what its content-addressed key stands for |
| `Publication.PublisherKeepsStore` | app/data/research_object_store.py:436-465 | one step of a publisher keeps the store safe and what the publisher knows of it true |
| `Publication.RunKeeps` | app/data/research_object_store.py:436-498 | every interleaving of publishers and restorers, crashes included, keeps the invariant |
| `Publication.ManifestMeansBundle` | app/data/research_object_store.py:468-498 | in every interleaving a visible manifest means that the objects at its prefix verify as a complete bundle with that fingerprint |
| `Publication.PartsInOrder` | app/data/research_object_store.py:468-498 | whoever puts a part has, at earlier steps, read back with the expected hash every part before it: 15m, 1h, 4h, 1d, checksums, manifest |
| `Publication.ManifestAfterAllParts` | app/data/research_object_store.py:468-498 | in every run whoever puts a manifest has, at earlier steps, read back each of the five other parts with the expected hash |
| `Publication.ManifestChangesArePuts` | app/data/research_object_store.py:493-497 | a manifest appears or changes only by such a put of a publisher of its prefix |
| `Publication.FailedForGood` | app/data/research_object_store.py:459-465 | once a publisher has failed it stays as it is in the rest of the run and changes no object |
| `Publication.OnlyCompletePublishersCommit` | app/data/research_object_store.py:493-497 | the single step behind it: a manifest changes only with five parts secured, and a part becomes secured only by reading it back with the expected hash |
| `Publication.FetchedRestoresSucceed` | app/data/research_object_restore.py:126-149 | a restore that has fetched all six objects, at whatever moments, passes verification |
| `Publication.CommittedDownloadsProceed` | app/data/research_object_restore.py:126-138 | once the manifest is visible every download finds its object, and the manifest is accepted exactly when it names the symbol |
| `Publication.AcceptedBundlesAgree` | app/data/research_object_restore.py:140-144 | whatever the store served, two accepted bundles with one fingerprint have the same identity and partitions |
| `Publication.RestoredIsAskedFor` | app/data/research_object_restore.py:92-153 | what a restore returns complies with every rule and has the symbol and fingerprint asked for |
| `Publication.ManifestRewrittenExactly` | app/data/research_object_store.py:436-444 | other manifest bytes verify under the same prefix exactly when they read as a valid manifest of the same identity |
| `Publication.TwoBundlesOnePrefix` | app/data/research_object_store.py:436-444 | one prefix does not fix the bytes of its manifest: under one and the same reader two byte strings that read alike, or two manifests that differ in an unnamed key only, are both verified |
| `Publication.AnyBytesCanBeManifest` | app/data/research_object_store.py:436-444 | no byte string is ruled out: for every verified bundle some collision-free format reads it as the same manifest |
| `Publication.OnePrefixOnePartitions` | app/data/research_object_store.py:436-444 | what one prefix does fix: two verified bundles of it have the same identity and the same bytes of every partition |
| `Publication.RefusedExactly` | app/data/research_object_store.py:436-465 | a publisher that finds an object in a safe store is refused exactly when the stored bytes differ from its own file's, never for a partition |
| `Publication.RestoresAgree` | app/data/research_object_restore.py:92-153 | any two successful restores of a dataset in any run return the same identity and the same partitions |
| `Publication.CorruptionIsNoticed` | app/data/research_object_store.py:332-344 | replacing a partition verifies again exactly when the bytes are the same |
| `ResearchRepository.B2Repository.EnsureExactObject` | app/data/research_object_store.py:436-465 | with others acting between any two calls, success means the object is there with the expected hash, and without a failed call only another hash is refused |
| `ResearchRepository.B2Repository.Publish` | app/data/research_object_store.py:468-498 | parts are secured in order, wherever it stops; without a failed call it stops early only at the checksums or the manifest, where the store holds something else; the partitions secured are the bundle's own, and what a finished one leaves verifies |
| `ResearchRepository.BundleCache.Restore` | app/data/research_object_restore.py:92-153 | a restored directory is the accepted bundle; an existing one is never overwritten, reused only when valid, and then nothing remote is touched; with the manifest visible a restore without a failed call succeeds exactly when that names the symbol |
| `BacktestTrades.ExitsConserve` | app/backtest/engine.py:155-185 | a bar moves equity by exactly the results it books and the change of what the open trades have cost |
| `BacktestTrades.LiquidateConserves` | app/backtest/engine.py:250-275 | closing everything at the end books exactly what it adds to equity |
| `BacktestTrades.ProcessExits` | app/backtest/engine.py:155-185 | the loop over open trades computes remaining trades, records and equity as specified |
| `BacktestTrades.CloseAll` | app/backtest/engine.py:250-275 | the closing loop computes records and equity as specified |
| `BacktestTrades.FundingIsTransfer` | app/backtest/costs.py:56-66 | what one side pays in funding the other receives, and longs pay at a positive rate |
| `BacktestTrades.GrossSign` | app/backtest/engine.py:402-406 | a long gains exactly above its entry price and a short exactly below it |
| `BacktestTrades.GrossMonotone` | app/backtest/engine.py:402-406 | the result follows the exit price in the direction of the trade, strictly for a position of positive size |
| `BacktestTrades.RoundTripCosts` | app/backtest/costs.py:35-51 | spread and slippage only cost: in and out at one market price never gains |
| `BacktestTrades.ExitIsWorstCase` | app/backtest/engine.py:409-422 | a trade stays open exactly while no price of the bar touches a level, and the exit taken gives the least result of all levels the bar reaches, except exactly when both are reached and the stop is the better one |
| `BacktestEngine.OpensWithinLimits` | app/backtest/engine.py:344-380 | an opened trade risks exactly the per-trade budget and keeps aggregate risk and capital within their limits |
| `BacktestEngine.BarsConserve` | app/backtest/engine.py:118-186 | after every bar equity is the initial equity plus booked results minus entry commission and funding of open trades |
| `BacktestEngine.RunConserves` | app/backtest/engine.py:241-291 | at the end nothing is open, every entry has its record, and final equity is initial plus all results |
| `BacktestEngine.BarsDependOnThePast` | app/backtest/engine.py:118-239 | the state after some bars depends only on them and on the decisions taken by then |
| `BacktestEngine.TradeBar` | app/backtest/engine.py:118-186 | entry, funding and exits of one bar give the specified state, or raise with the entry |
| `BacktestEngine.StepBar` | app/backtest/engine.py:118-239 | one pass of the loop computes the specified next state or raises with it |
| `BacktestEngine.Conclude` | app/backtest/engine.py:241-275 | a leftover signal is noted and open trades are closed at the last close as specified |
| `BacktestEngine.RunBacktest` | app/backtest/engine.py:99-275 | the whole event loop computes the specified run |
| `BacktestCausality.NoCandleFromTheFuture` | app/backtest/engine.py:311-342 | rows that hold the same candles ended by every decision time so far give the same equity, trades and events, whatever the other candles are |
| `BacktestCausality.Decide` | app/backtest/engine.py:311-322 | one advance of the shared cursor, read through its views, is the decision from filtering and recomputing |
| `BacktestCausality.StepOnCursor` | app/backtest/engine.py:118-239 | one bar with the cursor is one bar with the stateless reference |
| `BacktestCausality.RunOnCursor` | app/backtest/engine.py:99-275 | the whole backtest on one cursor advanced bar by bar returns what the run with the stateless reference returns |
| `TradeLife.EntryMoved` | app/backtest/costs.py:35-51 | entry and exit prices are the raw price moved against the trader by half the spread and the slippage, in percent |
| `TradeLife.OneMoreBar` | app/backtest/costs.py:56-65 | every bar held adds the same funding, a 96th of the daily percentage, paid by longs and received by shorts |
| `TradeLife.EntrySays` | app/backtest/engine.py:344-380 | what an entry comes to: the moved open, the amount whose stop loses exactly its share of the equity, and each refusal exactly |
| `TradeLife.RiskAndCapitalOfOne` | app/backtest/engine.py:344-400 | open risk and capital add up over the open trades: what the stop costs, and the amount |
| `TradeLife.EnterSays` | app/backtest/engine.py:118-153 | a waiting signal is opened exactly when it can be taken and fits the limits, at the moved open, for that amount and its commission; otherwise nothing is opened or paid |
| `TradeLife.EntrySeesTheOpen` | app/backtest/engine.py:344-380 | bars that agree in time and open give the same entry, whatever their high, low, close and volume |
| `TradeLife.EveryTradeExplained` | app/backtest/engine.py:99-275 | every trade a run reports was signalled at one bar, opened at the open of the next in the test, untouched while it ran, paid funding for every bar, and closed at the level touched or at the last close, with that result |
| `TradeLife.BarSays` | app/backtest/engine.py:118-239 | what one bar adds to events, refusals and curve, inside the test and before it |
| `PortfolioBacktest.PassConserves` | app/backtest/portfolio.py:100-184 | each pass over the symbols of a timestamp conserves the shared equity |
| `PortfolioBacktest.MomentsConserve` | app/backtest/portfolio.py:89-184 | after every timestamp shared equity is conserved and no symbol holds two trades |
| `PortfolioBacktest.PortfolioConserves` | app/backtest/portfolio.py:186-257 | at the end nothing is open and the portfolio gain is the sum of the per-symbol gains |
| `PortfolioBacktest.StartConserves` | app/backtest/portfolio.py:81-88 | a book without trades at the configured equity satisfies the invariant every run keeps |
| `PortfolioBacktest.SharedOpensWithinLimits` | app/backtest/portfolio.py:259-313 | a shared entry keeps aggregate risk, capital and correlated risk within their limits |
| `PortfolioLife.SharedEntrySays` | app/backtest/portfolio.py:259-313 | what a shared entry comes to, priced at the moved open, with aggregate, 2 percent correlated and capital limits exactly |
| `PortfolioLife.OverOneSymbol` | app/backtest/portfolio.py:259-313 | and over the symbols |
| `PortfolioLife.SharedEnterSays` | app/backtest/portfolio.py:100-133 | a symbol's waiting signal is opened exactly when the symbol is free and the signal can be taken and fits beside everything open; otherwise nothing is opened or paid |
| `PortfolioLife.SharedEntrySeesTheOpen` | app/backtest/portfolio.py:259-313 | bars that agree in time and open give the same shared entry |
| `PortfolioLife.CorrelatedWithOne` | app/backtest/portfolio.py:315-338 | every other symbol adds its open risk times the positive part of its coefficient, at most once the risk |
| `PortfolioLife.EveryPortfolioTradeExplained` | app/backtest/portfolio.py:62-257 | every trade of every symbol has the life it would have in the single-symbol loop over the bars the timeline meets |
| `PortfolioLife.EveryBarMet` | app/backtest/portfolio.py:89-100 | an ordered timeline that names the bars of a symbol meets all of them in order |
| `PortfolioLife.PassCounts` | app/backtest/portfolio.py:100-184 | entries grow by the trades that appear, no trade vanishes without its record, refusals are counted for forbidden shorts and rejecting decisions |
| `PortfolioLife.CurveSays` | app/backtest/portfolio.py:89-163 | the i-th point of the curve is the shared equity after the i-th timestamp |
| `PortfolioBacktest.Sweep` | app/backtest/portfolio.py:100-184 | the loops over the sorted symbols compute the specified pass |
| `PortfolioBacktest.RunLoop` | app/backtest/portfolio.py:62-215 | the multi-symbol event loop computes the specified run |
| `Diagnostics.SignalAttritionDiagnostics.Record` | app/backtest/diagnostics.py:43-65 | every counter stays the number of recorded events or reasons it stands for |
| `Diagnostics.SignalAttritionDiagnostics.ToPayload` | app/backtest/diagnostics.py:67-102 | the report is the specified function of the events recorded |
| `Diagnostics.BarsCount` | app/backtest/engine.py:118-239 | after every bar rejections, entries and ready signals match the events emitted |
| `Diagnostics.DiagnosticsNeverDiverge` | app/backtest/locked_baseline_runner.py:137-150 | for every run that returns none of the three diagnostic checks raises |
| `Attribution.BuildDailyRegimeTimeline` | app/backtest/regime_attribution.py:41-62 | the loop makes one point for every prefix of the ordered daily candles |
| `Attribution.TimelineSorted` | app/backtest/regime_attribution.py:41-62 | the timeline is ordered by effective time |
| `Attribution.BucketFor` | app/backtest/regime_attribution.py:65-77 | bisection finds the latest point already effective |
| `Attribution.BucketIsCompletedHistory` | app/backtest/regime_attribution.py:65-77 | an event falls in the regime of exactly the daily candles completed by its time |
| `Attribution.AttributeEvents` | app/backtest/regime_attribution.py:138-162 | the nested counters hold the specified counts for every grouping, and it raises exactly when an event has no regime |
| `Attribution.RegimesPartitionEvents` | app/backtest/regime_attribution.py:195-227 | over the regimes every tally adds up to its total |
| `Attribution.RegimesPartitionTrades` | app/backtest/regime_attribution.py:228-241 | over the regimes trades and results add up to all trades and all results |
| `Attribution.RunSince` | app/backtest/engine.py:118-275 | with ordered bars no event, entry or record of a run is earlier than the start of its evaluation, wherever that start lies |
| `Attribution.RegimeReportNeverRaises` | app/backtest/regime_attribution.py:195-241 | for every run over ordered bars that returns, evaluated from any time with a regime in effect, all regime checks pass |
| `Attribution.BuildDirectionFlow` | app/backtest/counterfactual_attribution.py:103-158 | the counters by direction are the specified ones |
| `Attribution.DirectionReportNeverRaises` | app/backtest/counterfactual_attribution.py:202-230 | for every run that returns all direction checks pass |
| `MarketCache.UpsertedKeeps` | app/data/cache.py:39-46 | an upsert keeps the series ordered, one candle per time, the latest write winning |
| `MarketCache.NewestCommutes` | app/data/cache.py:39-46 | keeping only the newest N never loses what a later put could bring back |
| `MarketCache.ListsUnique` | app/data/historical_store.py:29-38 | the history lists under a key in exactly one way |
| `MarketCache.InvisibleExactly` | app/data/platform.py:49-83 | the cache is invisible to every read exactly when it is a suffix of the stored series |
| `MarketCache.SuffixExactly` | app/data/platform.py:49-83 | part of an ordered series is its newest part exactly when everything else in it is older |
| `MarketCache.WritesExactly` | app/data/platform.py:76-83 | any batch written to both levels leaves an invisible cache invisible exactly when all it lacks and the batch does not rewrite is older than all it keeps |
| `MarketCache.CandleExactly` | app/data/platform.py:107-114 | one candle leaves the cache invisible exactly when it is not older than everything stored that the cache lacks, or the cache is full |
| `MarketCache.LateCandleExactly` | app/data/platform.py:107-114 | the same step for a cache with room, whatever it holds |
| `MarketCache.LateCandleAfterRestart` | app/data/platform.py:107-114 | its case of an empty cache: the first candle after a restart must not be older than anything stored |
| `MarketCache.RefillHarmless` | app/data/platform.py:72-74 | putting the newest stored candles back keeps an invisible cache invisible |
| `MarketCache.CalledExactly` | app/data/platform.py:49-114 | one call of any kind leaves the cache of a key invisible exactly when what it writes to both levels is harmless |
| `MarketCache.OneCandleHarmless` | app/data/platform.py:107-114 | for one arriving candle harmless means not older than anything stored that the cache lacks, or a full cache |
| `MarketCache.InvisibleThroughout` | app/data/platform.py:49-114 | over any run of batches, reads of any key with their refills and provider fetches, and restarts, the cache of a key is invisible at every moment exactly when everything written to both levels was harmless to it |
| `MarketCache.UnseenRunsAnswerPlainly` | app/data/platform.py:49-114 | while the cache of every key asked for is invisible, restarts included, all answers and the whole history are those of a platform without a cache |
| `MarketCache.NewestThroughout` | app/data/cache.py:39-46 | without a restart the cache of every key holds its newest N at every moment of every run |
| `MarketCache.CacheIsTransparent` | app/data/platform.py:49-114 | starting with the newest N of every key, over any mix of batches and reads on any keys every answer and the history are those without a cache, and every key keeps its newest N |
| `MarketCache.ServeNew` | app/data/platform.py:16-114 | a new platform, used in any way, answers every read as if there were no cache |
| `MarketCache.MarketDataPlatform.Restart` | app/data/cache.py:54-56 | a new process over the durable history starts with an empty, invisible cache |
| `MarketCache.MarketDataPlatform.PutCandles` | app/data/cache.py:39-46 | the loop puts candle by candle, each series cut to its newest N |
| `MarketCache.MarketDataPlatform.Ingest` | app/data/platform.py:107-114 | candles written to both levels: a cache holding the newest N still does, an invisible one stays so exactly when the candles are harmless to it |
| `MarketCache.MarketDataPlatform.Load` | app/data/historical_store.py:29-38 | collecting, sorting and cutting returns the newest candles of the key |
| `MarketCache.MarketDataPlatform.Refill` | app/data/platform.py:72-74 | the stored candles just read go back into the cache without becoming visible |
| `MarketCache.MarketDataPlatform.GetCandles` | app/data/platform.py:49-83 | in any state the answer is cache, then history, then provider, and both levels change for every key as specified; it is what history and provider alone would return whenever the cache of the key is invisible, and every key that held its newest N still does |
| `MarketCache.MarketDataPlatform.Serve` | app/data/platform.py:49-114 | a whole run of calls on the object leaves the levels and gives the answers of the run on values |
| `MarketReads.HistoryIsLog` | app/data/historical_store.py:25-39 | what is listed under a key is what all batches and fetches wrote, provider answers being written exactly when too few candles were there |
| `MarketReads.ReadSays` | app/data/platform.py:49-83 | a read without a cache returns the newest candles written for the series in any letter case, the last written for each time, oldest first, or the provider's answer when there are too few times |
| `MarketReads.ServeNew` | app/data/platform.py:16-114 | and so does every read of a new platform with its cache |
| `CandleQuality.ValidateCandles` | app/data/quality.py:101-188 | no reason is reported exactly for a contiguous series of well-shaped candles of the timeframe |
| `DealsArchive.ArrivalOrderIrrelevant` | app/data/gateio_deals_archive.py:59-75 | trades with distinct ids fold to the same bucket in every order |
| `DealsArchive.FoldedIsOhlcv` | app/data/gateio_deals_archive.py:59-75 | open and close come from the earliest and latest trade key, volume is the total quote amount |
| `DealsArchive.FoldedExtremes` | app/data/gateio_deals_archive.py:59-75 | high and low are the extreme trade prices and enclose open and close |
| `DealsArchive.FiveMinuteBucket.Push` | app/data/gateio_deals_archive.py:59-75 | the in-place update is the specified fold step |
| `DealsArchive.ReadRows` | app/data/gateio_deals_archive.py:301-359 | it raises exactly for an invalid row or a repeated id in range, and otherwise every bucket holds its trades |
| `DealsArchive.RebuiltIsValid` | app/data/gateio_deals_archive.py:381-384 | the quality check can never reject what was rebuilt |
| `DealsArchive.ParseArchive` | app/data/gateio_deals_archive.py:282-390 | reconstruction succeeds exactly for a clean archive with a trade in every bucket of the grid and none outside |
| `DealsArchive.ReorderedArchive` | app/data/gateio_deals_archive.py:282-390 | an archive in any other row order rebuilds to the same candles |
| `ArchiveMeaning.CleanExactly` | app/data/gateio_deals_archive.py:301-359 | rows are accepted exactly with positive price, amount not negative, side 1 or 2, and no id twice in range |
| `ArchiveMeaning.TruncatedIs` | app/data/gateio_deals_archive.py:345-346 | the whole seconds of a deal's time are cut toward zero |
| `ArchiveMeaning.ArchiveSays` | app/data/gateio_deals_archive.py:282-390 | candle k starts 300 k seconds after the start and says of the deals of its five minutes: price of the earliest and latest by time and id, extremes, total price times amount |
| `CandleAggregation.MergeOfMerges` | app/data/gateio_deals_archive.py:412-423 | merging merged groups is merging everything at once |
| `CandleAggregation.MergeSays` | app/data/gateio_deals_archive.py:412-423 | a merged candle has the first open, the last close, the extremes of its group, each reached, and the total volume |
| `CandleAggregation.GroupAt` | app/data/gateio_deals_archive.py:405-423 | candle k of the coarse series is the merge of the k-th group |
| `CandleAggregation.CoarseIsMergeOfFine` | app/data/gateio_deals_archive.py:393-430 | the coarse series is the group-wise merge of the finer series |
| `CandleAggregation.VolumeConserved` | app/data/gateio_deals_archive.py:412-423 | aggregation neither loses nor repeats volume |
| `CandleAggregation.GroupsValid` | app/data/gateio_deals_archive.py:425-430 | whole groups of a valid base make a contiguous, well-shaped coarser series |
| `CandleAggregation.Aggregate` | app/data/gateio_deals_archive.py:393-430 | the loop returns the merged groups, and never raises for a valid aligned base of whole groups |
| `CandleBuilders.CandleBuilder.AddTrade` | app/data/candle_builder.py:42-70 | a trade is accepted exactly when its bucket is not closed yet, then exactly one bar changes or starts, and the bar returned is the current one when a later bucket starts |
| `CandleBuilders.NestedStart` | app/data/candle_builder.py:26-31 | a coarse bucket is found just as well from the start of the fine one |
| `CandleBuilders.AcceptedByAll` | app/data/candle_builder.py:51-52 | what the finest builder accepts every coarser one accepts, at whatever position it stands |
| `CandleBuilders.PushKeepsAligned` | app/data/candle_builder.py:42-70 | an accepted trade keeps every coarse series the regrouping of the fine one |
| `CandleBuilders.AllOrNothingExactly` | app/data/platform.py:96-105 | in any aligned state and any order a trade is taken by all builders or none exactly when the first refuses it or the finest accepts it |
| `CandleBuilders.LateTradeSplits` | app/data/platform.py:96-105 | for any two nested timeframes there is an aligned state and a late trade that the coarse one accepts and the fine one refuses |
| `CandleBuilders.FinestFirstExactly` | app/data/platform.py:96-105 | an order of nested timeframes keeps every trade all-or-nothing in every aligned state exactly when a finest one comes first |
| `CandleBuilders.CoarseFirstCountsRefused` | app/data/platform.py:96-105 | an instance: hour before quarter counts a late trade in the hour only, quarter before hour refuses it |
| `CandleBuilders.GroupedIsMerge` | app/data/candle_builder.py:54-66 | every group is the OHLCV merge, in order of arrival, of exactly the bars or trades of its bucket, which may arrive in any order inside it |
| `CandleBuilders.GroupedVolume` | app/data/candle_builder.py:54-66 | grouping bars into buckets neither loses volume nor counts it twice, fine bars and single trades alike |
| `CandleBuilders.VolumeGrows` | app/data/candle_builder.py:42-70 | in any order of the builders and from any state the volume of every builder's series grows by exactly the quantities of the trades it took |
| `CandleBuilders.BarsAreTrades` | app/data/candle_builder.py:42-83 | in any order of new builders the bars of each are exactly the trades it took: one bar per bucket, the merge of that bucket's trades as they arrived, none left out |
| `CandleBuilders.AllTakeTheAccepted` | app/data/platform.py:96-105 | with a finest timeframe first every builder takes exactly the accepted trades |
| `CandleBuilders.NoTradeLostOrTwice` | app/data/platform.py:85-105 | with a finest timeframe first the bars of every timeframe and symbol are exactly the accepted trades, each in one bar, with their total quantity |
| `CandleBuilders.FinishedBarsHandedOn` | app/data/platform.py:96-105 | every finished bar is handed on exactly once, as it finally is and in its order |
| `CandleBuilders.IngestTrade` | app/data/platform.py:96-105 | in whatever order, the builders before the first refusal have taken the trade, the others and every other symbol are untouched, and exactly a trade that all take hands on the bars it closes |
| `CandleBuilders.IngestKeepsAligned` | app/data/platform.py:96-105 | with a finest timeframe first a trade reaches all builders or changes none, and the series of every symbol stay aligned |
| `CandleBuilders.MakeBuilders` | app/data/platform.py:29 | new builders of nested timeframes start aligned for every symbol |
| `CandleBuilders.PlatformFramesNested` | app/data/candle_builder.py:11-23 | the timeframes of 15 minutes, 1 hour, 4 hours and 1 day are all nested in the first |
| `CandleBuilders.IngestAll` | app/data/platform.py:85-105 | after any number of trades of any symbols every series is what the trades make of it, every trade is accepted and hands on bars as specified, and with a finest timeframe first all symbols stay aligned |
| `TradeCandles.AdmittedExactly` | app/data/platform.py:85-105 | a trade is accepted exactly when it is well formed and no accepted earlier one of its symbol, in any letter case, falls into a later step of the finest timeframe |
| `TradeCandles.CandlesSay` | app/data/candle_builder.py:42-83 | in every timeframe the bars start on multiples of the step, one for every step with an accepted trade, and say exactly first, last, highest and lowest price and total quantity of those trades |
| `TradeCandles.IngestFromStart` | app/data/platform.py:29-105 | builders made new and fed any trades accept exactly these trades and hold exactly these bars |
| `RiskGates.RoundedDown` | app/risk/position_sizing.py:8-12 | rounding gives the largest whole number of steps that fits |
| `RiskGates.RiskIsLoss` | app/risk/risk_math.py:11-16 | the risk amount of a quantity is what it loses at its stop, with leverage |
| `RiskGates.SizeWithinRisk` | app/risk/position_sizing.py:15-28 | a sized position never risks more at its stop than it was sized for |
| `RiskGates.SizeIsLargest` | app/risk/position_sizing.py:15-28 | the size is the largest whole number of steps, not below the minimum, whose loss at the stop is within the risk: one step more would lose more; and it is zero exactly when no such number fits |
| `RiskGates.SizedNeverOverBudget` | app/risk/risk_engine.py:92-168 | the per-trade and the aggregate rejection never fire, and an approved risk fits both budgets |
| `RiskGates.GateSays` | app/risk/risk_engine.py:92-184 | the verdict for every input it does not raise on: each early refusal, the largest allowed size, and every other reason exactly when its limit is passed |
| `RiskGates.GateRaises` | app/risk/risk_engine.py:51-95 | for which inputs the gate raises, exactly |
| `RiskGates.ApprovedMeans` | app/risk/risk_engine.py:92-168 | an approved candidate is within every limit of the policy and of its contract |
| `RiskGates.ApprovedIsLargest` | app/risk/risk_engine.py:92-168 | one step more of an approved candidate would lose more than the smaller of the per-trade budget and what was left of the aggregate one |
| `RiskGates.PortfolioSays` | app/portfolio/portfolio_engine.py:40-104 | the portfolio gate reports each limit exactly when it is passed |
| `RiskGates.GatesAgree` | app/application/opportunity_pipeline.py:180-239 | after the risk gate approves, the portfolio gate refuses exactly for futures capital over its limit, and then the asset is not crypto or leverage is at most 1 |
| `RiskGates.CoefficientSymmetric` | app/portfolio/correlation.py:35-47 | the correlation lookup is symmetric and does not see letter case |
| `RiskGates.OneExposed` | app/portfolio/correlation.py:47-71 | an open position counts its risk times its coefficient when that is positive, and exposure adds up over positions |
| `RiskGates.ExposureShifts` | app/portfolio/correlation.py:47-71 | the candidate's own risk only shifts its correlated exposure |
| `RiskGates.EmptySymbolExactly` | app/portfolio/portfolio_engine.py:66-75 | with a matrix and an empty candidate symbol, after an approval the portfolio gate raises exactly for a plain coefficient outside -1 to 1, and otherwise refuses exactly when the candidate and the open risk weighted by it exceed the correlated budget, or for futures capital |
| `RiskGates.EmptySymbolDisagrees` | app/portfolio/portfolio_engine.py:66-75 | an instance: the risk gate approves such a candidate and the portfolio gate refuses it for correlated risk |
| `OpportunityPipeline.LateRejectionsAreFutures` | app/application/opportunity_pipeline.py:225-257 | what the portfolio gate still turns away is futures capital only |
| `OpportunityPipeline.GateSays` | app/application/opportunity_pipeline.py:155-257 | held first, then what the risk gate refuses, then futures capital over its limit; everything else is handed on |
| `OpportunityPipeline.Evaluate` | app/application/opportunity_pipeline.py:155-265 | every signal is counted at exactly one gate, and exactly those that pass all gates are handed on |
| `RiskReservation.ReservePendingOrderRisk` | app/execution/risk_reservation.py:21-59 | the loop totals the reserved risks and reports exactly the orders without a price |
| `RiskReservation.FillMovesReservedRisk` | app/execution/position_builder.py:20-37 | a filled limit order's position carries exactly the risk reserved for the order |
| `RiskReservation.CommittedRiskUnchanged` | app/execution/risk_reservation.py:35-59 | over lists, reserved plus open risk is the same before and after the fill |
| `RiskReservation.CommittedMoves` | app/application/composition.py:326-344 | committed risk moves exactly by the change of the one order's share, whatever else is stored |
| `RiskReservation.RecheckCommits` | app/execution/pending_order_manager.py:39-49 | the committed risk of every durable state of a recheck: counted twice between the fill and the removal of the pending entry, unchanged after it, less the reserved risk after a refusal, and the same while the order waits |
| `RiskReservation.PreparedReserve` | app/application/order_preparation.py:54-79 | the reserved risk of a prepared limit order times its leverage is the risk the gate assessed |
| `Drawdown.MaximumDrawdownPercent` | app/backtest/robustness_sampling.py:58-78 | the loop returns the deepest clamped fall of the path, or raises for an equity that is not positive |
| `Drawdown.DrawdownIsDeepest` | app/backtest/robustness_sampling.py:58-78 | the drawdown is the deepest fall from any positive equity of the path to any later one: none is deeper and one is as deep |
| `Drawdown.DrawdownBounded` | app/backtest/robustness_sampling.py:67-78 | no path falls further than its losses, capped at the initial equity |
| `Drawdown.LossesFirstAttain` | app/backtest/robustness_sampling.py:41-42 | a path with its losses first falls by all of it |
| `Drawdown.LossClusterIsWorstFirst` | app/backtest/robustness_sampling.py:41-44 | both loss-first orders are the same path |
| `Drawdown.SampleKeeps` | app/backtest/robustness_sampling.py:41-46 | every one of these modes only reorders the results |
| `Drawdown.WorstFirstIsWorst` | app/backtest/robustness_sampling.py:41-46 | no permutation of the results draws down further than worst first, whose value is exactly what can be lost |
| `Drawdown.WinClusterFallsFromThePeak` | app/backtest/robustness_sampling.py:45-46 | with the gains clustered first the path falls from the initial equity plus all gains by exactly what is lost, never further than worst first |
| `Backfill.CollectedIsGrid` | app/data/historical_backfill.py:333-349 | any series returned is the whole grid, each point once |
| `Backfill.BackfillIsComplete` | app/data/historical_backfill.py:270-331 | for every chunk size of at least 2 the overlapping windows put the served series back together, candle for candle |
| `Backfill.BackfillStore.CollectTimeframe` | app/data/historical_backfill.py:259-349 | cut off anywhere and resumed from whatever checkpoints exist, a finished run returns the same result |
| `Backfill.MergedIsGrid` | app/data/locked_dataset_merge.py:181-199 | contiguous verified shards put end to end are the grid of the whole range |
| `Backfill.MergeShards` | app/data/locked_dataset_merge.py:144-199 | the merge succeeds exactly for shards of one identity that are contiguous once sorted; its later checks never reject |
| `ParameterSpace.DecodeIsGrid` | app/research/parameter_space.py:96-104 | the i-th index decodes to the i-th element of the Cartesian product, which has no others |
| `ParameterSpace.EveryCombinationHasIndex` | app/research/parameter_space.py:66-74 | every combination is the decoding of an index in range |
| `ParameterSpace.DecodeInjective` | app/research/parameter_space.py:66-74 | different indexes decode to different parameter sets |
| `ParameterSpace.SetFromIndex` | app/research/parameter_space.py:66-74 | the divmod loop decodes the index, or raises when it is out of range |
| `ParameterSpace.EnumerateParameterSets` | app/research/parameter_space.py:77-109 | grid search lists the whole grid or refuses; sampled search returns as many sets as the limit and the space allow, those of the drawn indexes, none of them twice |
| `ParameterSpace.SamplesNeverRepeat` | app/research/parameter_space.py:106-109 | sampling without repeated indexes never repeats a parameter set |

## Left out

- Rounding of `Decimal` arithmetic: all amounts are exact reals, so claims about equality of amounts are about exact arithmetic.
- Batch and streaming analysis agree on candles in strict time order; the errors the source raises for other inputs are modelled, but the streaming side of a list with repeated times is not.
- The strategy's own rules, the context engine and the contract registry: decisions are arbitrary inputs of the backtest and of the gates.
- SQLite, HTTP, Parquet, file system and JSON: only their abstract effect is kept (atomic commit and rollback, maps of keys to bytes, upsert by key, one answer of the provider per request after its retries).
- PaperRuns.RunInvariant: pending orders refused on recheck keep the stored result ACCEPTED, as in the source, so nothing is claimed about agreement of pending and order status there.
- PaperRuntime.PaperTradingRuntime.Check: the listing of active orders and its order by acceptance time is an input, and a sweep sees one time.
- Settlement.SettlementService.Settle: the JSON check of the decision record inside the journal entry is left out.
- Settlement.RunKeepsBooks: the saves of open positions are those of positions not settled yet, which is what the cycle's own listing of open positions gives it.
- Publication.RunKeeps: every publisher starts from a bundle it has verified and its local files do not change while it uploads; writers that skip verification are not part of the state machine.
- ResearchRepository.B2Repository.Others: other participants are known only by the contract of this method, the guarantee that every put of the repository is proved to give.
- Bucket versions, temporary directory names and the copying of files during a restore.
- BacktestEngine.RunConserves: claims are about runs that return; a run raises when equity is no longer positive at an entry, a percentage is out of range, an entry price is zero, or an analysis fails.
- Win rate, profit factor, total return and the drawdown of the result record: easy sums over the trades the model returns.
- PortfolioBacktest.RunLoop: the prepared candles, the sorted symbols and the sorted timeline are inputs; only their use is modelled.
- Attribution.BuildDirectionFlow: the per-gate sensitivity tables and signal quality summaries are left out, and refusals of a direction are counted over all reasons at once.
- Attribution.AttributeEvents: the three dictionaries of the report are one map keyed by grouping; win and loss summaries per bucket are left out.
- Publication.AnyBytesCanBeManifest: how a manifest is written and read is an arbitrary function, so the format it names is one that accepts the chosen bytes.
- TradeCandles.IngestFromStart: a trade that a later builder refuses is an exception; the bars earlier builders closed for it are not handed on, as in the source, and with a finest timeframe first there are none.
- TradeLife.EnterSays: it is about entries whose budgets can be computed; for a zero entry price, and for equity or a percentage out of range once the stop is usable, the run raises. The same holds of PortfolioLife.SharedEnterSays.
- AnalysisMeaning.AtrSays: it is about candles whose high is not below their low, as is AnalysisMeaning.AdxSays.
- Letter case is folded for the letters a to z only.
- MarketCache.MarketDataPlatform.GetCandles: live prices and their age, and the provider's failover, are left out.
- CandleBuilders.IngestTrade: flushing open candles is left out, because a flush can split a bucket; the live price stored before the builders are asked is left out too.
- DealsArchive.ParseArchive: the numeric parsing of a row, its field count and the optional header line are left out; which of several errors is raised first is not claimed.
- Backfill.BackfillStore.CollectTimeframe: checkpoint files are trusted to hold what was saved; their checksum is left out. Equality of results is claimed for a provider that answers the same request the same way.
- Backfill.MergeShards: fingerprints, manifests and the sealing of the merged bundle are left out.
- OpportunityPipeline.Evaluate: ranking, the top-N cut and the evaluation records are left out.
- IncrementalState.SwingView.At: slices of a view are left out; they read the same frozen prefix.
- CandleQuality.ValidateCandles: the staleness limit, the completeness of the last candle and the session gap option are left out.
- Diagnostics.SignalAttritionDiagnostics.ToPayload: the reason, direction and setup dictionaries of the report are left out; the counters behind them are modelled.
- DealsArchive.ReadRows: the field count and the numeric parsing of a row are left out.
- BacktestTrades.ExitIsWorstCase: a bar is taken to have its low not above its high, so that it has a range of prices.
- RiskReservation.RecheckCommits: it is about orders not decided yet; what a sweep does with an entry left behind by a crash is `RefillLeavesStores`.
- BacktestCausality.RunOnCursor: the rows of each timeframe are in strict time order, as for the cursor itself.
- RiskReservation.ReservePendingOrderRisk: order ids are taken to be distinct, as the repository's key makes them, so the total is over the orders.
- Random permutations, bootstrap modes and the drawing of sample indexes: the drawn indexes are an input.
- `RecoveryService` and its state machine, reporting, assistant, dashboards, deployment and operation records, qualification thresholds and the live activation gate.
