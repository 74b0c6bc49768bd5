# KIS_Agent: verified model of the trading core

KIS_Agent trades Korean stocks automatically. This project models the deterministic parts of
it on which money depends and proves, in Dafny, what they guarantee for every input, every
event sequence and every history.

| file | component |
|---|---|
| `TradeSearch`, `DaySimulation`, `PositionLock` | the daily trade search, its three loops, and the simulation of two stocks that share one position lock |
| `SignalEngine`, `ExitSimulation`, `FairValueGaps`, `Trades` | entry detection, the simulated life of a position, gaps and entry plans, finished trades |
| `Candles`, `KisAggregation`, `TickAggregation`, `BarCache` | candle aggregation in its four forms |
| `ExecutionActor`, `ActorRuns`, `ActorTimers` | the order state machine, its runs, and its runs against the clock |
| `RestartRecovery`, `CrashSafety` | the decision taken at restart, and actor plus saved row over histories with crashes |
| `Reconciliation` | comparison of share counts with the broker's balance, cycle after cycle |
| `MovingAverages`, `Oscillators` | SMA, EMA, slow stochastic, RSI, MACD over the reals |
| `Pricing`, `Regime` | price steps and order validation; the index regime |
| `Arithmetic`, `Wrappers` | rounding, division and product lemmas; `Option` and `Result` |

Where the original updates state in place, so does the model: classes (`StockState`,
`CandleAggregator`, `Cache`, `StrategyManager`, the indicators) and methods with loops. Each
method is proved equal to a function of its inputs or of the old state, and the promises are
proved about those functions. The indicator objects carry a ghost history of what they were
fed, and their outputs are functions of it.

The detector of the trade search is an arbitrary function whose index lies inside the list it
is given, so the theorems about the loops hold for any strategy; the strategy's own detector
and exit rules are modelled as well, and turn up as instances.

Prices, volumes and share counts are unbounded integers, `f64` is `real`, times of day are
seconds since midnight (minutes in the tick aggregator, milliseconds in the timeout policy).

## Where code and comments disagree

The model follows the code.

- A comment in the actor (src/strategy/execution_actor.rs:275-276) says that after an entry
  timeout a late balance report can still lead from Flat to Open. Flat rejects that event;
  `ActorRuns.OnlySignalsEndIdleness` says exactly what a flat actor reacts to.
- The same header (src/strategy/execution_actor.rs:164-165) says that a degraded actor still
  manages its position. It accepts a signal, as a no-op, and a manual request; the same lemma
  covers it.
- MACD feeds its slow average only once the fast one has a value
  (src/domain/indicators/macd.rs:36-37), so its first value comes later than the declared number of
  candles. `Oscillators.MacdWarmUp` gives the true number, and
  `Oscillators.DeclaredMacdWarmUpIsExactOnlyForFastOne` says when the declaration is right.
- With only one stock prepared for the day, the search of that stock is not moved past the exit
  time of its last trade (src/strategy/backtest.rs:270-288, 365-389). A trade may then begin on
  the very candle on which the previous one ended, if the detector can enter on its first candle
  (`PositionLock.EagerDetectorTouches`). The strategy's own detector cannot.
- Entering manual, in life or at restart, updates the saved row but creates none. An actor that
  is manual without a row is forgotten by the next crash if no shares are held by then:
  `CrashSafety.ManualSurvivesExactly`, with the histories `CrashSafety.ManualIsForgotten` and
  `CrashSafety.ManualRequestIsForgotten`.
- The lock check is meant to keep reconciliation away from a stock whose order is pending
  (src/presentation/routes/strategy.rs:1085-1092). An earlier stop in the same cycle overwrites
  that claim on the lock; `Reconciliation.PendingRunnerStopsExactly` says when the stock is then
  stopped after all.
- The stochastic's declared number of candles is one short at %K period 0:
  `Oscillators.DeclaredStochasticWarmUpIsExact`.
- Lock-skipped cycles, and cycles whose first balance query fails, neither raise nor reset the
  inconclusive streak, so "three in a row" may span them.

## Model

| member | source | states |
|---|---|---|
| PositionLock.PositionLockExclusion | src/strategy/backtest.rs:256-362 | for any time-ordered candle lists of two stocks, any detector, configuration and stages, all trades of the day form one chain in which none begins before the previous one has ended; strictly later when both stocks were prepared, or when times are distinct and the detector never enters on its first candle |
| PositionLock.LapsFormChain | src/strategy/backtest.rs:290-361 | from any joint state of the two searches, each later trade begins strictly after the unlock time and after every earlier exit |
| PositionLock.EarlierCandidateIsTaken | src/strategy/backtest.rs:334-358 | each lap takes the candidate that enters first, A on a tie, and stops only when neither stock has one |
| DaySimulation.LapSearchesFromUnlock | src/strategy/backtest.rs:307-332 | in every lap each stock that is not done is searched from exactly its first candle after the unlock time (or from where it stood, if further on), past trades against its confirmed side and no others, and its candidate is what the scan at the final position shows; a stock that is done is not searched |
| DaySimulation.NothingPassedOver | src/strategy/backtest.rs:446-454 | a trade that fits and is found from the first candle after the unlock time is the candidate: none is passed over |
| DaySimulation.LapChangesExactly | src/strategy/backtest.rs:334-358 | the stock that trades moves on to its exit index, counts, adds up its profit and remembers a winner's side; the other keeps everything but its position; the lock is released at the exit time |
| PositionLock.SoloFormsChain | src/strategy/backtest.rs:365-389 | a stock searched alone has non-overlapping trades; strictly separated ones on distinct times with a detector that skips its first candle |
| PositionLock.StrategyTradesNeverTouch | src/strategy/backtest.rs:256-389 | with the strategy's own detector and distinct candle times no two trades of a day share even an instant |
| PositionLock.EagerDetectorTouches | src/strategy/backtest.rs:365-389 | a concrete day on which a stock searched alone, with a detector that enters at once, starts a trade on the candle that ended the previous one |
| PositionLock.LapsWithinLimits | src/strategy/backtest.rs:297-358 | while the stocks take turns, each keeps its own trade count, loss limit and direction memory, from any state |
| PositionLock.SharedDayWithinLimits | src/strategy/backtest.rs:291-361 | on a shared day each stock makes at most its maximum of trades, starts each while its own profit is above the loss limit, and follows a winner only on the same side |
| DaySimulation.SimulateDayLocked | src/strategy/backtest.rs:256-362 | both result lists are the two stocks' shares of one sequence of laps; a stock that could not be prepared leaves the day to the other |
| DaySimulation.LoneStockKeepsItsTrades | src/strategy/backtest.rs:267-288 | a stock prepared alone trades as if searched alone, the other not at all |
| DaySimulation.SharedDayOpensAlone | src/strategy/backtest.rs:291-293 | the first lap searches each stock from its first candle, with nothing counted |
| DaySimulation.LockedLoop | src/strategy/backtest.rs:290-361 | the interleaved loop over two mutable states ends and yields, per stock, the laps of that stock in order |
| DaySimulation.FindCandidate | src/strategy/backtest.rs:307-332 | the search moves behind the unlock time even when the stock is done, and changes nothing but the search position |
| DaySimulation.LapUnfolds | src/strategy/backtest.rs:334-358 | the trades of both stocks from a state on are the accepted candidate followed by the trades from the next state, and every lap uses up a trade |
| DaySimulation.PickStrategyForDay | src/strategy/backtest.rs:393-443 | the loop over stages returns the stage chosen by the specification, or the plain preparation without stages |
| DaySimulation.PickedStageIsEarliest | src/strategy/backtest.rs:419-442 | a stage is picked if and only if some stage would enter before the last second of the day; it is then the preparation of one of the stages, which enters no later than any other and strictly before every stage listed earlier |
| DaySimulation.PickedWithoutStages | src/strategy/backtest.rs:399-417 | without stages the stock is prepared as configured, without candles not at all |
| DaySimulation.PreparedWithStage | src/strategy/backtest.rs:403-429 | a stage prepares a stock if and only if there are candles in its range and behind it; the range is the highest high and lowest low of exactly those candles, and the search list the candles behind it |
| DaySimulation.DryRunForeseesFirstTrade | src/strategy/backtest.rs:430-441 | the dry run's entry time is that of the first trade the stock then makes, and there is none if and only if it makes no trade |
| DaySimulation.BetweenIsFilter | src/strategy/backtest.rs:404-410 | selecting by time keeps exactly the candles within the times, in order |
| DaySimulation.RunDay | src/strategy/orb_fvg.rs:90-195 | the single-stock day: no candles, no opening range or nothing after it gives no trades; finer input is aggregated to five minutes first |
| DaySimulation.DayIsSoloSearch | src/strategy/orb_fvg.rs:90-195 | the single-stock day is the solo search of the prepared stock: on its own candles when the first two lie at least four minutes apart, on their five-minute bars otherwise |
| TradeSearch.FlatEqualsNested | src/strategy/orb_fvg.rs:141-193 | flat and nested loop return the same trades for every candle list, configuration and detector, from every state, rejected directions included |
| TradeSearch.DayIsTheWholeSearch | src/strategy/orb_fvg.rs:135-194 | the day, by either loop, is the one whole search there is, told by its scans alone: each on the exit candle of the last taken trade or at least one candle behind a refused one, a trade refused exactly when it goes against the winner before it, until a limit is reached or nothing is found |
| TradeSearch.RunDayLoop | src/strategy/orb_fvg.rs:135-194 | the flat loop ends, even when an accepted trade makes no progress in the list, and returns the specified trades |
| TradeSearch.RunSolo | src/strategy/backtest.rs:365-389 | the nested loop ends and returns the specified trades |
| TradeSearch.NextValidCandidate | src/strategy/backtest.rs:458-490 | skips candidates against the confirmed side, by at least one candle each, and changes only the search position |
| TradeSearch.CandidateFitsSide | src/strategy/backtest.rs:478-484 | a candidate is never on the other side than the confirmed one |
| TradeSearch.AcceptTrade | src/strategy/backtest.rs:493-499 | the whole new state after an accepted trade |
| TradeSearch.SyncSearchTo | src/strategy/backtest.rs:446-454 | the search never moves back and otherwise moves to the first candle after the target time |
| TradeSearch.SyncIsExact | src/strategy/backtest.rs:446-454 | the new position is the larger of the old one and that of the first candle after the target time |
| TradeSearch.SyncPassesOverNothing | src/strategy/backtest.rs:446-454 | on time-ordered candles a candle from the old position on is still searched if and only if it is after the target time |
| TradeSearch.ScanContract | src/strategy/orb_fvg.rs:203-278 | no trade exactly when nothing was detected or the detection fell on the last candle; a trade enters on the detected candle, leaves on a strictly later one, no later than the first at or after the forced exit |
| TradeSearch.ScanPrices | src/strategy/orb_fvg.rs:203-278 | a scanned trade enters in the middle of the detected gap, rounded toward zero, with the gap's stop and side, and a target the ratio times that risk, cut to a whole price, away from it |
| TradeSearch.ScannedTradeRealises | src/strategy/orb_fvg.rs:203-278 | a scanned trade with risk that leaves at its target realises R in (rr - 1/risk, rr] |
| TradeSearch.TakenLeadsToExit | src/strategy/orb_fvg.rs:262-277 | on time-ordered candles a taken trade leads the search to its first candle at or after the exit |
| TradeSearch.AcceptKeepsLimits | src/strategy/backtest.rs:493-499 | accepting a trade within the limits keeps the limits and keeps the counters a summary of the trades so far |
| TradeSearch.SoloWithinLimits | src/strategy/backtest.rs:371-388 | the limits hold for the trades of the nested search from any state that summarises its past |
| TradeSearch.DayWithinLimits | src/strategy/orb_fvg.rs:141-193 | by either loop: at most the maximum of trades, each begun above the loss limit, a winner followed only on its own side |
| TradeSearch.FirstLossEndsDay | src/strategy/orb_fvg.rs:148-152 | a first trade whose price moved against it by at least the daily limit ends the day |
| TradeSearch.WinnerRepeats | src/strategy/orb_fvg.rs:169-187 | behind a trade that left strictly beyond its entry price the next one is on the same side |
| ExitSimulation.SimulateExit | src/strategy/orb_fvg.rs:292-452 | the loop over mutable stop, best price and 1R flag computes the specified exit |
| ExitSimulation.ExitExact | src/strategy/orb_fvg.rs:292-452 | without a running state: a trade is the exit if and only if it leaves on the first candle that a stop, target, time or day-end rule closes, or the last one, at the price and for the reason told by the peak of prices up to it: the stop is the planned one and, once the peak reached the break-even share of the risk, the better of the entry and the trailing share of the risk below the peak |
| ExitSimulation.LongExitExact | src/strategy/orb_fvg.rs:292-452 | the same for a long position, with the candle on which it leaves |
| ExitSimulation.PeakIsHighest | src/strategy/parity/position_manager.rs:52-66 | the peak is the highest of the entry price and the highs so far |
| ExitSimulation.TimeStopIsOnTime | src/strategy/parity/position_manager.rs:166-172 | a position closed by time is closed on its candle number time_stop_candles (the first, if that is 0), short of 1R |
| ExitSimulation.ExitIsSymmetric | src/strategy/parity/position_manager.rs:45-160 | with all prices negated and the side turned, the exit is the same with its prices negated: short positions are treated as long ones |
| ExitSimulation.ShareIsLastWholePrice | src/strategy/parity/position_manager.rs:66-83 | the break-even and trailing distances are the last whole prices within their ratio of the risk |
| ExitSimulation.ExitContract | src/strategy/orb_fvg.rs:292-452 | no trade exactly when no candle remains; otherwise it ends at the time of a remaining candle, no later than the first at or after the forced exit, with side, entry, stop and target unchanged |
| ExitSimulation.ExitIsOnline | src/strategy/orb_fvg.rs:317-451 | no look-ahead: an exit before the last candle is the same whatever candles follow it |
| ExitSimulation.UpdateRatchets | src/strategy/parity/position_manager.rs:45-98 | an update never loosens the stop nor forgets the best price or 1R; before 1R the stop is the planned one, afterwards it protects the entry |
| ExitSimulation.ReasonTellsPrice | src/strategy/parity/position_manager.rs:102-160 | over the whole life of a position the reported reason fits the exit price: target reached, planned stop touched or opened beyond, entry price for break-even; a trailing exit is strictly in profit and no worse than the current stop, or at an open that lay beyond that stop; the current stop is never worse than the planned one |
| SignalEngine.DetectNextFvgSignal | src/strategy/parity/signal_engine.rs:102-201 | the loop over a pending gap computes the specified detection |
| SignalEngine.DetectionExact | src/strategy/parity/signal_engine.rs:106-200 | under the one-pending-gap rule, stated without the scan, the detection is the first candle that confirms a watched gap, and there is none if and only if no candle before the cutoff ever does |
| SignalEngine.NewGapExact | src/strategy/parity/signal_engine.rs:122-178 | a candle completes gap g if and only if g is the hole of the last three candles and qualifies: direction and body of the middle candle, breakout beyond the range's edge by the minimum fraction where required, confirmed side, and no short when only long positions are allowed |
| SignalEngine.DetectionSpelledOut | src/strategy/parity/signal_engine.rs:181-197 | the detected hole qualified when it formed, the intent carries its side, edges and stop, and the confirming low (long) or high (short) lies within it |
| SignalEngine.DetectionHonoursConfig | src/strategy/parity/signal_engine.rs:131-168 | a long-only strategy detects no short, a confirmed side no other, and a required breakout is a close beyond the range |
| SignalEngine.DetectionIsRetrace | src/strategy/parity/signal_engine.rs:110-197 | a detection is a price coming back into a qualifying gap completed earlier and not yet expired, before the entry cutoff; so its index is at least 3 |
| SignalEngine.DetectedGapIsReal | src/strategy/parity/signal_engine.rs:122-178 | on sound candles the detected gap is a gap of the list, with its stop at or beyond the far edge |
| SignalEngine.DetectionIsOnline | src/strategy/parity/signal_engine.rs:102-201 | no look-ahead: candles after the detected one do not change the detection |
| FairValueGaps.DetectFvg | src/strategy/fvg.rs:41-75 | the loop lists the gaps of all triples, none for fewer than three candles |
| FairValueGaps.GapsAreExact | src/strategy/fvg.rs:41-75 | a gap is listed if and only if it is one, once, in order of place |
| FairValueGaps.GapsAreHoles | src/strategy/fvg.rs:46-71 | a gap is a hole: bullish between the first high and the third low with the first low as stop, bearish between the third high and the first low with the first high as stop |
| FairValueGaps.PlansAreBrackets | src/strategy/parity/conversions.rs:59-165 | legacy, passive and marketable plans have stop, entry and target in order for the side; the legacy entry lies in the gap, the live ones strictly beyond their stop and risking at least as much |
| FairValueGaps.PlansOnGap | src/strategy/parity/conversions.rs:59-176 | the three plans carry the gap's side and stop, are entered in its middle or at the edge away from the stop, where the passive order rests, and aim the ratio times the risk away |
| FairValueGaps.PlannedR | src/strategy/parity/conversions.rs:136-165 | leaving at the planned target realises R in (rr - 1/risk, rr], leaving at the stop exactly -1 |
| FairValueGaps.LegacyPlanWithoutRisk | src/strategy/parity/conversions.rs:59-70 | a sound gap whose legacy plan carries no risk, so the positive-risk condition of the R bound is needed |
| Trades.RealizedAtTargetAndStop | src/strategy/types.rs:98-108 | the same R bounds for any finished trade whose stop lies on the losing side |
| Trades.PnlIsShareOfEntry | src/strategy/types.rs:89-95 | percent profit times the entry price is 100 times the favourable move |
| Trades.WinsExactly | src/strategy/types.rs:89-95 | at a positive entry price a trade wins if and only if it leaves strictly beyond the entry |
| Trades.LosesExactly | src/strategy/types.rs:89-95 | it loses a given percentage or more if and only if the price moved against it by that share of the entry |
| Trades.RealizedRrIsShareOfRisk | src/strategy/types.rs:98-108 | R times the initial risk is the favourable move; without risk R is 0 |
| Candles.Aggregate | src/strategy/candle.rs:41-90 | the two nested scans compute one bar per run: first open, highest high, lowest low, last close, total volume, labelled by the first candle |
| Candles.RunsAreMaximalPieces | src/strategy/candle.rs:49-87 | the runs cut the list, sorted or not, into consecutive pieces of one slot each, neighbours in different slots |
| Candles.BarMeans | src/strategy/candle.rs:57-85 | a bar's high and low are the extremes of its candles, its open the first, its close the last |
| Candles.VolumeMeans | src/strategy/candle.rs:57-85 | a bar's volume adds up its candles' |
| Candles.SlotSpans | src/strategy/candle.rs:46-52 | slot k of a day spans the times from k to k + 1 intervals after 09:00; earlier candles are in slot 0 |
| Candles.FoldSnoc | src/strategy/candle.rs:49-87 | one more candle at the end joins the last bar of its slot or opens its own |
| Candles.NestingLaw | src/strategy/candle.rs:41-90 | aggregating to a and then to a*b minutes equals aggregating to a*b at once, field by field, for every list |
| Candles.AggregationIsIdempotent | src/strategy/candle.rs:41-90 | an aggregated list is left alone, at every interval |
| Candles.AggregationKeepsVolume | src/strategy/candle.rs:41-90 | no volume is lost or invented |
| KisAggregation.AggregateOhlc | src/infrastructure/collector/kis_minute.rs:324-366 | the loop into an ordered map and the pass over its groups compute the specified bars |
| KisAggregation.GroupedIsExact | src/infrastructure/collector/kis_minute.rs:331-340 | the map holds, in increasing key order, exactly the candles of each bucket in input order |
| KisAggregation.SortIsStable | src/infrastructure/collector/kis_minute.rs:344-346 | within a bucket candles are put in order of time, those of one time keeping their order |
| KisAggregation.BarOfBucket | src/infrastructure/collector/kis_minute.rs:342-364 | a bar has its bucket's label, the open of its earliest candle, the close of its latest, their extremes and their volume, in whatever order they came |
| KisAggregation.AggregationsAgree | src/infrastructure/collector/kis_minute.rs:324-366 | for time-sorted candles from 09:00 on and an interval dividing 540, the tree-map bars equal the run-scanning bars, each labelled with the start of its slot |
| KisAggregation.AgreementExact | src/infrastructure/collector/kis_minute.rs:324-366 | the two aggregations agree on all such lists, slot-start labels included, if and only if the interval divides 540 |
| KisAggregation.OhlcvAgreementExact | src/infrastructure/collector/kis_minute.rs:324-366 | prices and volumes alone agree on all such lists if and only if the interval is at most 1, divides 540, or covers a whole day (1440 and more) |
| TickAggregation.CandleAggregator.OnTick | src/infrastructure/websocket/candle_aggregator.rs:558-629 | the whole new state after a tick, in or out of hours, same minute, next minute or first tick |
| TickAggregation.CandleAggregator.OnIdleMinute | src/infrastructure/websocket/candle_aggregator.rs:638-674 | every open candle is completed exactly once, whatever order the map yields them in, and none stays open |
| TickAggregation.CandleAggregator.Consume | src/infrastructure/websocket/candle_aggregator.rs:541-679 | the receive loop over any message sequence, starting without open candles on whatever histories are held |
| TickAggregation.StreamShowsBatch | src/infrastructure/websocket/candle_aggregator.rs:555-677 | for every interleaving of messages and every stock, completed candles followed by the open one are the batch grouping by minute of that stock's own in-hours ticks, an idle minute only cutting the list |
| TickAggregation.HoursAreInclusive | src/infrastructure/websocket/candle_aggregator.rs:561-564 | ticks count from 09:00 to 15:30, both minutes included |
| TickAggregation.HeldBarsStayInFront | src/infrastructure/websocket/candle_aggregator.rs:555-677 | bars held before the stream began stay in front of what it adds and change nothing else, so every result about a stream carries over |
| TickAggregation.StreamThenAggregate | src/infrastructure/websocket/candle_aggregator.rs:555-677 | minute bars aggregated to n >= 2 minutes are the n-minute bars of the raw ticks, however often idle minutes cut the stream |
| TickAggregation.VolumeIsConserved | src/infrastructure/websocket/candle_aggregator.rs:50-56 | the volume of a stock's completed and open candles is the volume of its in-hours ticks |
| BarCache.Cache.UpsertCompletedBar | src/infrastructure/websocket/candle_aggregator.rs:108-116 | retain, push and stable sort on the mutable list: a sorted list stays sorted, and afterwards it holds the new bar and exactly the old bars of other keys |
| BarCache.UpsertReplaces | src/infrastructure/websocket/candle_aggregator.rs:108-116 | an upsert keeps order and replaces exactly the bars of its key, on any list |
| BarCache.UpsertIsMapUpdate | src/infrastructure/websocket/candle_aggregator.rs:108-116 | on a sorted list an upsert is an update of the map that the list represents |
| BarCache.CacheIsLastWriteWins | src/infrastructure/websocket/candle_aggregator.rs:108-116 | after any writes the list is strictly sorted by (time, interval) and holds the last write of each key and nothing else |
| BarCache.CacheIsInTimeOrder | src/infrastructure/websocket/candle_aggregator.rs:111-115 | the list is in the order of time, and of granularity within a time |
| BarCache.CacheDependsOnLastWritesOnly | src/infrastructure/websocket/candle_aggregator.rs:108-116 | write sequences with the same last writes end in the same list |
| BarCache.OtherGranularitiesUntouched | src/infrastructure/websocket/candle_aggregator.rs:106-116 | writing a five-minute bar never changes the list of one-minute bars, and so for any two granularities |
| ExecutionActor.ValidatorExact | src/strategy/execution_actor.rs:512-601 | the validator with its 15 samples accepts (p, n) if and only if p = n, the pair is whitelisted, or some event with any quantities and strings takes p to n |
| ExecutionActor.ValidatorTable | src/strategy/execution_actor.rs:512-601 | the transitions that pass, as an explicit set for each state |
| ExecutionActor.SampleHasSameEffect | src/strategy/execution_actor.rs:530-600 | every accepted event has a listed sample with the same successor state |
| ExecutionActor.ExitClosesOnlyOnZeroBalance | src/strategy/execution_actor.rs:358-475 | an exit state reaches Flat on a zero balance report and on nothing else |
| ExecutionActor.EnteredExactly | src/strategy/execution_actor.rs:168-495 | the transition table read backwards: for each state, exactly which events in which states lead into it; so Open only on a fill of at least the target or a positive balance, and manual only on request or on a timeout with something possibly held |
| ExecutionActor.AcceptedExactly | src/strategy/execution_actor.rs:168-495 | for each event exactly which states accept it; a rejection names its pair |
| ExecutionActor.CommandsExactly | src/strategy/execution_actor.rs:168-495 | all commands of an event with their contents and order, told by what it changes |
| ExecutionActor.TimeoutsNeverTrade | src/strategy/execution_actor.rs:201-475 | a timeout ends in Flat exactly from SignalArmed and EntryPending, in manual exactly from EntryPartial and the exit states, and nowhere else |
| ExecutionActor.TimersByState | src/strategy/execution_actor.rs:673-690 | which timer runs in which state, and how long |
| ExecutionActor.ShippedTimers | src/strategy/execution_actor.rs:639-655 | the shipped limits in milliseconds, for paper and real trading |
| ExecutionActor.ArmedTimerIsAcceptedAndFinal | src/strategy/execution_actor.rs:673-690 | the timer named for a state is accepted there and leads from SignalArmed and EntryPending to Flat, from every other waiting state to manual; no timer runs in either |
| ActorRuns.SharesComeFromAnEntry | src/strategy/execution_actor.rs:168-495 | in every run from Flat, a state with shares was preceded by SignalArmed and then EntryPending since the last Flat |
| ActorRuns.AtMostSevenChangesBetweenFlats | src/strategy/execution_actor.rs:168-495 | at most seven state changes lie between consecutive visits to Flat |
| ActorRuns.SevenChangesHappen | src/strategy/execution_actor.rs:168-495 | a run that makes seven |
| ActorRuns.ExitsNeverExceedSignals | src/strategy/execution_actor.rs:168-495 | exit submissions never exceed accepted signals, one less while a position is still on its way to an exit |
| ActorRuns.ManualEnteredOnceForGood | src/strategy/execution_actor.rs:172-175 | manual intervention is absorbing from any state, and its command is issued exactly once in a run that enters it, never otherwise |
| ActorRuns.OrdersAnswerTimeouts | src/strategy/execution_actor.rs:168-495 | in every run cancellations number exactly the entries that timed out unfilled, balance queries those and the complete exit fills, and no other order is issued besides exits |
| ActorRuns.NeverDegraded | src/strategy/execution_actor.rs:168-495 | no run of events from Flat leads to Degraded |
| ActorRuns.OnlySignalsEndIdleness | src/strategy/execution_actor.rs:177-196 | a flat actor stays flat exactly while neither a signal nor a manual request comes, a degraded one exactly while no manual request comes; meanwhile no command is issued |
| ActorTimers.RunsAreWellTimed | src/strategy/execution_actor.rs:612-690 | in every timed run the armed timer is the one the policy names, and it is never missed |
| ActorTimers.EntryStatesAreLeftInTime | src/strategy/execution_actor.rs:612-690 | no stay in the entry states exceeds entry_submit + 2 * entry_fill, under any policy |
| ActorTimers.ExitStatesAreLeftInTime | src/strategy/execution_actor.rs:612-690 | no stay in the exit states exceeds 2 * exit_fill |
| ActorTimers.TimerNeverStuck | src/strategy/execution_actor.rs:673-690 | a timer runs exactly in the waiting states, can always fire, and firing ends all waiting |
| ActorTimers.BoundsAreTight | src/strategy/execution_actor.rs:612-690 | for every policy one run uses up both bounds |
| ActorTimers.ShippedPoliciesDecideInTime | src/strategy/execution_actor.rs:639-655 | with the shipped limits no stay in the entry states exceeds 62 seconds (paper) or 8 seconds (real), and none in the exit states 10 seconds |
| RestartRecovery.RestartDecision | src/strategy/restart_recovery.rs:181-358 | the unreachable arm is never reached; every input gets exactly one of manual, cleanup and restore, with the exact condition of each |
| RestartRecovery.ActionsExactly | src/strategy/restart_recovery.rs:266-358 | for each action exactly when it is taken and with which values |
| CrashSafety.LagPatternExact | src/strategy/execution_actor.rs:168-495 | a pair of actor state and saved row occurs in some history of events, markings, crashes and restarts if and only if it is in the table: EntryPartial over an EntryPending row, exit states over an Open or marked row, Flat possibly still over an EntryPending row, and so on |
| CrashSafety.PersistSites | src/strategy/execution_actor.rs:168-495 | the row is written (on entering manual: updated if it exists) exactly on entering EntryPending, Open or manual, and on entering Flat from an exit state |
| CrashSafety.NoShareIsEverCleanedUp | src/strategy/restart_recovery.rs:266-358 | a crash after any history with shares held restarts manual or restores exactly the shares held, never a cleanup; which of the two follows from state and row |
| CrashSafety.OpenPositionComesBack | src/strategy/restart_recovery.rs:331-347 | after every history with an unmarked open row, a crash with shares held restores the side, entry, stop and target with which the position was last opened, and the number of shares actually held |
| CrashSafety.RowTellsThePosition | src/strategy/execution_actor.rs:168-495 | after every history the row tells, column by column, of the position last opened or the entry last ordered |
| CrashSafety.UpdatesKeepThePosition | src/infrastructure/cache/postgres_store.rs:873-939 | marking an exit or manual intervention keeps what the row says of the position |
| CrashSafety.SavedManualIsForever | src/strategy/restart_recovery.rs:276-279 | once saved as manual, actor and row stay manual through every later history and any number of crashes |
| CrashSafety.ManualSurvivesExactly | src/infrastructure/cache/postgres_store.rs:921-939 | a manual actor comes back manual if and only if it is not the case that no row exists and a successful balance query shows no shares |
| CrashSafety.ManualIsForgotten | src/infrastructure/cache/postgres_store.rs:921-939 | the failing history: shares without a row make the restart manual, still without a row; the shares being gone, the next crash restarts into Flat |
| CrashSafety.ManualRequestIsForgotten | src/infrastructure/cache/postgres_store.rs:921-939 | likewise after a manual request to a flat actor without a row |
| Reconciliation.ConfirmReconcileQty | src/presentation/routes/strategy.rs:1419-1456 | the loop returns the expected quantity if any attempt shows it, else the last success, else one error per attempt exactly when all failed; it makes no fetch after a match, and at least one |
| Reconciliation.ConfirmationIsUnique | src/presentation/routes/strategy.rs:1419-1456 | that description leaves no freedom |
| Reconciliation.StrategyManager.BumpStreak | src/presentation/routes/strategy.rs:223-228 | raises the streak of one stock by one and touches no other |
| Reconciliation.StrategyManager.ResetStreak | src/presentation/routes/strategy.rs:231-234 | clears the streak of one stock and touches no other |
| Reconciliation.StrategyManager.ReconcileCode | src/presentation/routes/strategy.rs:1050-1259 | the decision flow of one stock in one cycle under the lock as it then is: that stock alone steps, and a stop takes the shared lock unless another stock holds it |
| Reconciliation.StrategyManager.ReconcileOnce | src/presentation/routes/strategy.rs:1003-1261 | one cycle steps the runners in turn, each under the lock as the earlier stops of the cycle left it; out of hours, without client or after a failed first query nothing changes |
| Reconciliation.StrategyManager.EnterManual | src/strategy/live_runner.rs:10454-10468 | a stop marks the stock and makes the lock its own, unless another stock holds it |
| Reconciliation.FirstStopTakesLock | src/strategy/live_runner.rs:10454-10468 | within a cycle the first stopped stock takes a free or pending lock, and later stops leave it there |
| Reconciliation.HeldLockStays | src/strategy/live_runner.rs:10454-10468 | a held lock never changes hands in a cycle; it turns manual if and only if its own holder is stopped |
| Reconciliation.PendingRunnerStopsExactly | src/presentation/routes/strategy.rs:1085-1092 | a runner whose order was pending when the cycle began is stopped in it if and only if an earlier stop of the same cycle overwrote its claim and its own comparison calls for a stop |
| Reconciliation.StopExactly | src/presentation/routes/strategy.rs:1050-1259 | a cycle stops a running stock if and only if it compares, no fetch of the cycle shows the runner's quantity, and some fetch succeeded or it is the third inconclusive cycle |
| Reconciliation.DecisionByFetches | src/presentation/routes/strategy.rs:1375-1399 | what each decision says about the balances seen in the cycle: matched, some fetch matched, none did and the last success differs, or all failed with the streak below or at 3 |
| Reconciliation.SkippedExactly | src/presentation/routes/strategy.rs:1323-1329 | a stock is skipped if and only if its own order is pending or it holds the lock manually |
| Reconciliation.UnlistedStockHoldsNothing | src/presentation/routes/strategy.rs:1093 | a stock the balance does not list counts as holding nothing: a runner without shares is never stopped, one with shares is when the fetches agree |
| Reconciliation.RunsInMarketHours | src/presentation/routes/strategy.rs:1003-1028 | cycles run from 09:00:00 to 15:35:00 |
| Reconciliation.AttemptsAsConfigured | src/presentation/routes/strategy.rs:1429 | as many attempts as configured, one where none is |
| Reconciliation.StreakCountsInconclusiveCycles | src/presentation/routes/strategy.rs:1096-1121 | while a stock runs, its streak is the number of inconclusive cycles since its last reset, never above 2 |
| Reconciliation.ThirdUnmatchedCycleStops | src/presentation/routes/strategy.rs:1375-1399 | three comparing cycles without a match stop the stock by the third at the latest, across any number of skipped cycles |
| MovingAverages.Sma.Next | src/domain/indicators/moving_average.rs:24-37 | the output is the mean of the last period values, none before there are that many: the running sum never drifts from the window |
| MovingAverages.Sma.Reset | src/domain/indicators/moving_average.rs:39-42 | after a reset the average answers as a new one |
| MovingAverages.CalculateSma | src/domain/indicators/moving_average.rs:54-75 | too few closes are an error with both counts; otherwise all outputs in order |
| MovingAverages.SmaSeriesIsWindowMeans | src/domain/indicators/moving_average.rs:54-75 | the i-th batch value is the mean of the window starting at i |
| MovingAverages.SumsAddUp | src/domain/indicators/moving_average.rs:24-37 | the sum behind the mean is that of its values |
| MovingAverages.MeanTimesCount | src/domain/indicators/moving_average.rs:32-33 | a mean times the count is the sum |
| MovingAverages.Ema.Next | src/domain/indicators/moving_average.rs:108-121 | seeded by the mean of the first period values, then smoothed, as a function of everything fed |
| MovingAverages.Ema.Reset | src/domain/indicators/moving_average.rs:123-127 | after a reset, its seeding average included, the average answers as a new one |
| MovingAverages.EmaWithin | src/domain/indicators/moving_average.rs:108-121 | the average stays between the least and greatest of its inputs |
| MovingAverages.EmaMovesByWeight | src/domain/indicators/moving_average.rs:97-113 | each value moves the average by 2/(period + 1) of its distance |
| MovingAverages.EmaStartsAsMean | src/domain/indicators/moving_average.rs:114-117 | the average starts as the mean of the first period values |
| MovingAverages.CalculateEma | src/domain/indicators/moving_average.rs:139-160 | too few closes are an error; otherwise all outputs in order |
| MovingAverages.EmaSeriesAt | src/domain/indicators/moving_average.rs:139-160 | the i-th batch value is the average of the first i + period closes |
| Oscillators.Stochastic.Next | src/domain/indicators/stochastic.rs:35-74 | two buffers and two chained averages compute slow %K and %D as functions of the candle history; with %K period 0 every fast %K is 50 |
| Oscillators.StochasticWarmUp | src/domain/indicators/stochastic.rs:35-74 | the first value comes exactly with candle k + 2d - 2, a %K period of 0 counting as 1 |
| Oscillators.DeclaredStochasticWarmUpIsExact | src/domain/indicators/stochastic.rs:98-100 | the declared k + 2d - 2 candles are the true number if and only if k is not 0 |
| Oscillators.StochasticRange | src/domain/indicators/stochastic.rs:59-73 | on candles with low <= close <= high both lines stay in [0, 100] |
| Oscillators.FastKIsPlaceInRange | src/domain/indicators/stochastic.rs:48-64 | fast %K is the place of the last close between the window's lowest low and highest high, 50 without a range |
| Oscillators.FastKIsMonotone | src/domain/indicators/stochastic.rs:59-64 | 0 at the bottom, 100 at the top, growing with the close |
| Oscillators.SlowLinesAreMeans | src/domain/indicators/stochastic.rs:66-73 | slow %K is the mean of the last d fast values, %D of the last d slow ones |
| Oscillators.Rsi.Next | src/domain/indicators/rsi.rs:29-75 | the incremental averages compute the Wilder averages of all moves so far |
| Oscillators.RsiWarmUp | src/domain/indicators/rsi.rs:101-103 | the first value comes exactly with close period + 1; with period 0 none ever comes |
| Oscillators.RsiIsGainShare | src/domain/indicators/rsi.rs:43-47 | the formula is 100 times the gain's share of all movement |
| Oscillators.RsiRange | src/domain/indicators/rsi.rs:29-75 | every value lies in [0, 100], for all closes |
| Oscillators.RsiIsShareOfRises | src/domain/indicators/rsi.rs:29-75 | the indicator is the smoothed rises' share of all smoothed movement in percent, 100 when nothing falls |
| Oscillators.RsiAtTheExtremes | src/domain/indicators/rsi.rs:29-75 | 100 on closes that never fall, 0 on closes that only fall |
| Oscillators.MovesSplit | src/domain/indicators/rsi.rs:31-33 | every move is a rise or a fall |
| Oscillators.WilderMoves | src/domain/indicators/rsi.rs:37-39 | a smoothed average starts as a mean and moves by one part in period of the distance |
| Oscillators.Macd.Next | src/domain/indicators/macd.rs:35-47 | the three averages, the slow one fed late, compute line, signal and histogram as functions of all closes |
| Oscillators.MacdWarmUp | src/domain/indicators/macd.rs:35-47 | the first value comes exactly with close fast + slow + signal - 2 |
| Oscillators.MacdMeans | src/domain/indicators/macd.rs:35-47 | the line is the fast average of all closes less the slow one of those from number fast on; the histogram is the line above its signal |
| Oscillators.MacdLineAt | src/domain/indicators/macd.rs:35-47 | each earlier line is the one after the closes up to it |
| Oscillators.CalculateMacd | src/domain/indicators/macd.rs:73-103 | fewer closes than declared are an error; otherwise all outputs in order |
| Oscillators.MacdSeriesAt | src/domain/indicators/macd.rs:83-103 | the i-th batch value is that of the closes up to its own |
| Oscillators.DeclaredMacdWarmUpIsExactOnlyForFastOne | src/domain/indicators/macd.rs:70-72 | the declared number of candles is the true one if and only if the fast period is 1 |
| Pricing.AlignedIsGreatestAccepted | src/domain/types.rs:205-221 | for p >= 1 the aligned price is the greatest price up to p that validation accepts for a limit order |
| Pricing.AcceptedIsFixpoint | src/domain/models/order.rs:72-98 | validation accepts a price if and only if it is positive and alignment leaves it alone |
| Pricing.RoundingStaysInBand | src/domain/types.rs:205-221 | rounding down never leaves the price band and loses less than one step |
| Pricing.AlignmentIsIdempotent | src/domain/types.rs:218-221 | aligning twice is aligning once, for every integer |
| Pricing.AlignmentIsMonotone | src/domain/types.rs:218-221 | alignment is monotone across all bands |
| Pricing.SuggestionIsAccepted | src/domain/models/order.rs:80-94 | the price suggested in a rejection is itself accepted and lower |
| Pricing.StepsByBand | src/domain/types.rs:205-216 | the price step of each band |
| Pricing.ValidationExact | src/domain/models/order.rs:72-98 | which orders pass, which of the errors the others get, and which order types need a price |
| Regime.OrRange | src/strategy/regime_engine.rs:68-83 | the loop computes highest high and lowest low of the opening bars, none when there are none |
| Regime.RangeIsExtreme | src/strategy/regime_engine.rs:68-83 | the range is the highest high and lowest low of the opening bars |
| Regime.BarsAreFilters | src/strategy/regime_engine.rs:70-109 | opening and later bars are exactly those within their times, in order |
| Regime.DirectionalVerdict | src/strategy/regime_engine.rs:101-131 | a verdict is bullish (bearish) if and only if the last bar is and no bar of the window is the opposite |
| Regime.VerdictSpelledOut | src/strategy/regime_engine.rs:86-131 | the verdict in terms of closes, opens and the range: bullish if and only if the last bar rises above it and none of the window falls below, and the other way round |
| Regime.OppositeVerdictsAreSpaced | src/strategy/regime_engine.rs:101-131 | as bars are appended, opposite verdicts are at least max(lookback, 1) bars apart |
| Regime.SpacingIsAttained | src/strategy/regime_engine.rs:101-131 | the spacing cannot be improved, for any window |
| Regime.VerdictDependsOnRecentBars | src/strategy/regime_engine.rs:101-131 | the verdict depends only on the opening bars and the last max(lookback, 1) later bars |

## Left out

- PositionLock.PositionLockExclusion: claims strict separation in the one-stock branch only for detectors that skip their first candle, because the code does not give more (`PositionLock.EagerDetectorTouches`).
- MovingAverages.Sma.Next: requires a period of at least 1, because at period 0 the original divides zero by zero and yields not-a-number, which reals do not have; likewise `CalculateSma`, `Ema` and `CalculateEma`, the %D period of `Stochastic`, and all periods of `Macd`. The %K period may be 0.
- KisAggregation.AggregationsAgree: covers candles from 09:00 on, because before 09:00 the strategy clamps all minutes into the first slot and the collector does not.
- TickAggregation.CandleAggregator.Consume: bars that a backfill writes into the same histories while the stream runs are not modelled; bars held before it are.
- f64 rounding, overflow and not-a-number, and integer overflow: values are mathematical reals and integers. Percent profit at entry price 0, a division by zero in the original, is 0 in the model.
- Real interleavings between awaits: each reconcile cycle, actor event and message is one atomic step. Within one reconcile cycle the broker's answers are a function of the attempt number, and nobody but the cycle's own stops touches the lock; across cycles the results hold for every lock that a cycle may read.
- Clocks: the timed runs take delivery times as inputs, and the ten-second settle window after a flat transition is a flag observed once a cycle.
- Transitions made outside the event table (the health gate to and from Degraded, late fill recovery from Flat to EntryPartial) appear in the validator but not in the runs of the actor.
- Writes of the saved row that fail or find the row gone, and crashes between a transition and its write: a write happens together with its transition.
- The trade columns of the row that play no part in the restart decision; journal phases, labels and log events.
- Parsing of tick times and formatting of error texts: a tick carries its minute, a confirmation error carries attempt number and message.
- The update pushed to the screen every ten ticks, saving of completed candles to the database, and the closing of the message channel.
- The Naver and Yahoo backfills: only the keyed upsert that they share is modelled.
- `retain`, stable sorts, filters and the ordered map are functions on sequences; only their effect is modelled, not how the library computes it.
- Batch calculation of the stochastic and RSI, and the buy and sell signals derived from indicator values.
- The order price of the marketable plan, plan metadata, fills and snapshots of src/strategy/parity/conversions.rs:179-274.
- `calc_atr`, `evaluate_candles`, `check_exit`, the multi-stage single-stock day, and the reports of the backtest: each is settled by reading one body.
- The map from regime to instrument: a fixed table.
- HTTP and WebSocket clients, SQL, authentication, rate limits, configuration, command line and frontend.
