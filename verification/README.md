# Katana: a verified model of the trading core

Katana watches a list of Japanese stocks, feeds their completed five-minute bars
to strategies, trades the resulting signals on paper, keeps accounts of long
sessions, and optimises strategy parameters by walk-forward testing. This project
models the parts of it that carry state or arithmetic and proves what they keep.

- **Market pipeline.** `MarketMonitor` (poll, watermark, store), `SignalEngine`
  (per-code history, strategy and watermark; `StrategyPlay` is its reference),
  `PaperTrading` (one bar at a time, queue, execute, book), `OrderQueue` (the queue
  and the services at its ends) and `LiveOrchestrator` (the loop with its stop
  conditions). `LivePipelineTheorems`, `LiveDelivery` and
  `LiveRunTrace` join them: over any run, failed cycles included, no bar reaches a
  history twice and none is skipped; and histories gain exactly the stored bars, in
  order, if and only if no cycle broke off early. `OrderQueueTheorems` follows the
  orders over the same runs. `MarketMonitorLosses`, `PaperTradingFaults` and
  `LiveLoss` say when bars are lost and what failures do.
- **Sessions.** `RuntimeSession`: lifecycle, counters that rotate with the UTC
  date, daily summaries, the final report; `RuntimeSessionSnapshots` reads every
  snapshot and report off the calls. The clock is an arbitrary stream of
  readings; theorems say which of them need it not to run backwards, and
  `RuntimeSessionRefusals` what happens when it does.
- **Walk-forward optimisation.** `WalkForwardWindows` (rolling plan),
  `WalkForwardRunner` (train, select, validate), `MetricRanking` and
  `OptimizationRanking` (selection), `WalkForwardAnalyzer` (pooled figures).
- **Risk gate.** `RiskManager`: limits, loss limits and the manual halt;
  `RiskManagerRelaxing` compares runs under strict and relaxed limits.
- **Daily history.** `DailyHistory`: the dashboard's one-pass running peak.

Objects whose methods update fields are classes. Each method is proved equal to a
specification function of the old state; the `*Theorems` modules prove properties
of those functions. Exceptions are `Raised` outcomes; a state changed before an
exception stays changed. Strategies, the data provider, the backtest executors, the
clock and the stop switch are arbitrary functions; so is the desk that paper trading
uses, of which `OrderQueue` is the repository's own.

Where the same code is in `app/` unchanged, the table cites it there. The monitor,
the signal engine, the paper-trading service, the orchestrator and the risk
manager are modelled as their sprint installers carry them, one source file per
line of the installer; the table names the function meant.

## What the code does that its description does not say

- A completed bar is stored only if a poll shows it before any poll has shown a bar
  at its time or later (`MarketMonitorLosses.StoredExactly`); two polls that lose a
  bar are in `MarketMonitorLosses.BarOfNineIsLost`. A bar closing at 15:30 or later
  is not collected on its day (`MarketMonitorTheorems.ClosesBeforeTheSessionEnds`).
- The poll stores its bars before paper trading runs, so a bar left over by a cycle
  that breaks off early never reaches a strategy (`LiveDelivery.DeliveredExactly`,
  with a losing cycle in `LiveLoss.BrokenCycleLosesABar`).
- Batching changes nothing exactly when no bar is late
  (`SignalEngineTheorems.BatchingExactly`, with a late bar in
  `SignalEngineTheorems.LateBarIsDropped`).
- A bar on which its strategy raises stays in the history; sent again, it is there twice
  (`SignalEngineTheorems.RetriedBarIsTwice`).
- Executing the queue strictly can fill orders that no result reports: those before
  the one that raises (`OrderQueueTheorems.StrictExecutionRaisesExactly`, with two
  orders in `OrderQueueTheorems.ReportIsLost`).
- A failure without a text is raised although errors are to be recorded
  (`PaperTradingFaults.ProcessRaisesExactly`, `WalkForwardRunnerTheorems.RunRaisesExactly`;
  inputs in `PaperTradingFaults.BlankFailureRaises` and
  `WalkForwardRunnerTheorems.BlankValidationRaises`). A live run survives this in paper
  trading, whose own exception has a text, and stops only for a provider exception
  without one (`LiveRunTrace.LenientRunRaisesExactly`, with such a provider in
  `LiveLoss.MuteProviderEndsRun`). One training failure without a text fails its window
  (`WalkForwardRunnerTheorems.TrainingSelectsExactly`, with two parameters in
  `WalkForwardRunnerTheorems.BlankTrialFailsWindow`).
- When the clock runs backwards an event may be refused; it has been counted if and
  only if the rotation before it went through
  (`RuntimeSessionRefusals.RecordedExactly`, `RuntimeSessionRefusals.RefusedCounted`,
  `RuntimeSessionRefusals.RefusedUncounted`). A stop may be refused after the session
  has ended, and its report is then lost (`RuntimeSessionRefusals.StoppedExactly`,
  `RuntimeSessionRefusals.StoppedWithoutReport`).
- Ranking by net profit puts a run that breaks even below every losing run
  (`MetricRanking.NetProfitSelects`, `MetricRanking.LossIsSelected`);
  profit factors and win rates of zero rank like missing ones
  (`MetricRanking.WinRateSelects`, `MetricRanking.ProfitFactorSelects`,
  `MetricRanking.MissingFactorIsSelected`).
- The pooled profit factor can exceed every factor that a window has
  (`WalkForwardAnalyzerTheorems.PoolExceedsEveryFactor`); the exact condition is in
  `WalkForwardAnalyzerTheorems.ProfitFactorBoundedExactly`.
- Relaxed limits can cost a later order its approval
  (`RiskManagerRelaxing.LastPositionIsTaken`), and only after they approved an earlier
  one that strict limits refuse (`RiskManagerRelaxing.ApprovalLostOnlyAfterAGain`).
- A drawdown limit of zero stops every purchase
  (`RiskManagerRelaxing.ZeroDrawdownLimitStopsPurchases`).

## Model

| member | source | states |
|---|---|---|
| MarketMonitor.MarketBarRepository.LatestDatetime | app/market/bar_repository.py:153-180 | returns the largest opening time stored for the code, or nothing when the code has no bar |
| MarketMonitor.MarketBarRepository.SavePrices | app/market/bar_repository.py:21-86 | each bar replaces the stored bar of its code and time or is added, and the number of bars given is returned |
| MarketMonitor.RealtimeMarketMonitor.Poll | apply_sprint52_1.py:8 | `poll`: codes are validated first; outside trading hours nothing is fetched; the new bars of all codes are sorted and saved in one call; a raise saves nothing |
| MarketMonitor.RealtimeMarketMonitor.GatherAll | apply_sprint52_1.py:8 | `poll`, loop over the codes: counts and bars add up code by code, and the first failing fetch ends it |
| MarketMonitor.RealtimeMarketMonitor.NewCompletedBars | apply_sprint52_1.py:8 | `_new_completed_bars`: a bar of another code raises; kept are completed bars after the watermark, the last answer per opening time winning at the first one's position |
| MarketMonitor.NormalizeAll | apply_sprint52_1.py:8 | `_normalize_codes`: stripped codes in first-occurrence order without repetition; a malformed code or an empty list raises |
| MarketMonitorTheorems.NormalizedCodes | apply_sprint52_1.py:8 | `_normalize_codes`: the watched codes are exactly the normal forms of the codes given, each once |
| MarketBars.CodeMeaning | apply_sprint52_1.py:8 | `_normalize_codes`, one code: it is valid if and only if it is four or five digits between spaces, and is handed on without them |
| MarketMonitorTheorems.CollectMeaning | apply_sprint52_1.py:8 | `_new_completed_bars` returns exactly when all prices carry the code, and then keeps exactly the completed bars newer than the watermark |
| MarketMonitorTheorems.PollRaisesExactly | apply_sprint52_1.py:8 | `poll` raises if and only if the codes are bad or, in trading hours, some code has no answer or a bar of another code; raising or idling it leaves the store as it was; results pass `RealtimeMarketPollResult`'s checks |
| MarketMonitorTheorems.SessionMeaning | apply_sprint52_1.py:8 | `TokyoMarketSessionService.create_snapshot` and `_resolve_state`: a session trades if and only if its date is a trading day and the time is from 9:00 to 11:30 or from 12:30 to 15:30, ends excluded; the other parts of the day lie before, between and after |
| MarketMonitorTheorems.PollDecidesExactly | apply_sprint52_1.py:8 | a poll that returns is idle for the day, idle for the hour, without a new bar or with bars saved exactly when its instant and its new bars say so, and counts the codes, the bars fetched and the new and saved bars |
| MarketMonitorTheorems.PollSavesExactly | apply_sprint52_1.py:8 | a poll that goes through brings exactly the completed bars newer than each watched code's watermark, strictly ordered by time and code, and adds exactly those to the store |
| MarketMonitorTheorems.PollListsInOrder | apply_sprint52_1.py:8 | the new bars are listed by time, and those of one time by code in dictionary order |
| MarketMonitorTheorems.WeekendsAreQuiet | apply_sprint52_1.py:8 | `TokyoMarketSessionService` by default: a weekend poll saves nothing and raises only for bad codes |
| MarketMonitorTheorems.ClosesBeforeTheSessionEnds | apply_sprint52_1.py:8 | every bar a poll brings has closed strictly before 15:30 of that day |
| MarketMonitorTheorems.PollingRefinesFilter | apply_sprint52_1.py:8 | while the provider only adds later bars, any run of polls, idle and raising ones included, stores exactly what a single filter of its last answer against the initial watermark would |
| MarketMonitorTheorems.DayIsCollected | apply_sprint52_1.py:8 | over one day with polls that never go back in time, stored are exactly the day's bars closed by the last trading-hours poll and newer than the initial watermark |
| MarketMonitorLosses.StoredExactly | apply_sprint52_1.py:8 | `poll`, again and again with any provider: a bar is stored afterwards if and only if it was at the start, or it is newer than the starting watermark and some poll shows it before any poll has shown a bar at its time or later |
| MarketMonitorLosses.ReachedExactly | apply_sprint52_1.py:8 | the watermark has reached a time if and only if it had at the start or some poll showed a bar at that time or later |
| MarketMonitorLosses.LateBarIsLost | apply_sprint52_1.py:8 | a bar missing below the watermark stays missing whatever is polled |
| MarketMonitorLosses.BarOfNineIsLost | apply_sprint52_1.py:8 | two polls of which the second shows, completed, an earlier bar than the first: it is never stored |
| SignalEngine.RealtimeSignalEngine.Process | apply_sprint52_2.py:8 | `process`: the prices are fed sorted by time and code; state, signals, counts and error are those of the feed, and what was fed before an error stays |
| MarketBars.HandledInOrder | apply_sprint52_2.py:8 | `process`: all prices are handled, by time, then by code in dictionary order, and those of one time and code in the order given |
| SignalEngine.RealtimeSignalEngine.Apply | apply_sprint52_2.py:8 | `process`, one new bar: the history grows, the strategy is created on first use and evaluated on the whole history, and the watermark moves only if evaluation returned |
| SignalEngine.RealtimeSignalEngine.ResetAll | apply_sprint52_2.py:8 | `reset()`: nothing is known of any code |
| SignalEngine.RealtimeSignalEngine.ResetCode | apply_sprint52_2.py:8 | `reset(code)`: exactly that code is forgotten; a bad code raises and changes nothing |
| SignalEngine.RealtimeSignalEngine.LastProcessedAt | apply_sprint52_2.py:8 | `last_processed_at`: the code's watermark, and a raise for a bad code |
| SignalEngine.FeedCounts | app/market/realtime_signal_models.py:20-82 | a call that returns has processed or skipped every price, has no signals without a processed bar, and its result passes all its own checks |
| SignalEngineCounts.CallCounts | apply_sprint52_2.py:8 | `process`: the processed count is the number of new bars of all codes together, the skipped count is the rest; the decision is no new bar if and only if no code has one, and signals if and only if there are any |
| SignalEngineCounts.RepeatIsSkipped | apply_sprint52_2.py:8 | `process`, one bar: it is processed if and only if it opens after its code's watermark, and counted as skipped otherwise |
| SignalEngineTheorems.Isolation | apply_sprint52_2.py:8 | in a call that returns, each code's strategy state, history, watermark and signals are those of feeding its bars alone |
| SignalEngineTheorems.ReturnsExactly | apply_sprint52_2.py:8 | a call returns if and only if every code is valid and no code fed alone breaks |
| SignalEngineTheorems.IsolationToTheBreak | apply_sprint52_2.py:8 | in any call each code's state and signals are those of feeding it alone the prices handled, up to and including the one that breaks the call |
| SignalEngineTheorems.SignalsGrow | apply_sprint52_2.py:8 | `process`: the signals come in the order of the bars, those of the first prices first |
| SignalEngineTheorems.SkippedBarsLeaveNoTrace | apply_sprint52_2.py:8 | feeding bars equals feeding only those newer than the moving watermark, which extend the history and set the watermark |
| StrategyPlay.CallPlaysStrategies | apply_sprint52_2.py:8 | `process` against a plain reference: a call returns if and only if the codes are valid and no strategy raises while it is shown its history one new bar at a time; every code then has the state, signals and history of that play |
| StrategyPlay.FeedIsPlay | apply_sprint52_2.py:8 | `process`, one code: feeding new bars to a settled history is playing the strategy over its growing prefixes, error for error |
| StrategyPlay.OneEvaluation | apply_sprint52_2.py:8 | `process`, one new bar: what the code keeps and what is raised when the strategy cannot be created, when a bar of the history opens later, when the strategy raises, and when it returns |
| StrategyPlay.CallRaisesWhatAPlayRaises | apply_sprint52_2.py:8 | a call that raises gives the text of a bad code or what playing the breaking price's code raised |
| SignalEngineTheorems.BatchingIndependence | apply_sprint52_2.py:8 | a stream cut into calls, with no late bar: the calls return exactly when one call on everything returns, with the same state and signals for every code; a bar may come again, with another quote too while its code is written the same way |
| SignalEngineTheorems.BatchingExactly | apply_sprint52_2.py:8 | when both return, a code's history is the same if and only if none of its bars comes late; repeats are allowed as above |
| SignalEngineTheorems.LateBarIsDropped | apply_sprint52_2.py:8 | a bar and then an earlier one: in two calls the second is in no history, one call takes both |
| SignalEngineTheorems.RetriedBarIsTwice | apply_sprint52_2.py:8 | `process`: a bar on which the strategy raises stays in the history and the watermark does not move, so when it is sent again the history holds it twice |
| SignalEngineTheorems.ResetIsFresh | apply_sprint52_2.py:8 | after `reset(code)` any call leaves the code as a new engine would that is given only its prices, as far as the call got if some code breaks it |
| SignalEngineTheorems.ResetLeavesOthers | apply_sprint52_2.py:8 | `reset(code)` changes nothing for any other code: with and without it the other is as if fed alone what the call handled, the same when both calls return |
| PaperTrading.RealtimePaperTradingService.Process | apply_sprint52_3.py:7 | `process`: sorted bars go one at a time through the engine and each signal through the desk; engine and desk keep what was done before an error |
| PaperTrading.RealtimePaperTradingService.DealOne | apply_sprint52_3.py:7 | `process`, one signal: queued, and unless that failed everything waiting is executed and each item booked |
| PaperTradingTheorems.FeedsAPrefix | apply_sprint52_3.py:7 | wherever an error occurs the engine has been fed a prefix of the sorted bars, all of them if there is none |
| PaperTradingTheorems.PerBarRefinesBatch | apply_sprint52_3.py:7 | when no stage raises, the engine ends as after one `process` call on the whole list, and `_combine_signal_results` gives that call's result, well-formed |
| PaperTradingFaults.EndsWithFirstFault | apply_sprint52_3.py:7 | `process`: trading ends with the fault of the first bar on which the tick, the engine or the dealing fails, and without one when none fails |
| PaperTradingFaults.ProcessRaisesExactly | apply_sprint52_3.py:7 | `process` raises if and only if the limit is bad, or some stage fails and errors are not to be recorded or the first failure has a blank text; otherwise the result passes its checks and is complete exactly when no stage failed |
| PaperTradingFaults.BlankFailureRaises | apply_sprint52_3.py:7 | a price update that raises without a text: `process` raises although errors are to be recorded |
| PaperTradingFaults.FedToTheLast | apply_sprint52_3.py:7 | every bar reaches the engine if and only if no stage fails before the last bar and the last tick does not fail |
| PaperTradingBooks.TradingBalances | apply_sprint52_3.py:7 | trading that ends without an error has booked exactly the records of the items it reports, each once and in order, and its updates are what booking them returned |
| PaperTradingBooks.CompletedCallReports | apply_sprint52_3.py:7 | the result of a completed `process` is what happened: its queue results entered the queue, its items left it, their records are booked, its updates are the answers, and its signal result is that of one engine call on all prices |
| PaperTradingBooks.FailedCallReports | apply_sprint52_3.py:7 | a failed result carries the error's text and nothing else |
| PaperTradingBooks.StrictQueueFailureStops | apply_sprint52_3.py:7 | when errors are not recorded, an order that could not be queued ends trading with its message or the default text |
| PaperTradingBooks.StrictFailureStops | apply_sprint52_3.py:7 | when errors are not recorded, the first failed item ends trading with its message or the default text, and nothing is booked |
| PaperTradingBooks.LenientDealRaises | apply_sprint52_3.py:7 | when errors are recorded, dealing with a signal ends in an error exactly when queueing, executing or booking raises, with that text |
| PaperTradingBooks.QueueDeskKeepsBooks | apply_sprint52_3.py:7 | on the repository's queue and services only the portfolio update books, which is what the theorems on booking ask of a desk |
| PaperTradingTheorems.EachOrderExecutedOnce | apply_sprint52_3.py:7 | `process` on a first-in first-out queue: however the cycle ends, what it queued has entered behind what waited, and what it reports has left in that order; when it completes it reports all that left, and nothing waits if it queued anything |
| OrderQueue.BacktestOrderQueue.Enqueue | app/backtest/order_queue.py:52-65 | an order goes to the end of the queue; an id that waits already raises and changes nothing |
| OrderQueue.BacktestOrderQueue.Pop | app/backtest/order_queue.py:75-84 | the order at the head leaves the queue, and its id may wait again |
| OrderQueue.BacktestOrderQueue.Contains | app/backtest/order_queue.py:86-99 | the stripped id is looked up; a blank one raises |
| OrderQueue.BacktestOrderQueueService.EnqueueSignal | app/backtest/order_queue_service.py:88-175 | a signal becomes an order at the end of the queue, or the one that waits already is reused; a failure raises or is recorded |
| OrderQueueTheorems.EnqueueDecides | app/backtest/order_queue_service.py:88-175 | an order with an id that does not wait is queued, one that waits is reused, and no order, no id, no time, or an id that waits only in stripped form among several fails: raised, or recorded with the text |
| OrderQueue.BacktestQueueExecutionService.ExecuteNext | app/backtest/queue_execution_service.py:201-272 | the head is submitted and its fill saved, then it leaves; when that raises it stays, unless errors are recorded |
| OrderQueue.BacktestQueueExecutionService.ExecuteAll | app/backtest/queue_execution_service.py:281-318 | as many orders as waited at the call, or the limit, are executed in turn; the first that raises ends it |
| OrderQueueTheorems.QueueIsFirstInFirstOut | app/backtest/queue_execution_service.py:281-318 | the queue and its services are first in, first out, and execution that returns empties the queue and reports all that left: what `EachOrderExecutedOnce` asks of a desk |
| OrderQueueTheorems.StrictExecutionRaisesExactly | app/backtest/queue_execution_service.py:254-256 | executing strictly raises if and only if some waiting order's attempt does; the first such order then heads the queue, and those before it have left unreported |
| OrderQueueTheorems.LenientExecutionReportsAll | app/backtest/queue_execution_service.py:258-272 | executing leniently empties the queue and reports every order in turn: failed exactly when its attempt raised, with the saved record or the error's text |
| OrderQueueTheorems.AttemptMeaning | app/backtest/queue_execution_service.py:208-240 | an attempt submits the order and then saves its fill; it raises what either raises, or for want of an order record |
| OrderQueueTheorems.LimitedExecution | app/backtest/queue_execution_service.py:281-318 | with a limit: one that is not positive raises and changes nothing, otherwise that many orders leave and are reported |
| OrderQueueTheorems.ReportIsLost | app/backtest/queue_execution_service.py:281-318 | two orders of which the broker refuses the second: the first is filled and nothing reports it |
| OrderQueueTheorems.OrdersOverCycles | apply_sprint53_1.py:8 | over any sequence of live cycles, raising ones included, the orders that have left the queue are the first of those that waited and were queued, each once and in order, and the rest waits; while no trading ended in an error, what left is what was reported |
| OrderQueueTheorems.RunMovesOrders | apply_sprint53_1.py:8 | the same at the end of any live run |
| LiveOrchestrator.LiveTradingOrchestrator.RunLive | apply_sprint53_1.py:8 | `run`: argument checks, the loop, and the result with its own checks, over the state of all collaborators |
| LiveOrchestrator.LiveTradingOrchestrator.OneCycle | apply_sprint53_1.py:8 | `run_cycle`: poll, trade if bars were saved, and the recorded or raised failure |
| LiveOrchestrator.LiveTradingOrchestrator.Decide | apply_sprint53_1.py:8 | `run`, after a cycle: error stop, cycle limit, stop request or pause, in that order |
| LiveOrchestratorTheorems.CycleReturns | app/live/live_orchestrator_models.py:33-113 | a returned cycle passes its checks and has a paper-trading result exactly when its poll saved new bars |
| LiveOrchestratorTheorems.CycleRaisesExactly | apply_sprint53_1.py:8 | on a clock that never runs backwards a cycle raises if and only if polling or trading raised and operation is strict or the text blank |
| LiveOrchestratorTheorems.CycleRaisesOnAnyClock | apply_sprint53_1.py:8 | the same for any clock: a cycle that seems to end before it began counts as a failure, and raises when that cannot be recorded |
| LiveOrchestratorTheorems.CycleReports | apply_sprint53_1.py:8 | `run_cycle`: a recorded cycle runs from its first reading to its last, and carries the results of poll and trading, or only the text of what was raised |
| LiveOrchestratorTheorems.AttemptReports | apply_sprint53_1.py:8 | `run_cycle`, guarded part: the poll's result, and the result of trading on the bars it brought, if any |
| LiveOrchestratorTheorems.RunShape | app/live/live_orchestrator_models.py:116-152 | a run that returns lasts from its first reading to its last, numbers its cycles from 1, reaches the maximum exactly when that many ran, with one pause fewer, never reports an error stop, and passes its checks |
| LiveOrchestratorTheorems.RunDeliversAtMostOnce | apply_sprint53_1.py:8 | however a run ends, every history is strictly increasing in opening time |
| LivePipelineTheorems.CycleKeepsAhead | apply_sprint53_1.py:8 | no engine watermark or history passes the stored watermark, kept by every cycle, failed ones included |
| LivePipelineTheorems.NeverSkips | apply_sprint52_3.py:7 | an engine fed only by the monitor never reports a skipped bar and processes every bar of a completed cycle |
| LivePipelineTheorems.AlwaysAhead | apply_sprint53_1.py:8 | the same invariant over any sequence of cycles, and the store only grows |
| LivePipelineTheorems.AtMostOnce | apply_sprint53_1.py:8 | over any sequence of cycles every code and opening time enters a history at most once |
| LiveDelivery.FedAllExactly | apply_sprint53_1.py:8 | a cycle feeds all its bars if and only if no tick, evaluation or dealing fails before the last bar, nor the last tick |
| LiveDelivery.NextCompletes | apply_sprint53_1.py:8 | one more cycle keeps delivery complete if and only if it was complete and the cycle fed all its bars |
| LiveDelivery.DeliveredExactly | apply_sprint53_1.py:8 | over any sequence of cycles a history keeps its bars and gains, in time order and with the stored quotes, only bars stored since; it gains all of them if and only if every cycle fed all its bars |
| LiveLoss.MissedForGood | apply_sprint53_1.py:8 | a stored bar that its history has missed enters it in no later cycle |
| LiveLoss.BrokenCycleLosesABar | apply_sprint53_1.py:8 | a cycle of two bars whose first breaks the engine: the second is stored and in no history, then or later |
| LiveRunTrace.RunIsTrace | apply_sprint53_1.py:8 | `run` is a sequence of cycles numbered from 1 that ends where the run ends, and its result lists what these cycles returned; so the theorems about sequences are about runs |
| LiveRunTrace.RunDeliversExactly | apply_sprint53_1.py:8 | however a run ends, its histories gained only bars it stored, and all of them if and only if every cycle fed all its bars |
| LiveRunTrace.PollSilent | apply_sprint52_1.py:8 | a poll raises without a text if and only if, in trading hours, the first watched code without a proper answer gets an exception without one |
| LiveRunTrace.AttemptSilent | apply_sprint53_1.py:8 | with errors recorded only the poll can break a cycle off without a text |
| LiveRunTrace.LenientRunRaisesExactly | apply_sprint53_1.py:8 | with errors recorded, a run raises if and only if its arguments are bad or the poll of its last cycle gets an exception without a text |
| LiveLoss.MuteProviderEndsRun | apply_sprint53_1.py:8 | a provider that raises without a text in trading hours: the run raises in its first cycle although errors are to be recorded |
| LiveRunTrace.LenientRunReturns | apply_sprint53_1.py:8 | as long as the exceptions of the provider have texts, such a run raises only for bad arguments |
| RuntimeSession.RuntimeSessionService.StartSession | app/runtime/session_service.py:51-80 | refused while running or for a blank id; otherwise all counters and summaries start afresh |
| RuntimeSession.RuntimeSessionService.RecordCycle | app/runtime/session_service.py:82-100 | rotates first, then counts the cycle and its success or failure with the time read |
| RuntimeSession.RuntimeSessionService.RecordHeartbeat | app/runtime/session_service.py:102-110 | rotates first, then counts the heartbeat with the time read |
| RuntimeSession.RuntimeSessionService.RecordRestart | app/runtime/session_service.py:112-119 | rotates first, then counts the restart |
| RuntimeSession.RuntimeSessionService.RecordError | app/runtime/session_service.py:121-128 | rotates first, then counts the error |
| RuntimeSession.RuntimeSessionService.RotateIfNeeded | app/runtime/session_service.py:130-155 | when the UTC date has changed the open day is closed and a new one opened at the same instant |
| RuntimeSession.RuntimeSessionService.StopSession | app/runtime/session_service.py:157-202 | rotates, closes the last day unless it was just opened and is empty, ends the session and reports |
| RuntimeSessionTheorems.DoKeeps | app/runtime/session_service.py:51-239 | every call, raising or not, keeps the session invariant, and raises exactly when the lifecycle forbids it |
| RuntimeSessionTheorems.InvAlways | app/runtime/session_service.py:51-239 | the invariant holds after any sequence of calls from a new service |
| RuntimeSessionTheorems.NeverRejected | app/runtime/session_models.py:35-171 | on a clock that never runs backwards no constructor check ever fails: a call raises exactly when misused |
| RuntimeSessionRefusals.SoundAlways | app/runtime/session_service.py:51-239 | what every call keeps on any clock: identifiers, split cycles, and no time of a kind of event without such an event |
| RuntimeSessionRefusals.RecordedExactly | app/runtime/session_service.py:82-155 | on any clock, an event of a running session is refused if and only if the readings for the day close, the rotation snapshot or the closing snapshot are out of range; it has been counted if and only if the rotation went through |
| RuntimeSessionRefusals.RefusedUncounted | app/runtime/session_service.py:102-110 | a clock that falls after the start: the heartbeat is refused and not counted |
| RuntimeSessionRefusals.RefusedCounted | app/runtime/session_service.py:102-110 | a clock that falls before the closing snapshot: the heartbeat is refused and counted |
| RuntimeSessionRefusals.StoppedExactly | app/runtime/session_service.py:157-198 | on any clock, stopping is refused if and only if the readings for the rotation, the last day or the final snapshot are out of range; refused by the last, the session has ended with all counts in its summaries and every further stop is refused |
| RuntimeSessionRefusals.StoppedWithoutReport | app/runtime/session_service.py:157-198 | a clock that falls before the final snapshot: the session has stopped and no report can be had |
| RuntimeSessionTheorems.Conservation | app/runtime/session_service.py:157-202 | whatever the clock does, if all calls return, the report's days add up to exactly the events recorded, for each kind of count, also when the empty last day is left out |
| RuntimeSessionSnapshots.SnapshotConservation | app/runtime/session_service.py:82-155 | on any clock, every snapshot given after a start and activities shows the counts since the last new date, which with the closed days add up to all events, the number of closed days, the last heartbeat and cycle since that date, the dates and the readings meant |
| RuntimeSessionSnapshots.ActIs | app/runtime/session_service.py:130-155 | every activity that returns leaves the session that the activities and readings describe; a rotation reports whether the date is new and hands out the summary of the day it closed |
| RuntimeSessionSnapshots.ReportIsExact | app/runtime/session_service.py:157-240 | on any clock, the report's snapshot and each of its days are what the activities and readings say: counts, dates, times, status, reason and message, the last day left out exactly when it began and ended at one instant |
| RuntimeSessionTheorems.TilesTelescope | app/runtime/session_models.py:58-59 | the durations of days that meet end to start add up to the whole |
| RuntimeSessionTheorems.FinalReport | app/runtime/session_service.py:130-202 | on a clock that never runs backwards the report exists; its days are non-empty, increase in date, meet end to start, cover start to stop exactly, and count every event |
| WalkForwardWindows.WalkForwardWindowService.CreatePlan | app/backtest/walk_forward_window_service.py:19-96 | bad day counts or steps raise; otherwise as many windows as fit, the k-th starting k steps in |
| WalkForwardWindows.CountFits | app/backtest/walk_forward_window_service.py:53-89 | k is below the closed-form window count if and only if the k-th window fits into the dates |
| WalkForwardWindowsTheorems.WindowHoldsItsDays | app/backtest/walk_forward_models.py:25-98 | every window passes all its checks and holds exactly the training and validation days asked for |
| WalkForwardWindowsTheorems.NoLookAhead | app/backtest/walk_forward_window_service.py:114-131 | training bars followed by validation bars are consecutive bars of the series, so every training bar opens before every validation bar |
| WalkForwardWindowsTheorems.PlanAccepted | app/backtest/walk_forward_models.py:150-184 | for an accepted series a created plan, its windows and their series pass all their checks |
| WalkForwardWindowsTheorems.ValidationDisjoint | app/backtest/walk_forward_window_service.py:53-89 | with a step no shorter than validation no date validates two windows |
| WalkForwardWindowsTheorems.ValidationTiles | app/backtest/walk_forward_window_service.py:38-89 | with the default step each date after the first training days validates exactly one window, but for a tail shorter than a block |
| WalkForwardRunner.WalkForwardRunner.Run | app/backtest/walk_forward_runner.py:71-133 | the ranking method is checked first; results and validations asked for are those of walking the plan |
| WalkForwardRunner.WalkForwardRunner.RunWindow | app/backtest/walk_forward_runner.py:135-223 | optimise and select on the training series, then validate the selected parameter once |
| WalkForwardRunner.WalkForwardRunner.Optimise | app/backtest/optimization_runner.py:49-93 | one run per parameter in grid order; a failure is recorded, or raised for want of a text |
| WalkForwardRunnerTheorems.ResultsLineUp | app/backtest/walk_forward_result_models.py:157-205 | one accepted result per window in plan order, completed and failed adding up, each equal to running its window alone |
| WalkForwardRunnerTheorems.RunRaisesExactly | app/backtest/walk_forward_runner.py:104-128 | a run raises if and only if some window has an error, with a blank text when errors are to be recorded |
| WalkForwardRunnerTheorems.RunRaisesText | app/backtest/walk_forward_runner.py:104-128 | what a run raises is the error of the first window whose error is not recorded, or that this error has no text |
| WalkForwardRunnerTheorems.FailedWindowCarriesItsError | app/backtest/walk_forward_runner.py:104-128 | a failed window carries its own error, a completed one its own outcome |
| WalkForwardRunnerTheorems.WindowRaises | app/backtest/walk_forward_runner.py:135-204 | the error of a window is that of a training run without a text, of the composite report, of having nothing to select, or of its validation, in this order |
| WalkForwardRunnerTheorems.BlankValidationRaises | app/backtest/walk_forward_runner.py:104-128 | a validation that raises without a text: the run raises although errors are to be recorded |
| WalkForwardRunnerTheorems.TrainingSelectsExactly | app/backtest/walk_forward_runner.py:145-193 | training selects a run if and only if no parameter fails without a text and the ranking, by a metric or composite, has something to offer; the selected run is first in that ranking |
| WalkForwardRunnerTheorems.BlankTrialFailsWindow | app/backtest/walk_forward_runner.py:145-193 | two parameters of which the first raises without a text in training: the window fails although the second completed |
| WalkForwardRunnerTheorems.SelectedByMetric | app/backtest/walk_forward_runner.py:174-193 | ranked by a metric, the selected run is of the grid, carries its own training result, and no completed parameter ranks before it |
| WalkForwardRunnerTheorems.MethodNames | app/backtest/walk_forward_runner.py:82-102 | a method is accepted if and only if it is one of five names, up to surrounding space and case |
| WalkForwardRunnerTheorems.RunSelectsByName | app/backtest/walk_forward_runner.py:71-204 | every window that completes has applied and validated the run that the method's name stands for, read off the training backtests of the grid |
| WalkForwardRunnerTheorems.WindowCompletesExactly | app/backtest/walk_forward_runner.py:135-223 | a window completes if and only if training selects and the validation returns |
| WalkForwardRunnerTheorems.SelectionSeesTrainingOnly | app/backtest/walk_forward_runner.py:145-204 | runs with the same training select the same parameters, whatever the validation bars and results |
| WalkForwardRunnerTheorems.ValidatedOncePerSelection | app/backtest/walk_forward_runner.py:201-204 | validation runs once per window whose training selects, in plan order, on that window's validation series, and never otherwise |
| MetricRanking.BestRunIsLeast | app/backtest/optimization_ranking.py:17-29 | the best run is completed and no completed run ranks before it; there is none only without completed runs |
| MetricRanking.WinRateSelects | app/backtest/optimization_ranking.py:23-24 | the selected run has the largest `win_rate` if and only if some rate is positive or the completed run with the largest id reports one; of runs with the same rate the largest id is selected |
| MetricRanking.ProfitFactorSelects | app/backtest/optimization_ranking.py:21-22 | the same for `profit_factor` |
| MetricRanking.MissingFactorIsSelected | app/backtest/optimization_ranking.py:21-24 | of a run with a profit factor of zero and one without any, the one without is selected |
| MetricRanking.NetProfitSelects | app/backtest/optimization_ranking.py:19-20 | the selected run has the largest net profit if and only if some run profits, none breaks even, or none loses; ties go to the largest id |
| MetricRanking.LossIsSelected | app/backtest/optimization_ranking.py:19-20 | of a losing run and one that breaks even, the losing one is selected |
| MetricRanking.DrawdownSelects | app/backtest/optimization_ranking.py:25-26 | the selected run has the smallest `maximum_drawdown` of all that report one; ties go to the smallest id |
| OptimizationRanking.RankingIsCanonical | app/backtest/composite_ranking.py:121-158 | with distinct ids the ranking is the same for every permutation of the scores |
| OptimizationRanking.RankCountsAhead | app/backtest/composite_ranking.py:121-158 | a rank is one more than the number of runs with a higher score, or the same score and a smaller id |
| OptimizationRanking.TopIsPrefix | app/backtest/composite_ranking.py:45-76 | the best n are the first n of the full ranking, and both pass the ranking's checks |
| OptimizationRanking.TopIsLeast | app/backtest/composite_ranking.py:121-158 | the best one is a score that no score is ahead of, and there is none only without scores |
| OptimizationRanking.RankRefusesExactly | app/backtest/composite_ranking.py:121-133 | a ranking is refused exactly when the number of places asked for is not positive |
| WalkForwardAnalyzerTheorems.WinRateBounded | app/backtest/walk_forward_analyzer.py:148-152 | the pooled win rate respects every bound on the win rates of the windows that traded |
| WalkForwardAnalyzerTheorems.ProfitFactorBoundedBelow | app/backtest/walk_forward_analyzer.py:153-157 | the pooled profit factor respects every lower bound on the windows' factors |
| WalkForwardAnalyzerTheorems.ProfitFactorBoundedExactly | app/backtest/walk_forward_analyzer.py:153-157 | the pooled profit factor stays within a bound if and only if the profit of the loss-free windows is at most what the others fall short of the bound by |
| WalkForwardAnalyzerTheorems.ProfitFactorBoundedAbove | app/backtest/walk_forward_analyzer.py:153-157 | in particular it respects every upper bound on the factors if no window profits without loss |
| WalkForwardAnalyzerTheorems.PoolExceedsEveryFactor | app/backtest/walk_forward_analyzer.py:153-157 | three windows with the factors 1, 2 and none pool to the factor 6.5 |
| WalkForwardAnalyzerTheorems.ProfitWithoutLossRaisesTheFactor | app/backtest/walk_forward_analyzer.py:153-157 | a window that profits without loss raises the pooled factor above whatever it was |
| WalkForwardAnalyzerTheorems.PoolOfConcatenation | app/backtest/walk_forward_analyzer.py:103-194 | pooling a concatenation is determined by pooling the parts |
| WalkForwardAnalyzerTheorems.PoolOfOne | app/backtest/walk_forward_analyzer.py:103-194 | pooling one backtest gives its own figures, rates and factors included |
| WalkForwardAnalyzerTheorems.PoolOfNone | app/backtest/walk_forward_analyzer.py:103-180 | pooling no backtests gives zeros and no rates |
| WalkForwardAnalyzerTheorems.AveragesTimesCounts | app/backtest/walk_forward_analyzer.py:148-167 | expectancy, win rate and average result times the number they are averaged over are the totals, and missing only when that number is zero |
| WalkForwardAnalyzerTheorems.WorstDrawdownIsMaximum | app/backtest/walk_forward_analyzer.py:169-178 | the pooled drawdown is the largest reported one, and missing only if none is reported |
| WalkForwardAnalyzerTheorems.PoolAccepted | app/backtest/walk_forward_summary_models.py:26-84 | pooling accepted backtests always passes the aggregate's checks |
| WalkForwardAnalyzerTheorems.SummaryAccepted | app/backtest/walk_forward_analyzer.py:27-100 | the summary passes every check, pools one validation per completed window, and its frequencies add up to the completed windows |
| WalkForwardAnalyzerTheorems.SummaryOfConcatenation | app/backtest/walk_forward_analyzer.py:27-100 | the summary adds up window by window: counts, profitable windows, and the pools of training and of validation |
| WalkForwardAnalyzerTheorems.SummaryOfOne | app/backtest/walk_forward_analyzer.py:27-100 | the summary of one window: a completed one pools its selected training run and its validation, each where it belongs, and a failed one adds to nothing but its count |
| WalkForwardAnalyzerTheorems.SummaryCounts | app/backtest/walk_forward_analyzer.py:27-100 | the summary counts the completed, failed and profitable windows, gives the share of profitable ones among the completed, and lists every parameter chosen with the number of windows that chose it, most frequent first and ties by id |
| WalkForwardAnalyzerTheorems.FrequenciesExact | app/backtest/walk_forward_analyzer.py:68-85 | every selected parameter is listed once with how often it was selected, most frequent first and ties by id |
| RiskManager.LiveRiskManager.AssessSignal | apply_sprint53_2.py:156-220 | exits are approved; a purchase is approved if and only if it breaks no bound, and otherwise names a broken bound that no broken bound precedes; it is halted, not rejected, exactly for the manual halt and the three loss limits |
| RiskManager.LiveRiskManager.Halt | apply_sprint53_2.py:222-227 | a blank reason raises and changes nothing; otherwise the stripped reason is latched |
| RiskManager.LiveRiskManager.Resume | apply_sprint53_2.py:229-231 | the latch is released |
| RiskManagerTheorems.AssessmentAccepted | apply_sprint53_2.py:102-121 | every assessment passes its checks, and projections change only on approval |
| RiskManagerTheorems.ApprovalMovesMoney | apply_sprint53_2.py:238-254 | approval moves the order value between cash and exposure, whose sum changes only by what an exit is worth beyond the exposure |
| RiskManagerRelaxing.RelaxingKeepsApprovals | apply_sprint53_2.py:156-220 | in one assessment relaxing the limits loses no approval and changes nothing in it |
| RiskManagerRelaxing.ApprovalLostOnlyAfterAGain | apply_sprint53_2.py:156-220 | over a run, an order strict limits approve is lost under relaxed ones only after these approved an earlier order the strict ones refused |
| RiskManagerRelaxing.RelaxedApprovesExactly | apply_sprint53_2.py:156-220 | a purchase strict limits approve is approved in the run under relaxed ones if and only if it fits the positions, exposure and cash of that run |
| RiskManagerRelaxing.RoomKeepsEveryApproval | apply_sprint53_2.py:156-220 | if the relaxed limits have room for all purchases together and no code is bought twice, the run under them approves whatever strict limits approve |
| RiskManagerRelaxing.LastPositionIsTaken | apply_sprint53_2.py:156-220 | a concrete pair of orders of which relaxed limits refuse the second, which strict limits approve |
| RiskManagerRelaxing.ZeroDrawdownLimitStopsPurchases | apply_sprint53_2.py:182-186 | a drawdown limit of zero stops every purchase |
| RiskManagerTheorems.RunsKeepLimits | apply_sprint53_2.py:156-254 | over any run of signals, halts and resumptions, exposure, cash and position count stay within their limits or within where they started, and the book stays acceptable |
| RiskManagerTheorems.BoughtExactly | apply_sprint53_2.py:156-220 | at any point of a run a purchase is approved if and only if trading is not halted and it keeps every limit in the figures of the moment, so nothing is bought at or beyond the day's loss, the drawdown or the number of losses |
| RiskManagerTheorems.RefusalNamesTheFirst | apply_sprint53_2.py:156-220 | a refused purchase names the first limit it breaks in the order of the checks, and is halted for one of the first four and rejected otherwise |
| RiskManagerTheorems.TotalNeverFalls | apply_sprint53_2.py:238-254 | over any run cash and exposure together never fall |
| RiskManagerTheorems.NoHeldCodeIsBought | apply_sprint53_2.py:192-196 | between two purchases of a code lies a sale or exit of it |
| RiskManagerTheorems.NothingBoughtWhileHalted | apply_sprint53_2.py:172-176 | a purchase after a halt comes after a resumption |
| DailyHistory.DashboardWebService.CreatePayload | app/dashboard/dashboard_web_service.py:62-89 | the repository's records are put into chronological order, listed and totalled |
| DailyHistory.DashboardWebService.CreateDailyHistory | app/dashboard/dashboard_web_service.py:92-161 | one pass with running total and running peak gives each day's point, or the refusal of the first bad one |
| DailyHistoryTheorems.MaximumDrawdownIsLargestFall | app/dashboard/dashboard_web_models.py:78-90 | with no negative equity the maximum drawdown is the largest relative fall from any record to any later one, of the records as the reader gives them, newest first, gaps allowed; and no point is refused |
| DailyHistoryTheorems.HistoryRefusedExactly | app/dashboard/dashboard_web_models.py:22-31 | for records from any reader, a point is refused if and only if equities negative from the start fall further |
| DailyHistoryTheorems.PayloadRefusedExactly | app/dashboard/dashboard_web_service.py:62-89 | the payload is refused exactly when its history is, with the same text |
| DailyHistoryTheorems.StoredRecordsAreAccepted | app/runtime/paper_trading_runtime_models.py:122-129 | stored records have passed the check on equities, and a history of such records is never refused |
| DailyHistoryTheorems.PayloadListsDays | app/dashboard/dashboard_web_service.py:75-89 | the history lists the records oldest first, each with its own date, result, equity and return and the sum of the results up to it; the payload's total is the sum of all |
| DailyHistoryTheorems.ReturnIsCumulativeOverFirst | app/dashboard/dashboard_web_service.py:100-145 | each day's cumulative return times the initial equity of the oldest record that has one is the cumulative result; it is missing exactly when no record has one |
| DailyHistoryTheorems.DayCounts | app/dashboard/dashboard_web_models.py:93-111 | the day counts are the numbers of days with a gain and with a loss, which do not overlap |
| DailyHistoryTheorems.WinRateIsFraction | app/dashboard/dashboard_web_models.py:113-124 | the daily win rate is the share of winning days among decided ones, a fraction, and missing only without any |

## Left out

- Later versions of the monitor, the signal engine, the paper-trading service, the orchestrator and the risk manager that `app/` holds today.
- Strategy internals (opening range breakout), the paper broker, position and portfolio services: arbitrary functions here. One desk operation stands for the clock update and the price update of a bar, which the service does one after the other.
- Composite scoring of optimisation runs: an arbitrary report; only the ranking of its scores is modelled. The reported best training score is not.
- The order queue's `discard_all` and `clear`, and the risk check wrapped around its execution. Order creation, submission, and saving a fill with its notifications are arbitrary functions; whether an order created twice is the same order is theirs to say.
- SQLite: the bar repository is a map from code and opening time to a bar, for one interval.
- Time zones: instants are integers, in microseconds, already in the zone a rule is written for; a date is the number of a day.
- Floating point: prices, money and rates are real numbers, so rounding and infinities do not occur; a missing sort key stands for the infinite one.
- Unicode: stripping, lower-casing and digit tests are those of ASCII text.
- Identifiers built from formatted dates or rates are the values they are built from; a parameter's id is a given text.
- Texts of messages, beyond being blank or not; log output, report writers, command lines, notifications and the dashboard's pages.
- LiveOrchestrator.LiveTradingOrchestrator.RunLive: a run without a cycle limit is modelled when the stop switch is on at some later question, because a run that is never stopped has no result.
- SignalEngine.RealtimeSignalEngine.Process: what a strategy emits is an arbitrary payload, which may name any code; the model keeps beside it the code of the bar it came from.
- RiskManagerTheorems.RunsKeepLimits: an approved order is carried out exactly as projected; fills at other prices are not modelled.
- RiskManagerRelaxing.ApprovalLostOnlyAfterAGain: holds in this direction only; a gain need not cost a later order.
- MarketMonitor.MarketBarRepository.LatestDatetime: the database compares the times as ISO texts, which agrees with the instants for times of one offset; the code and interval checks before it are not modelled.
- PaperTradingDayService and the live-trading features described in the documentation (end-of-day drain, carry-over, ownership, shadow ledger, reconciliation).
