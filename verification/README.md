# Ante: verified models of its simulation, broker and workflow kernels

Ante is an automated trading system. This project models the parts of it whose correctness rests on state,
interleaving or arithmetic, and proves what they promise:

- **Backtest kernel** (`DataProvider`, `Backtest`, `BacktestProofs`, `FillTerms`, `TradingCosts`, `FollowUpQueue`,
  `NoLookahead`, `Executor`, `TradePnl`, `Drawdown`, `Resample`). `Backtest.dfy` gives the kernel as functions on
  values and `Executor.dfy` gives it as the object the program has, each method tied to its function. Proved over all
  data, strategies and runs: no lookahead (two runs compared), exact attribution of profit to price moves and costs,
  the exact rates for which trading never pays and cash never goes negative, the order and the cap of follow-up fills,
  agreement of the executor with the ledger rebuilt from its trades, one-pass drawdown against its quadratic
  definition. The strategy is an arbitrary function of everything it has been shown.
- **Broker adapter** (`TokenProtocol`, `TokenCalls`, `CircuitBreakers`, `OrderHistory`, `Calendar`). Token issuing as
  interleaved steps with a clock, the retry loop and circuit breaker with a bisimulation that erases exempt timeouts,
  paging and folding of the order ledger, the three-month boundary.
- **Broker cache** (`BrokerCache`, `BrokerCacheProofs`, `BrokerSharing`). Lazy connect, reconnect after an update, and
  peeking, interleaved at every await, with failures and cancellations.
- **Fill recovery** (`FillRecovery`, `PollCycle`, `PollRepeat`, `PollExamples`, `PollAlerts`, `PollContradictions`,
  `FallbackTerms`, `PollRuns`, `FallbackReads`, `RecoveryRuns`, `CarefulRuns`, `RecoveryRaces`, `PollerAlone`,
  `FillScheduler`). Which order a report is credited to, the position fallback, whole cycles and repeated cycles as
  one step each; and runs in which anything may fall between two awaits of a cycle and of its fallback, with the
  records held against the true fills. Without anything in between, such a run is a whole cycle.
- **Approvals** (`Approvals`, `ApprovalGuards`). All operations of the service, when exactly each is carried out, and
  the history as the definition of the status.
- **Structure document** (`TreeDoc`, `TreeRoundTrip`, `TreePaths`, `TreeFixedPoint`, `TreeRegeneration`,
  `TreeDocument`, `TreeRepository`, `TreeShape`, `TreeReading`). Building, ordering, printing and re-reading the
  annotated tree, from the list of files to the second generation.

`Collections` and `Strings` hold what several modules share.

Amounts and times are `real`; where the program raises, a result value says so. The asynchronous protocols
(`TokenProtocol`, `BrokerCache`, `PollRuns`, `RecoveryRuns`) are state machines: a move is one stretch of code between
two awaits, or less, so every schedule of the event loop is a run of them. `PollCycle`, `PollRepeat`, `PollAlerts` and
`FillScheduler` take a whole poll cycle as one step, in which nothing else happens. `time.monotonic()` and the UTC
clock are taken not to go back.

## Promises that do not hold as stated

- Cash and equity: the service accepts every rate from zero up. A sell rate above 1, or slippage above 1 with a sell
  rate below 1, can overdraw the account, and slippage and sell rate with (1 - slippage)(1 - sell rate) > 1 make a sale
  pay more than it costs. For each such configuration with something to trade one run on one bar shows it
  (`ThereAndBackTrades`); for all others no run does (`CashNeverNegativeIff`, `TradingNeverRaisesEquityIff`).
- Day separation of reused order numbers: the tracker's documentation says that past orders of a number are terminal.
  Partially filled orders never expire, so an older one can be live, and a report repeated after the newer order is
  filled is credited to it (`ReusedNumberCounterexample`); `CreditIff` gives the exact condition.
- A second identical poll cycle can change the table: the first may expire a stale buy that kept another from being
  the only one of its symbol (`SecondCycleCounterexample`); `SecondCycleIff` gives the exact condition and shows that
  two cycles always suffice. It supposes books that follow the recorded fills (`SteadyIsMet`).
- Records within true fills: the fallback reads open orders, positions and books one after the other, and takes any
  difference for the fill of its candidate. With an honest broker, truthful reports and exact books it completes an
  unfilled order when another buy is submitted and filled between the first two reads (`LaterBuy`), when a sell is
  filled and recorded between the last two (`RecordedSell`), when a buy was cancelled or expired before its fill was
  recorded (`HiddenBuy`, `HiddenFillIsMisattributed`), or when someone else buys (`OutsideBuy`). `FiringIff` gives the
  exact condition for one completion, and `RecordedWithinIff` derives that the bound holds throughout a run if and only
  if each completion meets it. Without events of those four kinds it holds (`CarefulRuns.RecordedWithinTrueFill`);
  unrecorded fills of sells, finished or not, do no harm.
- Comments of the structure document are not carried over where a title does not name its base path, as for the
  frontend section (`FrontendMismatch`, `FrontendCommentIsLost`). `RegeneratesIff` gives the exact condition for
  generating again, `DocumentSurvivesIff` what it comes to; `RoundTripIff` is the condition for reading back.

## Model

| member | source | states |
|---|---|---|
| `DataProviders.BacktestDataProvider.Load` | src/ante/backtest/data_provider.py:82-129 | replaces one cached frame, keeps the cursor and drops the stale timeline |
| `DataProviders.BacktestDataProvider.BuildTimeline` | src/ante/backtest/data_provider.py:187-203 | the instants of all cached frames, each once, ascending |
| `DataProviders.BacktestDataProvider.EnsureTimeline` | src/ante/backtest/data_provider.py:205-209 | the cached timeline is always the one a rebuild would give |
| `DataProviders.BacktestDataProvider.GetCurrentTimestamp` | src/ante/backtest/data_provider.py:327-338 | the instant under the cursor, none before the start, past the end or without data |
| `DataProviders.BacktestDataProvider.Advance` | src/ante/backtest/data_provider.py:315-325 | moves the cursor by one and tells whether an instant is left |
| `DataProviders.BacktestDataProvider.GetTotalSteps` | src/ante/backtest/data_provider.py:340-344 | the number of instants, none without data |
| `DataProviders.BacktestDataProvider.GetOhlcv` | src/ante/backtest/data_provider.py:211-233 | the last `limit` rows not after the current instant; a frame loaded on demand never shows a row later than the instant current on entry |
| `DataProviders.BacktestDataProvider.GetCurrentPrice` | src/ante/backtest/data_provider.py:235-256 | the close of the last row not after the current instant |
| `DataProviders.BacktestDataProvider.GetCurrentBarPrice` | src/ante/backtest/data_provider.py:258-291 | the close of a row stamped exactly now in the given timeframe, by default that of the run, or nothing |
| `DataProviders.BacktestDataProvider.Reset` | src/ante/backtest/data_provider.py:346-354 | back before the first instant with all frames kept: nothing is visible, and the next advance starts the same timeline over |
| `DataProviders.BarIsAsOf` | src/ante/backtest/data_provider.py:235-291 | when a bar exists now, fill price and mark price coincide |
| `DataProviders.TimelinePrefix` | src/ante/backtest/data_provider.py:187-209 | data that agree up to an instant have the same timeline up to it |
| `DataProviders.LoadMovesClockBack` | src/ante/backtest/data_provider.py:110-114 | loading another frame under an unchanged cursor can only leave the clock or move it back |
| `DataProviders.LoadsRevealNothing` | src/ante/backtest/data_provider.py:187-233 | however many frames a step loads, no row later than the instant at which the step started becomes visible |
| `DataProviders.VisibleIsPrefix` | src/ante/backtest/data_provider.py:211-233 | of a frame in ascending order exactly the rows up to the instant are visible, and none after it |
| `DataProviders.TailIsLast` | src/ante/backtest/data_provider.py:211-233 | a limit keeps the last rows, as many as there are up to it |
| `Executor.BacktestExecutor.UpdatePosition` | src/ante/backtest/executor.py:517-531 | average cost on buys, unchanged cost on sales, no entry once nothing is left |
| `Executor.BacktestExecutor.ExecuteSignal` | src/ante/backtest/executor.py:236-410 | all branches: side, quantity, universe, bar gate, trigger, cap, cash check, holding check; books the fill |
| `Executor.BacktestExecutor.RefreshCurrentPrices` | src/ante/backtest/executor.py:533-573 | every held symbol at its as-of price, at cost when there is no usable one |
| `Executor.BacktestExecutor.CalculateEquity` | src/ante/backtest/executor.py:575-605 | cash plus all holdings at their marks |
| `Executor.BacktestExecutor.GetPositions` | src/ante/backtest/executor.py:637-659 | the reported profits add up to worth less cost, and with prices refreshed for an instant, cash and the reported holdings add up to the equity at that instant |
| `BacktestProofs.ShownEquity` | src/ante/backtest/executor.py:145-162 | what a strategy is shown at the start of a step is every holding, worth together with cash the equity of that instant |
| `Executor.BacktestExecutor.RunSignals` | src/ante/backtest/executor.py:163-171 | every on_step signal once, in order, without a cap; replies are queued |
| `Executor.BacktestExecutor.RunFollowUps` | src/ante/backtest/executor.py:173-194 | the queue first in first out, terminating by (cap - fills, queue length) for any strategy |
| `Executor.BacktestExecutor.Run` | src/ante/backtest/executor.py:134-216 | the object ends in the state of the step function iterated over the timeline, reporting the last equity of the curve |
| `BacktestProofs.FillNeverBeatsBar` | src/ante/backtest/executor.py:412-515 | a triggered order fills at or above its bar when buying, at or below when selling, within slippage and its own limit |
| `BacktestProofs.SignalAttribution` | src/ante/backtest/executor.py:342-397 | one signal lowers equity by exactly the slippage and commission it records |
| `BacktestProofs.StepAttribution` | src/ante/backtest/executor.py:145-196 | over a step, equity at the same marks falls by the costs of exactly that step's trades |
| `BacktestProofs.DriftIsRevaluation` | src/ante/backtest/executor.py:575-605 | between two instants equity changes by holdings times price moves |
| `BacktestProofs.RunAttribution` | src/ante/backtest/executor.py:134-216 | over a run, equity = initial balance + holdings times mark moves - all costs |
| `TradingCosts.TradingNeverRaisesEquityIff` | src/ante/backtest/executor.py:342-397 | for every configuration the service accepts: no trade of any run it can start has negative cost if and only if the universe is empty or (1 - slippage)(1 - sell rate) <= 1 |
| `TradingCosts.CashNeverNegativeIff` | src/ante/backtest/executor.py:355-397 | for every configuration the service accepts: no run it can start, of any strategy on any data, takes cash below zero if and only if the universe is empty, or sell rate = 1, or sell rate < 1 and slippage <= 1 |
| `TradingCosts.ThereAndBackTrades` | src/ante/backtest/executor.py:342-397 | the run that shows it, for any universe but the empty one: on one bar of one symbol the whole balance buys, spending it to the last unit, and the whole holding is sold again |
| `TradingCosts.RunSolvent` | src/ante/backtest/executor.py:342-397 | with such rates, cash stays non-negative and every held quantity positive after every step |
| `BacktestProofs.RunAudited` | src/ante/backtest/executor.py:342-397 | over every run each trade lies in the universe, on a bar of its own instant, priced between bar and slippage, with the fee and slippage that follow |
| `FollowUpQueue.FollowUpsFifo` | src/ante/backtest/executor.py:173-194 | what is attempted plus what is left is the queue plus all replies, in order; it stops early only at exactly the cap |
| `FollowUpQueue.StepOrder` | src/ante/backtest/executor.py:163-194 | a step attempts every on_step signal and then a prefix of the replies in the order given, all of them unless exactly 1000 were filled |
| `NoLookahead.NoLookahead` | src/ante/backtest/executor.py:134-216 | two runs whose data agree up to t are equal in balance, positions, trades, curve and everything observed after each step up to t |
| `NoLookahead.TruncationReportsSameEquity` | src/ante/backtest/executor.py:196-220 | cutting the data off at t reports as final balance what the full run recorded at its last step up to t |
| `NoLookahead.RunExtends` | src/ante/backtest/executor.py:198-206 | steps only append to the curve and to the trades |
| `FillTerms.BarIsRow` | src/ante/backtest/data_provider.py:258-291 | a signal can fill at an instant only if its symbol has a row of that very instant, and then at its close |
| `FillTerms.MarkIsLatestRow` | src/ante/backtest/data_provider.py:235-256 | a holding is marked at the close of the latest row not after the instant |
| `FillTerms.FillsIff` | src/ante/backtest/executor.py:236-358 | a signal fills if and only if side, quantity and symbol are admissible, the symbol has a bar, the bar stands right to limit and stop for its type and side, and cash covers cost and fee (buys) or something is held (sells) |
| `FillTerms.FillDoes` | src/ante/backtest/executor.py:342-410 | what a fill does, in prices: bar and slippage, bounded by the limit, give the price; quantity, fee, cash, the recorded trade and the fill reported follow |
| `FillTerms.FillMovesHolding` | src/ante/backtest/executor.py:517-531 | a buy averages its cost in, a sale leaves the average, nothing held is no entry, and other holdings stay |
| `FillTerms.StepRecords` | src/ante/backtest/executor.py:196-206 | a step ends with one more point: its instant, cash plus all holdings at their latest close, and cash |
| `FillTerms.StepShows` | src/ante/backtest/executor.py:145-162 | at the start of a step the strategy is shown the instant, cash, trades and exactly the rows up to that instant |
| `FillTerms.FillShows` | src/ante/backtest/executor.py:163-194 | each fill is shown to the strategy with the account as it has left it, and its replies are taken; what does not fill is not |
| `TradePnl.EstimateTradePnl` | src/ante/backtest/metrics.py:185-218 | one loop over the trade log computes the ledger of average-cost lots |
| `TradePnl.LedgersAgree` | src/ante/backtest/metrics.py:185-218 | after every step of every run: same held quantities, one entry per sale, cash + open cost basis = initial balance + realised profit |
| `TradePnl.FlatProfitIsCashChange` | src/ante/backtest/metrics.py:185-218 | when flat, the reported profits sum to the change in cash |
| `TradePnl.AveragesAgree` | src/ante/backtest/executor.py:517-531 | over every run the open cost of the trade-log ledger is quantity times the executor's average price, plus the buying fee on it |
| `TradePnl.CountsAreConsistent` | src/ante/backtest/metrics.py:11-100 | wins and losses do not exceed sales, the win rate is a percentage, profit minus loss is the realised total |
| `TradePnl.WonAreProfits` | src/ante/backtest/metrics.py:67-74 | the sales counted as won are exactly those with a positive profit |
| `TradePnl.LostAreLosses` | src/ante/backtest/metrics.py:67-75 | the sales counted as lost are exactly those with a negative profit |
| `TradePnl.WinRateIs` | src/ante/backtest/metrics.py:70-83 | the number of sales and the share of them that were won, in percent |
| `Drawdown.MaxDrawdown` | src/ante/backtest/metrics.py:143-182 | one pass finds the deepest fall from the running peak and the longest stretch below it, including one that reaches the end |
| `Drawdown.MaxDropIsQuadratic` | src/ante/backtest/metrics.py:143-182 | for positive equities that is the largest percentage fall over all pairs i <= j, in [0, 100) |
| `Drawdown.DropIsPercentage` | src/ante/backtest/metrics.py:143-182 | a fall is counted in percent of its peak, and from a peak that is not positive there is none |
| `Resample.ResampleEquityCurveDaily` | src/ante/backtest/result.py:92-115 | returns the curve unchanged up to the threshold, else the values of the insertion-ordered dictionary |
| `Resample.OnePointPerDay` | src/ante/backtest/result.py:92-123 | one point per distinct day, each the last of its day, every day kept |
| `Resample.ResampleIdempotent` | src/ante/backtest/result.py:92-115 | folding twice is folding once |
| `Resample.ResampleChronological` | src/ante/backtest/result.py:92-123 | a chronological curve folds to strictly increasing days and keeps its final point |
| `Resample.ReportedCurve` | src/ante/backtest/result.py:89-108 | a curve of up to 500 points is reported as it is, a longer one day by day |
| `Resample.DayOfPoint` | src/ante/backtest/result.py:118-123 | the day of a point is up to ten characters of its date, or else of its time stamp |
| `Calendar.CutoffIsThreeMonthsBack` | src/ante/broker/kis.py:304-325 | the cutoff lies three months back on the same day or the last day of a shorter month; it is a valid date exactly from April of year 1 |
| `Calendar.CutoffDistance` | src/ante/broker/kis.py:304-325 | between 89 and 92 days earlier |
| `Calendar.CutoffMonotone` | src/ante/broker/kis.py:304-325 | a later day never has an earlier cutoff |
| `Calendar.OrdinalOrders` | src/ante/broker/kis.py:316-325 | the calendar order is the order of counted days |
| `Calendar.DaysBeforeYearIs` | src/ante/broker/kis.py:316-325 | the years are those of the Gregorian calendar, leap years by the rule of 4, 100 and 400 |
| `Calendar.FormatOrders` | src/ante/broker/kis.py:1775-1783 | comparing YYYYMMDD strings compares dates |
| `Calendar.BoundaryIsTheDateComparison` | src/ante/broker/kis.py:1775-1783 | the string test `start >= cutoff` holds exactly when the start is not before the cutoff day |
| `OrderHistory.RequestPaginated` | src/ante/broker/kis.py:998-1075 | the loop over cursors returns what the page walk collects, or fails with the request |
| `OrderHistory.PagedFetchIsWhole` | src/ante/broker/kis.py:1033-1075 | the first `cap` pages in order; complete if and only if the pages beyond hold no row |
| `OrderHistory.FoldOrderHistory` | src/ante/broker/kis.py:1819-1868 | the insertion-ordered fold of the rows |
| `OrderHistory.FoldKeepsPeak` | src/ante/broker/kis.py:1836-1868 | an entry projects the last row with the largest quantity of its (odno, day) |
| `OrderHistory.EntryTells` | src/ante/broker/kis.py:1836-1868 | an entry is a buy exactly for code 02, filled exactly if something was, at amount per unit, else the average price, else the price ordered at |
| `OrderHistory.GetOrderHistory` | src/ante/broker/kis.py:1814-1817 | up to 100 pages, folded, or the error of the request |
| `OrderHistory.FoldIgnoresOrder` | src/ante/broker/kis.py:1836-1868 | reordering or repeating rows changes neither the orders listed nor their quantities |
| `OrderHistory.FoldThenApply` | src/ante/broker/fill_scheduler.py:455-494 | max-applying the folded list records what max-applying every raw row records |
| `OrderHistory.HistoryEndToEnd` | src/ante/broker/fill_scheduler.py:446-494 | for any split into at most `cap` pages, each recorded quantity becomes the largest the ledger shows |
| `CircuitBreakers.CircuitBreaker.State` | src/ante/broker/circuit_breaker.py:58-66 | reading the state turns an open breaker half open once the recovery time has passed |
| `CircuitBreakers.CircuitBreaker.Check` | src/ante/broker/circuit_breaker.py:71-78 | blocks exactly when the effective state is open |
| `CircuitBreakers.CircuitBreaker.RecordSuccess` | src/ante/broker/circuit_breaker.py:80-84 | closes and resets the count |
| `CircuitBreakers.CircuitBreaker.RecordFailure` | src/ante/broker/circuit_breaker.py:86-100 | counts, stamps, reopens from half open and opens at the threshold |
| `CircuitBreakers.RequestWithCont` | src/ante/broker/kis.py:930-967 | the retry loop: the first answer or final failure decides, otherwise the last error wrapped; the breaker sees exactly the attempts |
| `CircuitBreakers.AttemptsMade` | src/ante/broker/kis.py:941-967 | an attempt is followed by another exactly if it raised a timeout, a network error, a rate limit or a retryable API error and attempts are left; each is reported once, in order |
| `CircuitBreakers.OutcomeIs` | src/ante/broker/kis.py:385-392 | the call ends as its last attempt did; a timeout or network error comes out as a retryable API error |
| `CircuitBreakers.FailureCounts` | src/ante/broker/kis.py:362-382 | exactly timeouts of calls without exemption, network errors, rate limits and retryable API errors count, and one opens the breaker when half open or at the threshold |
| `CircuitBreakers.TimeoutErasure` | src/ante/broker/kis.py:930-967 | from any interleaving, erasing calls that only timed out under the exemption changes neither any other check nor the breaker at any later moment |
| `CircuitBreakers.ExemptTimeoutsAreErasable` | src/ante/broker/kis.py:956-960 | an exempt call that times out on every attempt leaves such a log |
| `CircuitBreakers.BlocksOnFullStreak` | src/ante/broker/circuit_breaker.py:58-100 | over every interleaving the breaker is seen closed exactly while the streak of failures is short of the threshold, and blocks exactly within the recovery time of the last failure of a full streak |
| `TokenProtocol.StepKeeps` | src/ante/broker/kis.py:598-656 | every step of every call, at any moment, keeps the invariant of cache, lock, cooldown and requests |
| `TokenProtocol.OneInFlight` | src/ante/broker/kis.py:598-625 | at most one token request per app key is in flight, across all adapters |
| `TokenProtocol.StartsOnlyWhenAllowed` | src/ante/broker/kis.py:238-295 | no request starts during a recorded cooldown or while the fingerprint has a fresh cached token |
| `TokenProtocol.RequestsAreSpaced` | src/ante/broker/kis.py:598-730 | over a run, requests of one app key never overlap, are 60 s apart after a rate limit, and for one fingerprint wait until five minutes before the stored token expires |
| `TokenProtocol.ReturnsWithOwnToken` | src/ante/broker/kis.py:627-752 | every normal return leaves the adapter with a token issued for its own fingerprint |
| `TokenCalls.ReturnsFresh` | src/ante/broker/kis.py:598-752 | over every run, at the step in which a call returns, its adapter's token is its own and more than five minutes from expiring, or it is the one this very call was granted and stores in that step |
| `TokenCalls.FailsForAReason` | src/ante/broker/kis.py:598-735 | a call fails only because its app key is cooling down, the server refused it or it was cancelled |
| `TokenCalls.CooldownsFollow` | src/ante/broker/kis.py:712-735 | only the rate-limit answer starts a cooldown, of 60 seconds, of its own app key |
| `TokenCalls.CacheFollows` | src/ante/broker/kis.py:610-656 | the shared cache changes only when a granted token is stored, under the fingerprint it was issued to |
| `TokenCalls.CallAlone` | src/ante/broker/kis.py:737-752 | a call returns at once if the adapter's own token is valid for five more minutes, and looks further otherwise |
| `TokenCalls.AuthenticateAlone` | src/ante/broker/kis.py:598-625 | with nothing in between: the shared token if fresh, else an error while cooling down, else waiting while the lock is held, else exactly one request under the lock |
| `TokenCalls.AnswerAlone` | src/ante/broker/kis.py:658-735 | how each answer ends the call: token of 24 hours stored, cooldown and error, or error alone, and the lock released |
| `TokenCalls.CancellationEnds` | src/ante/broker/kis.py:598-625 | a call cancelled while waiting for lock or answer fails, frees the lock it held and leaves neither token nor cooldown |
| `BrokerCacheProofs.StepKeeps` | src/ante/account/service.py:589-743 | every step keeps the invariant of the cached adapter |
| `BrokerCacheProofs.OnlyConnectedAreShared` | src/ante/account/service.py:1073-1102 | only connected adapters are cached or handed out |
| `BrokerCacheProofs.OneBuilds` | src/ante/account/service.py:1059-1102 | at most one build and connect runs, and none while the shutdown peek reads the cache |
| `BrokerSharing.NothingNeedless` | src/ante/account/service.py:710-743 | over every run: while an adapter is cached, no move of a `get_broker` builds, connects or replaces anything, and while none is, no move of an update does |
| `BrokerSharing.OneAdapterForAll` | src/ante/account/service.py:1059-1072 | over every run without an update, however many callers race: at most one adapter is ever connected, and every caller that gets one gets that one |
| `BrokerSharing.CacheFollows` | src/ante/account/service.py:1067-1072 | the cache changes only by a successful connection, and then holds what was connected |
| `BrokerSharing.BuildsFollow` | src/ante/account/service.py:710-743 | an adapter is built only where one is needed, from the configuration of that moment |
| `BrokerSharing.HandsOutTheCached` | src/ante/account/service.py:1059-1102 | who gets an adapter gets the one then in the cache, and who peeks is told what is in it |
| `BrokerSharing.GetAlone` | src/ante/account/service.py:1059-1072 | with nothing in between: the cached adapter, or a new one, built, connected and cached |
| `BrokerSharing.UpdateAlone` | src/ante/account/service.py:710-743 | an update puts a connected adapter of the new configuration in place of the cached one, and builds none when none is cached |
| `BrokerSharing.FailureAlone` | src/ante/account/service.py:710-743 | a failing write, build or connection is reported, frees the lock and leaves the cache as it was |
| `BrokerSharing.CancellationEnds` | src/ante/account/service.py:1059-1072 | a cancelled coroutine holds no lock and leaves cache and adapters as they were |
| `BrokerCacheProofs.StaleHasACause` | src/ante/account/service.py:710-743 | every configuration newer than the cached adapter belongs to an update still reconnecting, one that reported failure, or one interrupted before |
| `BrokerCacheProofs.QuiescentIsCurrent` | src/ante/account/service.py:589-627 | with no update pending and none gone wrong, the cached adapter has the current configuration |
| `FillRecovery.LookupSpec` | src/ante/trade/order_tracker.py:535-571 | the live order with the number, submitted latest on or before the day |
| `FallbackTerms.ReportRecords` | src/ante/trade/order_tracker.py:319-404 | a report is recorded for the latest order it can be about if it shows more than was recorded; it fills that order once it reaches the quantity ordered, and touches no other |
| `FillRecovery.ReportsAdvance` | src/ante/trade/order_tracker.py:319-404 | reports only advance: identity kept, recorded never falls, terminal orders untouched |
| `FillRecovery.CreditIff` | src/ante/trade/order_tracker.py:535-571 | whatever was reported before, even only what can be true, a report is credited to the order it is about if and only if no older order of a reused number was live |
| `FillRecovery.ReusedNumberCounterexample` | src/ante/trade/order_tracker.py:535-571 | a reused number whose fill, reported twice, is credited to yesterday's order as well |
| `FillRecovery.ReportsKeepBounded` | src/ante/broker/fill_scheduler.py:455-494 | truthful reports keep recorded <= true fill <= ordered |
| `FillRecovery.ReportsIdempotent` | src/ante/broker/fill_scheduler.py:455-494 | polling the same reports again changes nothing, also after fills or expiries in between |
| `PollCycle.FallbackCompletes` | src/ante/broker/fill_scheduler.py:705-830 | the fallback completes exactly the orders it fires for and touches no other |
| `FallbackTerms.CompletedIff` | src/ante/broker/fill_scheduler.py:669-830 | the fallback records exactly the open buys without any recorded fill, alone open in their symbol, for which the account holds exactly the ordered quantity more than the books; each in full, and no other order |
| `FallbackTerms.RaisesIff` | src/ante/broker/fill_scheduler.py:426-510 | a cycle raises exactly if the ledger, or the positions asked for because a buy was missed, cannot be had; it leaves the reports applied and nothing expired or pruned |
| `FallbackTerms.AskedFrom` | src/ante/broker/fill_scheduler.py:426-446 | the ledger is asked from the earliest day of an open order or of a check on, and not at all if there is neither |
| `PollCycle.ExcessExplained` | src/ante/broker/fill_scheduler.py:770-805 | with one live buy, broker minus books is its missing fill less the sells not yet recorded |
| `PollCycle.FallbackSoundIff` | src/ante/broker/fill_scheduler.py:780-816 | when it fires, the order was filled in full exactly if outside trades balance the unrecorded sells, in particular without outside trades |
| `PollCycle.RaisingExpiresNothing` | src/ante/broker/fill_scheduler.py:415-425 | a cycle ended by a raising call expires nothing and loses nothing recorded |
| `PollCycle.CycleKeepsBounded` | src/ante/broker/fill_scheduler.py:426-510 | a whole cycle keeps recorded <= true fill <= ordered for every order |
| `PollCycle.OneAlertPerOrder` | src/ante/broker/fill_scheduler.py:536-591 | within a cycle each completed order is contradicted at most once, by a report of its own day showing less than was recorded |
| `PollCycle.ChecksAreOfToday` | src/ante/broker/fill_scheduler.py:512-534 | after a cycle that completes, every check still kept is of that day, and none is of a later one |
| `PollCycle.NextWindow` | src/ante/broker/fill_scheduler.py:426-446 | so the next poll asks back to today or to the day of the oldest live order, never further for a check |
| `PollCycle.NoneAppliedIff` | src/ante/broker/fill_scheduler.py:446-510 | the number of fills a cycle reports is zero exactly if it left every recorded quantity as it was |
| `PollAlerts.OneAlertOverCycles` | src/ante/broker/fill_scheduler.py:536-591 | over any number of successive cycles, whatever happens to the orders between them, each completed order is contradicted at most once |
| `PollContradictions.TodaysContradictionIsReported` | src/ante/broker/fill_scheduler.py:512-591 | two cycles of one day, orders read as they were submitted: when the fallback of the first recorded an order of the day in full, the next one asks for the ledger, and alerts on the first fill it shows of the order if and only if that is less than was ordered |
| `PollContradictions.ContradictionIsReported` | src/ante/broker/fill_scheduler.py:512-591 | the same for orders read in any order, when the first cycle completed none of the same number after it |
| `PollContradictions.ExpiresExactly` | src/ante/broker/fill_scheduler.py:500-510 | exactly the open orders of earlier days of which neither report nor fallback knew a fill expire |
| `FallbackReads.FiringIff` | src/ante/broker/fill_scheduler.py:705-816 | with anything happening between the reading of open orders, positions and books: a completion is right if and only if what strayed into the comparison (fills of other orders and trades outside that positions and books show differently) is made up for by what the books already showed of the order and what was filled of it since |
| `FallbackReads.OtherBuys` | src/ante/broker/fill_scheduler.py:706-769 | where it can stray from: every other buy of the symbol was finished when the open orders were read or was submitted afterwards |
| `FallbackReads.UndisturbedIsRight` | src/ante/broker/fill_scheduler.py:780-816 | order by order: with no later or finished buy unrecorded, no sell recorded between the reads and no purchase outside, the order was filled in full; sells not yet recorded do no harm |
| `RecoveryRuns.RecordedWithinIff` | src/ante/broker/fill_scheduler.py:426-510 | over every run in which orders, true fills, cancellations, expiries, outside trades, day changes and failing calls fall anywhere between the awaits of a cycle: recorded <= true fill <= ordered at every moment for all orders, if and only if every completion by the fallback is made up for in that sense |
| `RecoveryRuns.PollerRuns` | src/ante/broker/fill_scheduler.py:426-510 | the poller in such a run makes the moves of a run of `PollRuns`, the fills of its fallback included |
| `PollerAlone.CycleAlone` | src/ante/broker/fill_scheduler.py:426-510 | the moves of this poller, with nothing in between, leave the table that one cycle of `PollCycle` computes, whatever it is answered |
| `CarefulRuns.RecordedWithinTrueFill` | src/ante/broker/fill_scheduler.py:426-510 | the bound holds over every such run in which a buy is finished only when its fill is recorded, no buy submitted after the open orders were read is filled before the positions are read, no sell is recorded between positions and books, and nobody outside buys |
| `RecoveryRaces.LaterBuy` | src/ante/broker/fill_scheduler.py:706-802 | a buy submitted and filled between the first two reads: the older, unfilled one is completed |
| `RecoveryRaces.RecordedSell` | src/ante/broker/fill_scheduler.py:732-802 | a sell filled and recorded between the last two reads: an unfilled buy is completed |
| `RecoveryRaces.HiddenBuy` | src/ante/broker/fill_scheduler.py:732-802 | a buy cancelled here after its fill and before the ledger shows it: another, unfilled one is completed |
| `RecoveryRaces.OutsideBuy` | src/ante/broker/fill_scheduler.py:732-802 | a purchase outside: an unfilled buy is completed |
| `PollExamples.HiddenFillIsMisattributed` | src/ante/broker/fill_scheduler.py:490-510 | an expired order whose fill the ledger had not shown: the next cycle records that fill for an unfilled order of the same symbol and size |
| `PollRepeat.SecondCycleIff` | src/ante/broker/fill_scheduler.py:426-510 | with books that follow the recorded fills, a second identical cycle changes nothing if and only if the first did not expire the very orders that kept a matching order from being completed; a third never does |
| `PollExamples.SteadyIsMet` | src/ante/broker/fill_scheduler.py:705-830 | the exact books of an account that started empty meet that hypothesis, whatever the broker answers |
| `PollExamples.FiringAndHeldBack` | src/ante/broker/fill_scheduler.py:705-830 | such an account with one order that the first cycle completes and one that it holds back |
| `PollExamples.SecondCycleCounterexample` | src/ante/broker/fill_scheduler.py:490-510 | two open buys of one symbol, one stale: two whole cycles, of which the second completes the other |
| `FillScheduler.OrderTracker.Apply` | src/ante/trade/order_tracker.py:319-404 | one report applied to the order it maps to, with a positive increment exactly when something changed |
| `FillScheduler.FillReconcileScheduler.VerifyFallbackAgainstCcld` | src/ante/broker/fill_scheduler.py:536-591 | settles the check of a completed order on the first report of its number and day, with an alert when the ledger shows less |
| `FillScheduler.FillReconcileScheduler.ApplyPositionFallback` | src/ante/broker/fill_scheduler.py:705-830 | counts, totals and the loop over unrecovered buys compute the fallback phase |
| `FillScheduler.FillReconcileScheduler.PollAndApply` | src/ante/broker/fill_scheduler.py:426-510 | reports, then fallback, then expiry; a raising call ends the cycle; returns the number of fills applied |
| `PollRuns.PollBeforeExpire` | src/ante/broker/fill_scheduler.py:426-510 | over every run with submissions, cancellations, fills, day changes and failing calls anywhere: an order expires only after a successful history call of that cycle covering its day, with no fill of it reported, in a cycle begun on a later day |
| `Approvals.ApprovalService.CreateRequest` | src/ante/approval/service.py:117-199 | validation order, automatic approval, then execution |
| `Approvals.ApprovalService.ApproveRequest` | src/ante/approval/service.py:201-265 | approves a pending or failed request of a known kind and executes it |
| `Approvals.ApprovalService.RejectRequest` | src/ante/approval/service.py:267-341 | rejects a pending or failed request |
| `Approvals.ApprovalService.ReopenRequest` | src/ante/approval/service.py:343-447 | the requester resubmits a rejected request, validated again |
| `Approvals.ApprovalService.CancelRequest` | src/ante/approval/service.py:449-515 | the requester withdraws an unresolved request |
| `Approvals.ApprovalService.HoldRequest` | src/ante/approval/service.py:517-548 | puts a pending or failed request on hold |
| `Approvals.ApprovalService.ResumeRequest` | src/ante/approval/service.py:550-577 | returns a held request to pending |
| `Approvals.ApprovalService.ReviewRequest` | src/ante/approval/service.py:579-626 | appends a review and its history entry |
| `Approvals.ApprovalService.ExpireStaleRequests` | src/ante/approval/service.py:628-676 | expires every overdue pending request, one row at a time, and counts them |
| `Approvals.ApprovalService.CancelInvalidTypeRequest` | src/ante/approval/service.py:783-885 | cancels an unresolved request of an unknown kind |
| `Approvals.ApprovalService.ExecuteApproved` | src/ante/approval/service.py:991-1076 | executed, failed, without executor or interrupted |
| `Approvals.StatusIsReplay` | src/ante/approval/service.py:201-676 | over every serialized run each stored status and resolver is the replay of the stored history, and each history is one the workflow allows |
| `Approvals.FinalIsAbsorbing` | src/ante/approval/service.py:220-229 | an approved, expired or cancelled request keeps its status under every operation; histories are only appended to |
| `Approvals.FinalStays` | src/ante/approval/service.py:201-676 | the same over whole runs, in which only reviews are still added |
| `Approvals.ExecutedOnceOverRuns` | src/ante/approval/service.py:1017-1030 | a request is executed at most once, and is approved from then on |
| `Approvals.ApprovedIffExecuted` | src/ante/approval/service.py:991-1076 | when no executor is interrupted, approved means executed exactly once |
| `Approvals.RefusalChangesNothing` | src/ante/approval/service.py:343-390 | a refused operation leaves the table as it was |
| `ApprovalGuards.SweepIs` | src/ante/approval/service.py:628-676 | a sweep expires exactly the pending requests whose deadline is before now, in the name of the system, and leaves all others as they were |
| `ApprovalGuards.NeverExpiredEarly` | src/ante/approval/service.py:628-676 | over every run, a history says expired only at a moment after the deadline of the request |
| `ApprovalGuards.DoneIff` | src/ante/approval/service.py:201-885 | each operation on a request is carried out if and only if the request exists and status, owner, kind, account and validators allow it |
| `ApprovalGuards.RefusedBecause` | src/ante/approval/service.py:201-885 | a refusal names its reason, the first in the order of the checks |
| `ApprovalGuards.Carries` | src/ante/approval/service.py:201-885 | which entries each operation writes and in whose name, and what it leaves alone |
| `ApprovalGuards.Texts` | src/ante/approval/service.py:267-447 | reason, text, parameters and reviews after each operation |
| `ApprovalGuards.CreatedIff` | src/ante/approval/service.py:117-199 | a request is created if and only if its kind is known, its account is there where needed, the validators pass and its identifier is new |
| `ApprovalGuards.CreatedIs` | src/ante/approval/service.py:117-199 | what a new request carries, and that it is approved and executed at once exactly if the rules approve it |
| `TreeDoc.ParseExistingDoc` | scripts/generate_project_structure.py:183-233 | the loop with base, fence, stack and dictionaries computes the line-by-line reading |
| `TreeDoc.CommentsAlign` | scripts/generate_project_structure.py:371-375 | a comment starts at column 38, or one blank after a line that reaches it |
| `TreeDoc.LineReads` | scripts/generate_project_structure.py:139-141 | a printed line reads back as its depth, its name and its comment |
| `TreeShape.NodeIsDrawn` | scripts/generate_project_structure.py:315-344 | a corner before the last sibling and a tee before the others, the name with a slash for a directory, and below it a prefix that goes on with a bar exactly if siblings follow |
| `TreeShape.SiblingsAreDrawn` | scripts/generate_project_structure.py:295-312 | siblings are drawn one after the other, only the last of them as the last |
| `TreeShape.SectionIsFramed` | scripts/generate_project_structure.py:378-396 | a section is its title, a blank line, and between fences its label and its tree |
| `TreeReading.OrderIsOfFirstMentions` | scripts/generate_project_structure.py:195-225 | of any document whatever: its paths are those its tree lines mention, ranked by where each is mentioned first |
| `TreeReading.CommentIsOfLastMention` | scripts/generate_project_structure.py:227-233 | of any document whatever: the comment of a path is the last one that stands beside it, without trailing blanks |
| `TreeRoundTrip.ReadNode` | scripts/generate_project_structure.py:315-344 | reading what was printed of a node collects its entries in preorder, under the base the title names |
| `TreeRoundTrip.ReadSection` | scripts/generate_project_structure.py:378-396 | a whole section, from title to closing fence |
| `TreeRoundTrip.RoundTrip` | scripts/generate_project_structure.py:195-233 | reading a printed document finds exactly the listed paths, each with its comment and its preorder rank |
| `TreeFixedPoint.SortPermutes` | scripts/generate_project_structure.py:283-292 | sorting siblings loses and invents none |
| `TreeFixedPoint.SortByRank` | scripts/generate_project_structure.py:283-292 | siblings come in the order of their known ranks |
| `TreeShape.SiblingsInOrder` | scripts/generate_project_structure.py:283-292 | of two siblings the first may precede the second: by known rank, then directories before files, then by lower-cased name |
| `TreeShape.SortIsStable` | scripts/generate_project_structure.py:283-292 | siblings with equal keys stay in the order in which they were found |
| `TreeFixedPoint.ArrangedAgain` | scripts/generate_project_structure.py:283-312 | the order read back arranges the tree as it was printed |
| `TreeFixedPoint.FixedPoint` | scripts/generate_project_structure.py:367-429 | generating again from a generated document whose paths do not repeat reproduces it, when every title names its base path |
| `TreeFixedPoint.RoundTripIff` | scripts/generate_project_structure.py:177-233 | for any tree of printable names with distinct siblings, reading back yields each path's comment and preorder rank if and only if the title names the base path |
| `TreeFixedPoint.TreeFixedPoint` | scripts/generate_project_structure.py:283-375 | under such a title, printing again from what was read reproduces the document, for any such tree |
| `TreeRegeneration.LaidIsReadable` | scripts/generate_project_structure.py:424-427 | sections that own different paths list no path twice, whatever their comments and order |
| `TreeRegeneration.RegeneratesIff` | scripts/generate_project_structure.py:183-233 | for any comments written into a document and any order of its siblings: reading it and generating again reproduces it if and only if in every section the order read back arranges the tree the same way and every path is given back the comment it carried |
| `TreeRegeneration.MatchedKeptIff` | scripts/generate_project_structure.py:367-368 | under a title that names the base, that is so if and only if no path with a built-in description stands without a comment |
| `TreeRegeneration.LostKeptIff` | scripts/generate_project_structure.py:283-292 | where none of a section's own paths is read back, that is so if and only if it holds only built-in descriptions in the default order |
| `TreeRegeneration.SurvivesIff` | scripts/generate_project_structure.py:398-436 | hence, for a document of such sections, reproduction can be told from its own lines |
| `TreeRegeneration.GeneratedIsFixed` | scripts/generate_project_structure.py:398-436 | what the generator printed is generated again when every title names its base |
| `TreeDocuments.SourcesAreLaid` | scripts/generate_project_structure.py:243-280 | sections whose title bases are pairwise incomparable share no path, for all files with printable components |
| `TreeDocuments.UpdateTwice` | scripts/generate_project_structure.py:398-436 | from any old document and a list of files: read, build, print, read, and print again; the second document is the first, when the titles name their bases |
| `TreeReading.CommentsCarryOver` | scripts/generate_project_structure.py:367-368 | under titles that name their bases, a listed path has in the new document the comment of the old one, or else its built-in description, or else none |
| `TreeReading.SectionsShown` | scripts/generate_project_structure.py:398-430 | a section is shown if and only if it has no base path, or a file is that path or lies below it |
| `TreeShape.SectionsInOrder` | scripts/generate_project_structure.py:398-430 | sections come in the order in which they are given |
| `TreeShape.FileIsInSection` | scripts/generate_project_structure.py:248-280 | every file below the base of a section is listed there under its own path |
| `TreeShape.TopEntriesShown` | scripts/generate_project_structure.py:243-245 | the top entries shown are exactly those that are a file or hold one |
| `TreeShape.TopEntryIsDrawn` | scripts/generate_project_structure.py:347-364 | a top entry is drawn as a directory if and only if it holds a file |
| `TreeShape.TopEntriesInOrder` | scripts/generate_project_structure.py:347-356 | top entries are drawn in the order in which they are given |
| `TreeDocuments.NoStalePath` | scripts/generate_project_structure.py:243-364 | whatever the old document said, the new one lists exactly the present files of its sections with the directories above them, and the top entries there are |
| `RepositoryDocument.DocumentStaysIff` | scripts/generate_project_structure.py:398-436 | from any list of files: reproduced if and only if no described path lacks its comment under a title that names the base, and every other section is kept by what is read back |
| `RepositoryDocument.DocumentSurvivesIff` | scripts/generate_project_structure.py:398-436 | where a title names the base, or a directory above it whose rest is not repeated below: the other sections are kept if and only if they hold only built-in descriptions in the default order |
| `RepositoryDocument.RepositoryStaysIff` | scripts/generate_project_structure.py:46-56 | for any files of documents shaped like this repository's: reproduced if and only if no described path lacks its comment in all sections but the last, and the last, whose title names a directory above its base path, is kept by what is read back |
| `RepositoryDocument.RepositorySurvivesIff` | scripts/generate_project_structure.py:46-56 | unless there is a file below frontend/src/src, the last section is kept if and only if it holds only built-in descriptions in the default order |
| `RepositoryDocument.NamesCanBeTop` | scripts/generate_project_structure.py:58-80 | the directories of the sections can be top entries: none lies below another |
| `RepositoryDocument.RepositoryIsPlain` | scripts/generate_project_structure.py:46-56 | the nine sections of this repository are of that shape |
| `RepositoryDocument.FrontendCommentIsLost` | scripts/generate_project_structure.py:46-56 | the document generated with a recorded comment on frontend/src/App.tsx is not generated again |
| `TreePaths.BuildTree` | scripts/generate_project_structure.py:248-280 | the loop over files builds the tree of their components |
| `TreePaths.TreeOfFiles` | scripts/generate_project_structure.py:248-280 | distinct siblings, directories exactly where something lies below, and as paths exactly the files of the section and the directories above them |
| `TreePaths.EntriesAreTree` | scripts/generate_project_structure.py:315-344 | the printed entries are exactly the paths of the tree |
| `TreePaths.TreePathsDistinct` | scripts/generate_project_structure.py:217-219 | no two entries of a section share a path |
| `TreePaths.FoundIffTitleMatches` | scripts/generate_project_structure.py:177-180 | an entry is found under its own path if and only if the title's base is the base path |
| `TreePaths.TitleGivesBase` | scripts/generate_project_structure.py:177-180 | a title `base/ — description` names `base` |
| `TreePaths.FrontendMismatch` | scripts/generate_project_structure.py:55-55 | the frontend section's title does not name its base path |

## Left out

- Floating point: amounts are exact reals, so float error, NaN or infinite prices and rounding are not captured; a
  quantity that is not a finite number is a case of its own.
- Metrics with roots and powers: Sharpe ratio and annualised return.
- DataProviders.BacktestDataProvider.Load: parquet reading, date cuts, no-trade bar normalisation, the failure on
  corrupt partitions and the record of loaded datasets are not modelled; a store is a function from keys to frames.
- DataProviders.BacktestDataProvider.Reset: clearing the record of loaded datasets is not modelled.
- TradePnl.CountsAreConsistent: profit factor, average win and loss, commission total and rounding are not modelled.
- CircuitBreakers.RequestWithCont: authentication and rate waiting inside an attempt are not modelled; other calls
  between its attempts are the subject of `TimeoutErasure`.
- Data loaded by a strategy during an executor run: the executor is modelled on the preloaded data of its service;
  what loading in mid-run can do is stated for the provider alone, in `LoadsRevealNothing`.
- Iteration order of the positions dictionary: sums and snapshots do not depend on it.
- Executor.BacktestExecutor.Run: calls to `on_start`, `on_stop`, the progress callback and the packing of the result
  are not modelled.
- OrderHistory.FoldOrderHistory: the parsing of number fields is not modelled; rows carry numbers.
- OrderHistory.RequestPaginated: the two warnings it logs are not modelled.
- TokenProtocol.StepKeeps: fairness of the lock, the wording of errors and sharing between processes are not modelled.
- BrokerCacheProofs.StepKeeps: `delete`, which drops the cached adapter outside the lock on a stopped server, and
  `disconnect` are not modelled.
- FillRecovery.ReportsAdvance: prices, trades, positions, the outbox and the in-memory open cache are not modelled;
  a report sets the recorded quantity and the status.
- PollRuns.PollBeforeExpire: the fallback's own fills appear as fills at arbitrary moments.
- FillScheduler.FillReconcileScheduler.PollAndApply: the count is specified for cycles that complete; a call that
  raises returns none.
- RecoveryRuns.RecordedWithinIff: the books are taken to show opening position plus recorded fills, so no bot holds a
  short position; a failing write of a fill is a call that gives up.
- FillScheduler.FillReconcileScheduler.ApplyPositionFallback: grouping candidates by symbol is replaced by the test
  that the symbol has one live buy, since larger groups are skipped; its three reads see one state, and what may
  happen between them is the subject of `FallbackReads` and `RecoveryRuns`.
- The start-up catch-up, the polling loop with its backoff, and streamed increments.
- `_rate_limit_wait`: it records the time taken before sleeping, so the per-minute bound is not claimed.
- Approvals.StatusIsReplay: concurrent calls and failing database writes are not modelled; events, notifications and
  the detail texts of history entries are left out.
- Approvals.ApprovalService.ExecuteApproved: the repeated check of the kind and failing writes are not modelled.
- TreeDoc.ParseExistingDoc: splitting the text into lines is not modelled, so names and comments are taken to hold no
  line break; a missing file reads as no lines, the generated-at line is part of the preamble, and the blank line after
  the last section is kept.
- RepositoryDocument.RepositorySurvivesIff: a file below frontend/src/src, whose comment the frontend section would
  give to another file, is outside this form of the condition; `RepositoryStaysIff` covers it.
- TreeFixedPoint.FixedPoint: that no path repeats is assumed here; `TreeDocuments.SourcesAreLaid` derives it.
- TreeShape.SiblingsInOrder: lower-casing is an arbitrary function.
- Notification, logging, encryption, SQL text, HTTP and command-line formatting.
