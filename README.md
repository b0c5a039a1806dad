# Backtest-Analyzer: the daily profit/loss cap and its parameter sweep

This project models the core of Backtest-Analyzer in Dafny. Backtest-Analyzer replays a table of backtested trades under a daily profit cap and a daily loss cap, then sweeps a grid of cap pairs to find the most profitable one. The model covers the following.

- **`DataProcessor`** (data_processor.py), a class (`Processing.DataProcessor`).
  - It keeps the trade table.
  - It groups the table by trade date, with each day in entry-time order.
  - It replays the days in ascending date order. A running day total decides, trade by trade, whether a cap trips.
  - It accumulates the equity, its running peak, the maximum drawdown, the day and trade counters, the profit factor and the win rate.
  - The imperative methods are proved equal to the pure specification `Simulation.Simulate`. Its properties are proved in `DayProperties` (one day) and `SimulationProperties` (the summary).
- **`Optimizer`** (optimizer.py), a class (`Optimization.Optimizer`).
  - It builds the `numpy.arange` grids of both caps and their product in profit-major order.
  - It runs `apply_daily_limits` once per pair, keeps the results that are not `None`, and stable-sorts them by total profit, highest first.
  - It relays the processor's progress into the sweep's progress.
- **Trade model** (trade_model.py). A trade's date and profitability, and the `TradeCollection` class that keeps its list sorted by entry time. Also the collection's pure queries and the identity string of an `OptimizationResult`.
- **Helpers** (utils.py). The drawdown series, the trading-day rule (06:00 and 18:00 cut-offs), safe division, and the unit-scaling loop of `memory_usage`.

**How the model represents the source:**
- Money is held in integer cents. Ratios (profit factor, win rate, drawdown percentage) are `real`. Python's `float('inf')` is the `Infinite` case of `Common.Factor`.
- A date-time is a day number plus a second of the day.
- The Qt signals `progress_signal` and `status_signal` are modelled as logs that the methods append to. Status texts are datatype values.

**Where the code departs from what one might expect, the model follows the code:**
- After a cap trips, the day's later trades are not dropped. They are recorded in `trade_details` as not executed, with profit 0 (data_processor.py:135-145).
- A cap trips on the trade's maximum favourable or adverse excursion and needs the sign of its realised profit (data_processor.py:157, 173). So a trade with zero profit never trips a cap.
- The equity curve has one point per day and no leading zero point (data_processor.py:222-226).
- The processor's running peak starts at 0 (data_processor.py:109). The peak of `calculate_drawdown` starts at the first equity (utils.py:43).
- After `set_trades` with an empty table, the old day groups stay in place (data_processor.py:38-39). `apply_daily_limits` then replays them while reporting `total_trades` as 0. `Processing.DataProcessor.Valid` allows exactly this.
- The `Optimizer` constructor stores its trades but does not hand them to its processor (optimizer.py:24-33). Only `set_trades` does.
- A grid can overshoot its end value (`Optimization.GridShape`).
- One might expect that raising the profit cap never lowers a day's result. It can: `DayProperties.RaisingProfitCapCanLowerDay` proves a two-trade counterexample.

## Model

| member | source | states |
|---|---|---|
| Processing.DataProcessor.constructor | data_processor.py:23-26 | A new processor has no table, no day groups and empty signal logs. |
| Processing.DataProcessor.SetTrades | data_processor.py:28-34 | Keeps the table. A non-empty table is regrouped into a grouping of exactly that table, with one group per unique date. An empty table leaves the old groups in place. The logs grow by exactly what preparing the table emits. |
| Processing.DataProcessor.PrepareDailyTrades | data_processor.py:36-65 | With no table or an empty one, nothing changes. Otherwise the new groups hold one entry per date of the table. Each entry holds exactly that date's rows (as a multiset), in entry-time order. Progress is reported after each date, non-decreasing up to 100, followed by one status naming the number of days. |
| Processing.UniqueDates | data_processor.py:46 | The dates of the table, each exactly once. |
| Processing.GroupByDate | data_processor.py:45-62 | The loop's map is a daily grouping of the rows, with one key per unique date, and its progress series is the per-date percentages. |
| Processing.PrepareEmits | data_processor.py:60-65 | A non-empty table has at least one date. Preparing it emits one percentage per date, the last being 100, and one status naming the number of dates. |
| Processing.DataProcessor.ApplyDailyLimits | data_processor.py:67-259 | Returns `Outcome`: `None` with one status message without groups or with a cap that is not positive. Otherwise returns `Simulation.Simulate`: the `Simulation.Summarize` of the groups replayed in ascending date order. It leaves the table and groups untouched and emits one percentage per day. |
| Processing.Outcome | data_processor.py:74-85 | The result is `None` exactly when there are no groups or a cap is not positive. Otherwise it carries the two caps it was given. |
| Processing.RefusalOrRun | data_processor.py:74-85 | A refusal emits exactly one status and no progress. A run emits no status and one progress value per day. |
| Processing.ReplayDays | data_processor.py:114-244 | The outer loop yields exactly `Simulation.SimulateOn` of the dates given, and the per-day progress series. |
| Processing.ReplayDate | data_processor.py:118-240 | One pass of the outer loop extends the daily results by the next date's day and keeps every running figure equal to that of the days so far. |
| Processing.AddDay | data_processor.py:200-240 | Appending a day's details, equity point and counters keeps the accumulated figures those of the days seen, with the day appended. |
| Processing.AccumulateDay | data_processor.py:203-238 | The equity, its peak, the maximum drawdown, the curve, the details and every counter after one more day are those of the extended day list. |
| Processing.Finish | data_processor.py:246-257 | The total profit, the maximum drawdown, the profit factor and the win rate computed after the loop are the summary's. |
| Processing.ReplayTrades | data_processor.py:133-210 | The inner loop's day state and details are exactly `ReplayDay` of the day's trades. Its counters and gross gain and loss are those of the details. |
| Processing.StepTrade | data_processor.py:135-198 | One iteration of the inner loop is exactly `Simulation.Step`, whose cases `DayProperties.TriggerAt` characterises. |
| Processing.NextDay | data_processor.py:118-240 | The results for the first k+1 dates are those for the first k, plus the day of date k with the equity carried over. |
| Processing.EveryTradeReplayed | data_processor.py:53-201 | Grouping neither drops nor duplicates a row: the identities (trade number, entry time, exit time, original profit) of the summary's trade details are, as a multiset, exactly those of the table's rows, so there is one detail per row. |
| DayProperties.ReplayShape | data_processor.py:137-197 | Each detail carries its trade's number, entry and exit time and original profit, in trade order. |
| Simulation.ReplayDay | data_processor.py:133-198 | The inner loop over one day appends exactly one trade detail per trade of the day. |
| DayProperties.ReplayPrefix | data_processor.py:133-198 | Replaying the first j trades yields the first j details. |
| DayProperties.ReplayAt | data_processor.py:133-198 | Detail i is the step taken from the state the first i trades left. |
| DayProperties.TriggerAt | data_processor.py:135-198 | A trade is executed exactly when no cap has tripped before it. The profit cap trips exactly for a winning trade whose favourable excursion brings the day to the cap. It then counts `cap - prior total`, and the day stands at the cap. The loss cap is symmetric. A normal trade counts its full profit. A trade after a trigger counts 0 and leaves the state unchanged. |
| DayProperties.ZeroProfitNeverTriggers | data_processor.py:157-173 | A trade with zero profit never trips either cap. |
| DayProperties.AfterTrigger | data_processor.py:135-145 | Once a cap has tripped, every later trade of the day is not executed, with profit 0, and the day's state no longer changes. |
| DayProperties.TriggersExclusive | data_processor.py:157-186 | At most one trigger flag is set for a day. |
| DayProperties.CapExact | data_processor.py:170-186 | A tripped profit cap leaves the day total at exactly the cap. A tripped loss cap leaves it at exactly minus the cap. |
| DayProperties.DayTotalIsSum | data_processor.py:153-198 | The day total is the sum of the profits its details count. |
| DayProperties.OneTriggerPerDay | data_processor.py:157-186 | A day has exactly one triggering trade if a cap tripped, and none otherwise. |
| DayProperties.DayWithinCaps | data_processor.py:157-198 | Under positive caps and trades whose excursions bound their profit, the day total lies in [-loss cap, profit cap]. It lies strictly inside until a cap trips. |
| DayProperties.RaisingProfitCapCanLowerDay | data_processor.py:157-198 | A day of +150 then -300 ends at +100 under a profit cap of 100, but at -100 under a cap of 200. |
| SimulationProperties.RunningSumsExtend | data_processor.py:213-215 | A day whose equity continues the last one keeps every equity the running sum of the daily totals. |
| SimulationProperties.DailyResultsDays | data_processor.py:114-240 | Daily result i records the replay of the group of date i: its date, details, total and flags, and the equity before it plus its total. |
| SimulationProperties.DailyResultsEquity | data_processor.py:213-215 | Each day's cumulative profit is the sum of the daily totals so far, and the final equity is their sum. |
| SimulationProperties.DetailsCount | data_processor.py:200-201 | There is one trade detail per trade of the replayed groups. |
| SimulationProperties.CurveShape | data_processor.py:222-226 | One equity point per day, carrying its date, its equity and its fall below the running peak. |
| SimulationProperties.PeakBounds | data_processor.py:218 | The running peak is at least 0 and at least every equity so far, and is either 0 or one of those equities. |
| SimulationProperties.DrawdownAtPrefix | data_processor.py:218-219 | A day's drawdown depends only on the days up to it. |
| SimulationProperties.DrawdownAtNonNegative | data_processor.py:218-219 | Every day's drawdown is at least 0. |
| SimulationProperties.MaxDrawdownIsMax | data_processor.py:218-220 | The maximum drawdown is at least 0 and at least every day's fall below the running peak. When there is a day, it equals the fall of some day. |
| SimulationProperties.MaxDrawdownZero | data_processor.py:218-220 | The maximum drawdown is 0 exactly when no equity is below 0 or below an earlier equity. |
| SimulationProperties.DayCounters | data_processor.py:229-238 | There is one daily result per date. Profitable plus loss days, and profit-cap plus loss-cap days, are each at most the number of days. Under positive caps, a profit-cap day is profitable and a loss-cap day is a loss day. |
| SimulationProperties.CurveDates | data_processor.py:222-226 | The equity curve has one point per date of the groups, covers every date, and is in strictly ascending date order. |
| SimulationProperties.SameDates | data_processor.py:114 | A curve whose dates are those of `sorted(keys)` covers exactly the keys, in ascending order. |
| SimulationProperties.CurveFollowsDates | data_processor.py:222-226 | Point i of the curve carries date i of the replayed dates. |
| SimulationProperties.CurveOfRunningSums | data_processor.py:213-226 | Each point's equity is the running sum of the daily totals, and its drawdown lies between 0 and the maximum drawdown. |
| SimulationProperties.CurveValues | data_processor.py:213-247 | Each point's equity is the running sum of the daily totals. Its drawdown is the fall below the running peak, within [0, max drawdown]. The total profit is the last equity (0 with no days) and the sum of the daily totals. |
| SimulationProperties.TradeCounters | data_processor.py:200-210 | winning + losing <= executed <= number of details, which equals the number of trades in the groups. |
| SimulationProperties.DetailCounts | data_processor.py:203-210 | Winning and losing details are disjoint kinds of executed detail. |
| SimulationProperties.GrossFigures | data_processor.py:205-210 | The gross gain and loss are at least 0. Each is positive exactly when some executed trade won (respectively lost). |
| SimulationProperties.ProfitFactorCases | data_processor.py:251-254 | The profit factor is infinite exactly when some trade won and none lost, and 0 exactly when none won. It is gross gain / gross loss when both occur, and never negative. |
| SimulationProperties.WinRateOfBounds | data_processor.py:256-257 | The win rate lies in [0, 100]. Times the executed count, it is 100 times the winners. It is 100 exactly when every executed trade won. |
| SimulationProperties.WinRateBounds | data_processor.py:256-257 | The summary's win rate lies in [0, 100], is 0 when nothing was executed, and is 100 exactly when every executed trade won. |
| Seqs.SortedSet | data_processor.py:114 | `sorted(keys)`: strictly ascending, with exactly the set's elements. |
| Seqs.StableSort | optimizer.py:87 | `list.sort(key=...)`: the result is ordered by the key, is a permutation of the input, and keeps the input order among equal keys. |
| Seqs.SortedStableUnique | trade_model.py:45 | The stable sort's result is unique: two sequences with the same elements, both sorted by the key and agreeing within each key, are equal. |
| Progress.PercentDoneBounds | data_processor.py:243 | `int(100 * k / n)` never falls as k grows, lies in [0, 100], and is 100 at k = n. |
| Progress.ProgressSeriesShape | data_processor.py:242-244 | The reported series is non-decreasing, lies in [0, 100], and ends at 100 once every unit is done. |
| TradeModel.Trade.TradeDate | trade_model.py:22-25 | The trade date is midnight of the entry day, no later than the entry and less than a day before it. |
| Calendar.Midnight | trade_model.py:54 | `replace(hour=0, ...)` keeps the day, and its stamp lies within the day before the time. |
| Calendar.StampOrdersDays | trade_model.py:45 | `Calendar.DateTime.Stamp`, the entry-time sort key, orders date-times as their dates: an earlier stamp never has a later date, and an earlier date always has an earlier stamp. |
| TradeModel.TradeCollection.constructor | trade_model.py:39-41 | The collection holds exactly the given trades, stably sorted by entry time. |
| TradeModel.TradeCollection.SortTrades | trade_model.py:43-45 | The trades are a stable permutation of the old ones, sorted by entry time. |
| TradeModel.TradeCollection.AddTrade | trade_model.py:47-50 | The collection grows by one: exactly the old trades plus the new one, stably sorted by entry time. |
| TradeModel.AddInOrderAppends | trade_model.py:47-50 | Adding a trade no earlier than every trade of the collection appends it at the end. |
| TradeModel.SortSortedUnchanged | trade_model.py:43-45 | Sorting an already sorted collection leaves it unchanged. |
| TradeModel.TradesByDate | trade_model.py:52-55 | The result holds exactly the collection's trades whose trade date is the given date's midnight. |
| TradeModel.TradesByDateIsGroup | trade_model.py:52-55 | The query keeps collection order: it is that day's subsequence of the collection. |
| TradeModel.TradesByDateSorted | trade_model.py:52-55 | The trades of a date taken from a sorted collection are sorted. |
| TradeModel.UniqueDates | trade_model.py:65-71 | Empty for no trades, strictly ascending, and holding exactly the trade dates. |
| TradeModel.MinDay | trade_model.py:63 | The earliest trade day of a non-empty collection: a day of some trade, and no later than any. |
| TradeModel.MaxDay | trade_model.py:63 | The latest trade day: a day of some trade, and no earlier than any. |
| TradeModel.GetDateRange | trade_model.py:57-63 | No range exactly for an empty collection. Otherwise two midnights that enclose every trade date. |
| TradeModel.DayIsUniqueDate | trade_model.py:65-71 | The midnight of every trade's day is one of the unique dates. |
| TradeModel.UniqueDateWithinDays | trade_model.py:57-71 | Every unique date lies between the midnights of the first and the last trade day. |
| TradeModel.DateRangeEndsUniqueDates | trade_model.py:57-71 | The range's ends are the first and the last unique date. |
| TradeModel.TotalProfitSplits | trade_model.py:73-88 | `TradeModel.TotalProfit` adds up over concatenation and splits into the winners' and the other trades' sums. |
| TradeModel.WinRate | trade_model.py:77-83 | 0 for no trades. Otherwise, times the number of trades, it equals the number of profitable trades (`TradeModel.Trade.IsProfitable`: profit above 0). |
| TradeModel.WinRateBounds | trade_model.py:77-83 | The win rate lies in [0, 1]. It is 1 exactly when every trade won and 0 exactly when none did. |
| TradeModel.ProfitSums | trade_model.py:87-88 | The winners' sum is at least 0, and positive exactly when some trade won. The others' sum is at most 0, and 0 exactly when all of them broke even. |
| TradeModel.ProfitFactorCases | trade_model.py:85-93 | `TradeModel.ProfitFactor` is infinite exactly when some trade won and every other broke even, and 0 exactly when no trade won. Once some trade lost money, it is finite and, times the losers' magnitude, gives the winners' sum; it is then positive when some trade won. It is never negative. |
| TradeModel.ProfitFactorRatio | trade_model.py:85-93 | Once the losers' sum is negative, the factor is finite, never negative, and times the losses' magnitude gives the winners' sum; it is positive when the winners' sum is. |
| TradeModel.OptimizationResult.Id | trade_model.py:142-145 | The identity reads back as the two limits rounded to whole units (round half to even), with their signs. |
| TradeModel.Underscore | trade_model.py:145 | The first '_' of the identity string. |
| TradeModel.IdSplit | trade_model.py:145 | The first '_' of `PL<p>_LL<l>` follows the profit text, which has no underscore. |
| TradeModel.IdInjective | trade_model.py:142-145 | Two results share an identity exactly when their limits round to the same signed whole amounts. |
| TradeModel.IdOfWholeLimits | trade_model.py:142-145 | For limits of whole units, the identity shows their plain decimal digits. |
| Decimal.NatToString | trade_model.py:145 | The decimal text of a number is non-empty digits with no leading zero. |
| Decimal.NatToStringRoundTrip | trade_model.py:145 | Reading the decimal text back yields the number. |
| Decimal.RoundHalfEven | trade_model.py:145 | `:.0f` rounding: within half a unit of the amount, to the even unit on a tie, and exact on whole units. |
| Decimal.FormatWhole | trade_model.py:145 | The text reads back as the amount's sign and rounded magnitude, and holds only '-' and digits. |
| Decimal.FormatWholeInjective | trade_model.py:145 | Two amounts print alike exactly when they agree in sign and rounded magnitude. |
| Decimal.FormatWholeUnits | trade_model.py:145 | A whole-unit amount prints as its plain digits. |
| Optimization.ArangeCount | optimizer.py:62-63 | The number of `arange` values: the least count at which the next value would pass the stop, for either sign of the step. |
| Optimization.Arange | optimizer.py:62-63 | `arange` yields `start + i * step` for exactly that many i. |
| Optimization.GridShape | optimizer.py:62-63 | With a positive step, `Optimization.Grid` rises strictly from `start`. It is empty exactly when `start >= end + step`. Otherwise its last value lies in [end, end + step). |
| Optimization.GridHitsEnd | optimizer.py:62-63 | For `start <= end`, the grid ends exactly at `end` iff the step divides `end - start`. |
| Optimization.GridPositive | optimizer.py:62-63 | A grid from a positive start with a positive step holds only positive caps. |
| Optimization.Product | optimizer.py:65 | The product has `|ps| * |ls|` pairs. |
| Optimization.ProductAt | optimizer.py:65 | Pair `i * |ls| + j` is `(ps[i], ls[j])`: profit-major order. |
| Optimization.ProductMembers | optimizer.py:65 | A pair is in the product exactly when its parts are in the two grids. |
| Optimization.ProcessorProgressAsWritten | optimizer.py:35-40 | The handler as written divides by zero exactly when no combinations are counted. |
| Optimization.SetTradesBeforeSweepDividesByZero | optimizer.py:35-49 | Loading a non-empty table before any sweep sends the handler at least one percentage, and each one divides by zero. |
| Optimization.SetTradesAfterSweepOverflows | optimizer.py:35-49 | After a finished sweep, a processor percentage of at least the combination count is reported above 100 (200 for one combination at 100%). |
| Optimization.ProcessorProgressBounds | optimizer.py:35-40 | The corrected handler `Optimization.ProcessorProgress` agrees with the written one during a sweep and lies in [0, 100]. It places a combination's progress between the sweep percentages before and after it. |
| Optimization.ProcessorProgressMonotone | optimizer.py:35-40 | A larger processor percentage is never relayed as a smaller one. |
| Optimization.Forward | optimizer.py:35-40 | Each relayed percentage is the handler's value for the processor's. |
| Optimization.Relay | optimizer.py:42-44 | Each processor status is relayed unchanged, in order. |
| Optimization.Collected | optimizer.py:70-80 | A sweep keeps at most one summary per combination. |
| Optimization.RunCombination | optimizer.py:73-84 | One combination emits its own status, then the processor's relayed statuses. It keeps the result of `apply_daily_limits` only when that is not `None`. Its progress is the processor's relayed progress followed by the sweep percentage after this combination. The processor's table and groups are untouched. |
| Optimization.Sweep | optimizer.py:70-84 | The loop's results, progress and status are `Collected`, `SweepProgress` and `SweepStatus` of the combinations, and the processor's table and groups are untouched. |
| Optimization.CollectedAll | optimizer.py:70-80 | With day groups and positive caps, every combination yields a result carrying its own caps, in sweep order. |
| Optimization.CollectedNone | optimizer.py:57-77 | Without day groups, no combination yields a result, and the processor reports one refusal per combination. |
| Optimization.ApplyProgressShape | data_processor.py:242-244 | A run's progress is non-decreasing within [0, 100]. |
| Optimization.ForwardShape | optimizer.py:35-40 | The relayed progress of combination k is non-decreasing and lies between the sweep percentages after k and after k+1 combinations. |
| Optimization.SweepProgressUpTo | optimizer.py:82-84 | Progress over the first combinations never falls, never exceeds the percentage of combinations done, and ends at it. |
| Optimization.SweepProgressShape | optimizer.py:82-84 | A whole sweep's progress never falls, lies in [0, 100], and ends at 100. |
| Optimization.Optimizer.constructor | optimizer.py:24-33 | Stores the trades. The new processor has no table. Results and counters are empty. |
| Optimization.Optimizer.SetTrades | optimizer.py:46-49 | Stores the table and hands it to the processor. The optimizer relays the processor's progress and statuses, and its results and counters are unchanged. |
| Optimization.Optimizer.RunOptimization | optimizer.py:51-92 | Without a non-empty table: one status, `None`, and nothing else changes. Otherwise the combination count is the product of the grid sizes, every combination is processed, and the results are a permutation of the kept summaries. The results are sorted by total profit, highest first, with ties in sweep order. The progress and status logs grow by exactly the sweep's. |
| Utils.PeakUpTo | utils.py:43-46 | The running peak at point i is at least every equity up to i. |
| Utils.PeakAttained | utils.py:43-46 | The running peak is the equity of some point up to i. |
| Utils.DrawdownPctBounds | utils.py:48 | `Utils.DrawdownPct` is at least 0, and at most 100 when the drawdown does not exceed the peak. |
| Utils.DrawdownBounds | utils.py:43-48 | Every drawdown is at least 0, and its percentage lies in [0, 100] while the equity is not negative. |
| Utils.CalculateDrawdown | utils.py:39-57 | Same length as the curve (empty for an empty curve). Each point copies its date and equity, with drawdown `peak - equity >= 0` and the matching percentage. |
| Utils.GetTradingDay | utils.py:84-87 | The trading day's window, from 06:00 of that day to 06:00 of the next, holds the date-time. |
| Utils.TradingDayUnique | utils.py:84-87 | No other day's window holds it. |
| Utils.SameTradingDayOvernight | utils.py:67-75 | Under `Utils.IsSameTradingDay`, a pair on different dates is an evening and the next early morning, at most 12 hours apart, of one trading day. |
| Utils.SameTradingDayNotSymmetric | utils.py:67-75 | Some pair is the same trading day in one order but not in the other. |
| Utils.SafeDivision | utils.py:98 | The default for a zero denominator, otherwise the quotient. |
| Utils.ScaleToUnit | utils.py:113-118 | The unit index is at most 4, and the value times the unit's size is the byte count. The value is below 1024 unless the unit is TB, and at least 1 once scaled. |

## Left out

- Floating point. Money is integer cents, so the model has no `float` rounding: no accumulation error in `numpy.arange`, and no `int(k / n * 100)` that lands one below `int(100 * k / n)`.
- `float('inf')` is the `Infinite` case of a datatype.
- `:.2f` and `:.0f` of floats (`Decimal.FormatWhole` formats cents with round-half-even, as `:.0f` does on exact amounts).
- Microseconds of a date-time; seconds are the finest resolution.
- Time zones.
- Processing.GroupByDate: states only that each day's group is sorted by entry time and holds that day's rows. pandas' default `sort_values` is not stable, so the order among trades with equal entry times is not promised. The model happens to use a stable sort.
- Processing.DataProcessor.PrepareDailyTrades: the conversion of the date column with `pd.to_datetime(...).dt.date` (data_processor.py:42) is not modelled; rows carry their trade date as a day number.
- The Qt signal machinery, `_update_processor_status` beyond relaying, and `OptimizerThread`: signals are logs the methods append to, and the sweep runs sequentially as the code does.
- Optimization.ArangeCount: a step of 0 is excluded by a precondition (numpy raises an error there). Grids are built from integer cents.
- `Optimizer.get_results_dataframe`, `TradeCollection.to_dataframe`, `__str__` and `__len__`: pandas and text conversion only.
- The DataFrame `copy` in `set_trades` and the list aliasing of `TradeCollection(trades)`: the model holds values, so a caller's later change to its list cannot reach the collection.
- TradeModel.TradeCollection.constructor: `TradeCollection.__init__` sorts the caller's own list in place (trade_model.py:39-45); the model copies the trades into a value, so the caller's list is not reordered.
- Optimization.Optimizer.RunOptimization: the final `result_signal.emit(self.results)` (optimizer.py:90) is not logged; the sorted results are the method's return value and field.
- Optimization.Optimizer.SetTrades: relays the processor's percentages through the corrected handler `Optimization.ProcessorProgress`. The ZeroDivisionError before any sweep and the values above 100 after one (see Findings) are stated only by `Optimization.SetTradesBeforeSweepDividesByZero` and `Optimization.SetTradesAfterSweepOverflows`.
- Optimization.Forward: applies the corrected handler; the handler as written is `Optimization.ProcessorProgressAsWritten`.
- TradeModel.OptimizationResult.Id: limits are modelled as integer cents, so `:.0f` rounding of a float limit is modelled only through round-half-even on exact cents.
- The UI, plotting and ingestion code. Trades are given as rows. The parser's default excursions appear only as the `DayProperties.ConsistentExcursions` precondition of `DayProperties.DayWithinCaps`.
- The memory figure `memory_usage` reads from pandas is a parameter of `Utils.ScaleToUnit`, and the final text is not modelled.

## Findings

| source | as written | input that shows it | evidently intended | confidence | as-written member | corrected member |
|---|---|---|---|---|---|---|
| optimizer.py:35-40 | `_update_processor_progress` divides by `_total_combinations`. That is 0 until the first sweep, and it still holds the finished sweep's count afterwards. | `set_trades` on a fresh `Optimizer` with a non-empty table raises ZeroDivisionError on the processor's first progress signal. `set_trades` after a sweep of 1 combination reports 200 for the processor's 100. | Within a sweep, place the processor's percentage inside the current combination's share. Outside a sweep, pass the processor's percentage through, within [0, 100]. | not executed | Optimization.ProcessorProgressAsWritten, Optimization.SetTradesBeforeSweepDividesByZero, Optimization.SetTradesAfterSweepOverflows | Optimization.ProcessorProgress, Optimization.ProcessorProgressBounds, Optimization.Forward, Optimization.Optimizer.SetTrades |
