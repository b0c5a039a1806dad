/**
 * The daily profit/loss cap of `DataProcessor.apply_daily_limits` as pure
 * functions: the replay of one day's trades, the per-day results, the equity
 * curve with its running peak and maximum drawdown, and the summary figures.
 * The imperative method in module Processing is proved to compute `Simulate`.
 * Money is held in integer cents.
 */
module Simulation {
  import opened Common
  import opened Calendar
  import opened Seqs

  /**
   * One row of the processor's trade table: trade number, entry and exit time,
   * the trade-date column, realised profit and the largest favourable and
   * adverse excursions.
   */
  datatype Row = Row(tradeNo: int, entryTime: DateTime, exitTime: DateTime, date: int,
                     profitUsd: int, maxProfitUsd: int, maxLossUsd: int)

  /** Why a trade was or was not counted, as recorded in the trade details. */
  datatype Reason =
    | DayAlreadyHitProfitLimit
    | DayAlreadyHitLossLimit
    | HitProfitLimit
    | HitLossLimit
    | Normal

  /** One entry of `trade_details` (and of a day's `trades`). */
  datatype TradeDetail = TradeDetail(tradeNo: int, entryTime: DateTime, exitTime: DateTime,
                                     profitUsd: int, originalProfitUsd: int,
                                     executed: bool, reason: Reason)

  /** The running total of a day and the two trigger flags. */
  datatype DayState = DayState(cumulative: int, profitLimitTriggered: bool, lossLimitTriggered: bool)
  {
    predicate Triggered()
    {
      profitLimitTriggered || lossLimitTriggered
    }
  }

  const DayOpen: DayState := DayState(0, false, false)

  datatype StepResult = StepResult(state: DayState, detail: TradeDetail)

  /**
   * One iteration of the inner loop. A trade after a trigger is recorded with
   * profit 0 and not executed. Otherwise a winning trade whose favourable
   * excursion would reach the profit cap is counted as the rest of the cap; a
   * losing trade whose adverse excursion would reach the loss cap is counted as
   * the rest of the loss cap; any other trade counts its full profit.
   */
  function Step(st: DayState, row: Row, profitLimit: int, lossLimit: int): StepResult
  {
    if st.Triggered() then
      StepResult(st, TradeDetail(row.tradeNo, row.entryTime, row.exitTime, 0, row.profitUsd, false,
                                 if st.profitLimitTriggered then DayAlreadyHitProfitLimit
                                 else DayAlreadyHitLossLimit))
    else if row.profitUsd > 0 && st.cumulative + row.maxProfitUsd >= profitLimit then
      StepResult(DayState(profitLimit, true, false),
                 TradeDetail(row.tradeNo, row.entryTime, row.exitTime, profitLimit - st.cumulative,
                             row.profitUsd, true, HitProfitLimit))
    else if row.profitUsd < 0 && st.cumulative - Abs(row.maxLossUsd) <= -lossLimit then
      StepResult(DayState(-lossLimit, false, true),
                 TradeDetail(row.tradeNo, row.entryTime, row.exitTime, -lossLimit - st.cumulative,
                             row.profitUsd, true, HitLossLimit))
    else
      StepResult(DayState(st.cumulative + row.profitUsd, false, false),
                 TradeDetail(row.tradeNo, row.entryTime, row.exitTime, row.profitUsd,
                             row.profitUsd, true, Normal))
  }

  datatype DayRun = DayRun(state: DayState, details: seq<TradeDetail>)

  /** The inner loop over one day's trades, in their order. */
  function ReplayDay(rows: seq<Row>, profitLimit: int, lossLimit: int): (run: DayRun)
    ensures |run.details| == |rows|
  {
    if rows == [] then DayRun(DayOpen, [])
    else
      var before := ReplayDay(rows[..|rows| - 1], profitLimit, lossLimit);
      var step := Step(before.state, rows[|rows| - 1], profitLimit, lossLimit);
      DayRun(step.state, before.details + [step.detail])
  }

  /** One entry of `daily_results`. */
  datatype DailyResult = DailyResult(date: int, trades: seq<TradeDetail>, dailyProfit: int,
                                     cumulativeProfit: int, profitLimitTriggered: bool,
                                     lossLimitTriggered: bool)

  function DayResultOf(date: int, rows: seq<Row>, profitLimit: int, lossLimit: int,
                       equityBefore: int): DailyResult
  {
    var run := ReplayDay(rows, profitLimit, lossLimit);
    DailyResult(date, run.details, run.state.cumulative, equityBefore + run.state.cumulative,
                run.state.profitLimitTriggered, run.state.lossLimitTriggered)
  }

  /** The equity after the last day, 0 before any day. */
  function FinalEquity(results: seq<DailyResult>): int
  {
    if results == [] then 0 else results[|results| - 1].cumulativeProfit
  }

  /** The outer loop's daily results over `dates`, each day's equity carried into the next. */
  function DailyResults(groups: map<int, seq<Row>>, dates: seq<int>, profitLimit: int,
                        lossLimit: int): (r: seq<DailyResult>)
    requires forall i :: 0 <= i < |dates| ==> dates[i] in groups
    ensures |r| == |dates|
  {
    if dates == [] then []
    else
      var before := DailyResults(groups, dates[..|dates| - 1], profitLimit, lossLimit);
      var date := dates[|dates| - 1];
      before + [DayResultOf(date, groups[date], profitLimit, lossLimit, FinalEquity(before))]
  }

  /** `trade_details`: the days' trade lists, one after another. */
  function Details(results: seq<DailyResult>): seq<TradeDetail>
  {
    if results == [] then []
    else Details(results[..|results| - 1]) + results[|results| - 1].trades
  }

  /** The running `max_equity`, which starts at 0 before the first day. */
  function Peak(results: seq<DailyResult>): int
  {
    if results == [] then 0
    else Max(Peak(results[..|results| - 1]), results[|results| - 1].cumulativeProfit)
  }

  /** The running `max_drawdown`. */
  function MaxDrawdown(results: seq<DailyResult>): int
  {
    if results == [] then 0
    else Max(MaxDrawdown(results[..|results| - 1]),
             Peak(results) - results[|results| - 1].cumulativeProfit)
  }

  /** One point of the processor's `equity_curve`. */
  datatype CurvePoint = CurvePoint(date: int, equity: int, drawdown: int)

  function Curve(results: seq<DailyResult>): seq<CurvePoint>
  {
    if results == [] then []
    else
      var last := results[|results| - 1];
      Curve(results[..|results| - 1]) + [CurvePoint(last.date, last.cumulativeProfit,
                                                    Peak(results) - last.cumulativeProfit)]
  }

  // The classes of trades and days that the summary counts.

  predicate IsExecuted(d: TradeDetail) { d.executed }
  predicate IsWinning(d: TradeDetail) { d.executed && d.profitUsd > 0 }
  predicate IsLosing(d: TradeDetail) { d.executed && d.profitUsd < 0 }
  /** What a detail adds to `total_profit` (the gross gain). */
  function GainOf(d: TradeDetail): int { if IsWinning(d) then d.profitUsd else 0 }
  /** What a detail adds to `total_loss` (the gross loss, as a positive amount). */
  function LossOf(d: TradeDetail): int { if IsLosing(d) then -d.profitUsd else 0 }
  function ProfitOf(d: TradeDetail): int { d.profitUsd }

  predicate IsProfitableDay(r: DailyResult) { r.dailyProfit > 0 }
  predicate IsLossDay(r: DailyResult) { r.dailyProfit < 0 }
  predicate HitProfitLimitDay(r: DailyResult) { r.profitLimitTriggered }
  predicate HitLossLimitDay(r: DailyResult) { r.lossLimitTriggered }
  function DailyProfitOf(r: DailyResult): int { r.dailyProfit }

  /** `total_profit / total_loss`, or infinite or 0 when nothing was lost. */
  function ProfitFactorOf(grossProfit: int, grossLoss: int): Factor
  {
    if grossLoss > 0 then Finite(grossProfit as real / grossLoss as real)
    else if grossProfit > 0 then Infinite
    else Finite(0.0)
  }

  /** `winning_trades / executed_trades * 100`, or 0 when nothing was executed. */
  function WinRateOf(winning: nat, executed: nat): real
  {
    if executed > 0 then winning as real / executed as real * 100.0 else 0.0
  }

  /** The dictionary `apply_daily_limits` returns. */
  datatype SimResult = SimResult(
    dailyProfitLimit: int,
    dailyLossLimit: int,
    tradeDetails: seq<TradeDetail>,
    dailyResults: seq<DailyResult>,
    totalProfit: int,
    profitableDays: nat,
    lossDays: nat,
    profitLimitTriggeredDays: nat,
    lossLimitTriggeredDays: nat,
    totalTrades: nat,
    executedTrades: nat,
    winningTrades: nat,
    losingTrades: nat,
    profitFactor: Factor,
    winRate: real,
    maxDrawdown: int,
    equityCurve: seq<CurvePoint>)

  /** The summary of the executed trades that the inner loop keeps. */
  datatype Tally = Tally(executed: nat, winning: nat, losing: nat, grossProfit: int, grossLoss: int)

  function TallyOf(details: seq<TradeDetail>): Tally
  {
    Tally(Count(details, IsExecuted), Count(details, IsWinning), Count(details, IsLosing),
          Sum(details, GainOf), Sum(details, LossOf))
  }

  /** The summary `apply_daily_limits` builds from the daily results it gathered. */
  function Summarize(results: seq<DailyResult>, totalTrades: nat, profitLimit: int, lossLimit: int): SimResult
  {
    var details := Details(results);
    var tally := TallyOf(details);
    SimResult(profitLimit, lossLimit, details, results, FinalEquity(results),
              Count(results, IsProfitableDay), Count(results, IsLossDay),
              Count(results, HitProfitLimitDay), Count(results, HitLossLimitDay),
              totalTrades, tally.executed, tally.winning, tally.losing,
              ProfitFactorOf(tally.grossProfit, tally.grossLoss),
              WinRateOf(tally.winning, tally.executed),
              MaxDrawdown(results), Curve(results))
  }

  /**
   * The summary of replaying the groups of `dates` in the order given;
   * `totalTrades` is the length of the processor's table.
   */
  function SimulateOn(groups: map<int, seq<Row>>, dates: seq<int>, totalTrades: nat, profitLimit: int,
                      lossLimit: int): SimResult
    requires forall i :: 0 <= i < |dates| ==> dates[i] in groups
  {
    Summarize(DailyResults(groups, dates, profitLimit, lossLimit), totalTrades, profitLimit, lossLimit)
  }

  /** `apply_daily_limits` on validated limits: the days are the group keys in ascending order. */
  function Simulate(groups: map<int, seq<Row>>, totalTrades: nat, profitLimit: int,
                    lossLimit: int): SimResult
  {
    SimulateOn(groups, SortedSet(groups.Keys), totalTrades, profitLimit, lossLimit)
  }
}
