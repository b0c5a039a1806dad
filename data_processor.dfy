/**
 * data_processor.py: `DataProcessor` keeps the trade table, groups it by
 * trade date with each day's trades in entry-time order, and replays the
 * days under a daily profit cap and loss cap. The Qt signals are modelled as
 * logs the methods append to.
 */
module Processing {
  import opened Common
  import opened Seqs
  import opened Simulation
  import opened Progress
  import SimulationProperties
  import DayProperties
  import Calendar

  /** The status messages the processor emits. */
  datatype Status =
    | NoTradeData
    | ProfitLimitNotPositive
    | LossLimitNotPositive
    | DaysPrepared(days: nat)

  /** The trade-date column of a row. */
  function RowDate(r: Row): int
  {
    r.date
  }

  /** The sort key of a day's trades: the entry time. */
  function RowEntry(r: Row): int
  {
    r.entryTime.Stamp()
  }

  /** The dates that occur in the table. */
  function RowDates(rows: seq<Row>): set<int>
  {
    set r | r in rows :: r.date
  }

  /**
   * `groups` holds one entry per date of `rows`, and each entry holds that
   * date's rows in entry-time order.
   */
  ghost predicate IsDailyGrouping(rows: seq<Row>, groups: map<int, seq<Row>>)
  {
    && groups.Keys == RowDates(rows)
    && forall d :: d in groups ==> IsDayGroup(rows, d, groups[d])
  }

  /** `group` holds the rows of date `d`, in entry-time order. */
  ghost predicate IsDayGroup(rows: seq<Row>, d: int, group: seq<Row>)
  {
    && SortedBy(group, RowEntry)
    && multiset(group) == multiset(WithKey(rows, RowDate, d))
  }

  /** `unique()` of the trade-date column: each date once, in order of first occurrence. */
  function UniqueDates(rows: seq<Row>): (u: seq<int>)
    ensures forall i, j :: 0 <= i < j < |u| ==> u[i] != u[j]
    ensures forall d :: d in u <==> d in RowDates(rows)
  {
    if rows == [] then []
    else
      var front := rows[..|rows| - 1];
      var last := rows[|rows| - 1];
      assert forall r :: r in front ==> r in rows;
      assert RowDates(rows) == RowDates(front) + {last.date};
      var u := UniqueDates(front);
      if last.date in u then u else u + [last.date]
  }

  class DataProcessor {
    var trades: Option<seq<Row>>
    var dailyTrades: Option<map<int, seq<Row>>>
    /** The table the current `dailyTrades` were built from. */
    ghost var groupedRows: seq<Row>
    /** What `progress_signal` has emitted so far. */
    var progressLog: seq<int>
    /** What `status_signal` has emitted so far. */
    var statusLog: seq<Status>

    /**
     * Day groups exist only after a non-empty table was set, and they group
     * the current table unless an empty table was set since.
     */
    ghost predicate Valid()
      reads this
    {
      dailyTrades.Some? ==>
        && trades.Some?
        && groupedRows != []
        && IsDailyGrouping(groupedRows, dailyTrades.value)
        && (trades.value != [] ==> trades.value == groupedRows)
    }

    constructor()
      ensures Valid()
      ensures trades == None && dailyTrades == None
      ensures progressLog == [] && statusLog == []
    {
      trades := None;
      dailyTrades := None;
      groupedRows := [];
      progressLog := [];
      statusLog := [];
    }

    /** `set_trades`: keeps a copy of the table and regroups it. */
    method SetTrades(rows: seq<Row>)
      requires Valid()
      modifies this
      ensures Valid()
      ensures trades == Some(rows)
      ensures rows == [] ==> dailyTrades == old(dailyTrades)
      ensures rows != [] ==>
                && dailyTrades.Some? && IsDailyGrouping(rows, dailyTrades.value)
                && |dailyTrades.value| == |UniqueDates(rows)|
      ensures progressLog == old(progressLog) + PrepareProgress(rows)
      ensures statusLog == old(statusLog) + PrepareStatus(rows)
    {
      trades := Some(rows);
      PrepareDailyTrades();
    }

    /**
     * `_prepare_daily_trades`: nothing happens for a missing or empty table.
     * Otherwise the table's day groups replace the old ones, with progress
     * reported after each date and the number of days at the end.
     */
    method PrepareDailyTrades()
      modifies this
      ensures trades == old(trades)
      ensures (trades.None? || trades.value == []) ==>
                && dailyTrades == old(dailyTrades) && groupedRows == old(groupedRows)
                && progressLog == old(progressLog) && statusLog == old(statusLog)
      ensures trades.Some? && trades.value != [] ==>
                && dailyTrades.Some? && groupedRows == trades.value
                && IsDailyGrouping(trades.value, dailyTrades.value)
                && |dailyTrades.value| == |UniqueDates(trades.value)|
                && progressLog == old(progressLog)
                     + ProgressSeries(|UniqueDates(trades.value)|, |UniqueDates(trades.value)|)
                && statusLog == old(statusLog) + [DaysPrepared(|UniqueDates(trades.value)|)]
    {
      if trades.None? || trades.value == [] {
        return;
      }
      var rows := trades.value;
      var groups, progress := GroupByDate(rows);
      dailyTrades := Some(groups);
      groupedRows := rows;
      progressLog := progressLog + progress;
      statusLog := statusLog + [DaysPrepared(|groups|)];
    }

    /**
     * `apply_daily_limits`: refuses, with a status message, when no day groups
     * exist or a cap is not positive; otherwise replays the days in ascending
     * date order and returns the summary `Simulate` describes, reporting
     * progress after each day.
     */
    method ApplyDailyLimits(profitLimit: int, lossLimit: int) returns (r: Option<SimResult>)
      requires Valid()
      modifies this
      ensures Valid()
      ensures trades == old(trades) && dailyTrades == old(dailyTrades) && groupedRows == old(groupedRows)
      ensures r == Outcome(trades, dailyTrades, profitLimit, lossLimit)
      ensures statusLog == old(statusLog) + ApplyStatus(dailyTrades, profitLimit, lossLimit)
      ensures progressLog == old(progressLog) + ApplyProgress(dailyTrades, profitLimit, lossLimit)
    {
      if dailyTrades.None? {
        statusLog := statusLog + [NoTradeData];
        return None;
      }
      if profitLimit <= 0 {
        statusLog := statusLog + [ProfitLimitNotPositive];
        return None;
      }
      if lossLimit <= 0 {
        statusLog := statusLog + [LossLimitNotPositive];
        return None;
      }
      var groups := dailyTrades.value;
      var dates := SortedSet(groups.Keys);
      var result, progress := ReplayDays(groups, dates, |trades.value|, profitLimit, lossLimit);
      progressLog := progressLog + progress;
      r := Some(result);
    }
  }

  /** The progress `_prepare_daily_trades` emits for a table: one percentage per date, none for an empty table. */
  function PrepareProgress(rows: seq<Row>): seq<int>
  {
    if rows == [] then [] else ProgressSeries(|UniqueDates(rows)|, |UniqueDates(rows)|)
  }

  /** The status `_prepare_daily_trades` emits for a table: the number of dates, nothing for an empty table. */
  function PrepareStatus(rows: seq<Row>): seq<Status>
  {
    if rows == [] then [] else [DaysPrepared(|UniqueDates(rows)|)]
  }

  /**
   * A non-empty table has at least one date, so preparing it emits progress,
   * ending at 100, and one status naming how many dates it found.
   */
  lemma PrepareEmits(rows: seq<Row>)
    requires rows != []
    ensures |UniqueDates(rows)| >= 1
    ensures |PrepareProgress(rows)| == |UniqueDates(rows)|
    ensures PrepareProgress(rows)[|UniqueDates(rows)| - 1] == 100
    ensures PrepareStatus(rows) == [DaysPrepared(|UniqueDates(rows)|)]
  {
    var last := rows[|rows| - 1];
    assert last.date in RowDates(rows);
    assert last.date in UniqueDates(rows);
    ProgressSeriesShape(|UniqueDates(rows)|);
  }

  /**
   * What `apply_daily_limits` returns: nothing without day groups or with a
   * cap that is not positive, otherwise the summary of the groups, with the
   * table's length as the trade total.
   */
  function Outcome(trades: Option<seq<Row>>, dailyTrades: Option<map<int, seq<Row>>>,
                   profitLimit: int, lossLimit: int): (r: Option<SimResult>)
    ensures r.None? <==> dailyTrades.None? || profitLimit <= 0 || lossLimit <= 0
    ensures r.Some? ==> r.value.dailyProfitLimit == profitLimit && r.value.dailyLossLimit == lossLimit
  {
    if dailyTrades.None? || profitLimit <= 0 || lossLimit <= 0 then None
    else Some(Simulate(dailyTrades.value, if trades.Some? then |trades.value| else 0, profitLimit, lossLimit))
  }

  /** The status `apply_daily_limits` emits: one message for each refusal, none on success. */
  function ApplyStatus(dailyTrades: Option<map<int, seq<Row>>>, profitLimit: int, lossLimit: int): seq<Status>
  {
    if dailyTrades.None? then [NoTradeData]
    else if profitLimit <= 0 then [ProfitLimitNotPositive]
    else if lossLimit <= 0 then [LossLimitNotPositive]
    else []
  }

  /** The progress `apply_daily_limits` emits: one percentage per day on success, none on a refusal. */
  function ApplyProgress(dailyTrades: Option<map<int, seq<Row>>>, profitLimit: int, lossLimit: int): seq<int>
  {
    if dailyTrades.None? || profitLimit <= 0 || lossLimit <= 0 then []
    else ProgressSeries(|dailyTrades.value.Keys|, |dailyTrades.value.Keys|)
  }

  /** A refusal emits exactly one status and no progress; a run emits no status. */
  lemma RefusalOrRun(dailyTrades: Option<map<int, seq<Row>>>, profitLimit: int, lossLimit: int)
    ensures |ApplyStatus(dailyTrades, profitLimit, lossLimit)| == 1 <==>
              dailyTrades.None? || profitLimit <= 0 || lossLimit <= 0
    ensures ApplyStatus(dailyTrades, profitLimit, lossLimit) != [] ==>
              ApplyProgress(dailyTrades, profitLimit, lossLimit) == []
    ensures ApplyStatus(dailyTrades, profitLimit, lossLimit) == [] ==>
              |ApplyProgress(dailyTrades, profitLimit, lossLimit)| == |dailyTrades.value.Keys|
  {
  }

  /**
   * The loop of `_prepare_daily_trades` over the table's dates in order of
   * first occurrence: each date's rows, sorted by entry time, become that
   * date's group.
   */
  method GroupByDate(rows: seq<Row>) returns (groups: map<int, seq<Row>>, progress: seq<int>)
    ensures IsDailyGrouping(rows, groups)
    ensures |groups| == |UniqueDates(rows)|
    ensures progress == ProgressSeries(|UniqueDates(rows)|, |UniqueDates(rows)|)
  {
    var uniqueDates := UniqueDates(rows);
    var totalDates := |uniqueDates|;
    groups := map[];
    progress := [];
    for k := 0 to totalDates
      invariant forall d :: d in groups <==> d in uniqueDates[..k]
      invariant |groups| == k
      invariant forall d :: d in groups ==> IsDayGroup(rows, d, groups[d])
      invariant progress == ProgressSeries(k, totalDates)
    {
      var tradeDate := uniqueDates[k];
      assert tradeDate !in uniqueDates[..k];
      var dayTrades := WithKey(rows, RowDate, tradeDate);
      dayTrades := StableSort(dayTrades, RowEntry);
      assert IsDayGroup(rows, tradeDate, dayTrades);
      groups := groups[tradeDate := dayTrades];
      progress := progress + [PercentDone(k + 1, totalDates)];
      TakeSnoc(uniqueDates, k);
    }
    assert uniqueDates[..totalDates] == uniqueDates;
    assert groups.Keys == RowDates(rows);
  }

  /**
   * The outer loop of `apply_daily_limits` over `dates`: replays each day,
   * carries the equity, its peak and the largest drawdown from day to day,
   * and counts days and trades into the result; the summary is the one
   * `SimulateOn` describes.
   */
  method ReplayDays(groups: map<int, seq<Row>>, dates: seq<int>, totalTrades: nat,
                    profitLimit: int, lossLimit: int)
    returns (result: SimResult, progress: seq<int>)
    requires forall i :: 0 <= i < |dates| ==> dates[i] in groups
    ensures result == SimulateOn(groups, dates, totalTrades, profitLimit, lossLimit)
    ensures progress == ProgressSeries(|dates|, |dates|)
  {
    result := SimResult(profitLimit, lossLimit, [], [], 0, 0, 0, 0, 0, 0, 0, 0, 0, Finite(0.0), 0.0, 0, []);
    var equity, maxEquity, maxDrawdown := 0, 0, 0;
    var totalProfit, totalLoss := 0, 0;
    var totalDates := |dates|;
    progress := [];

    for k := 0 to totalDates
      invariant result.dailyProfitLimit == profitLimit && result.dailyLossLimit == lossLimit
      invariant result.dailyResults == DailyResults(groups, dates[..k], profitLimit, lossLimit)
      invariant Accumulated(result, equity, maxEquity, maxDrawdown, totalProfit, totalLoss)
      invariant progress == ProgressSeries(k, totalDates)
    {
      result, equity, maxEquity, maxDrawdown, totalProfit, totalLoss :=
        ReplayDate(groups, dates, k, profitLimit, lossLimit,
                   result, equity, maxEquity, maxDrawdown, totalProfit, totalLoss);
      progress := progress + [PercentDone(k + 1, totalDates)];
    }
    assert dates[..totalDates] == dates;
    result := Finish(result, equity, maxEquity, maxDrawdown, totalProfit, totalLoss, totalTrades);
  }

  /**
   * One pass of the outer loop: replays the trades of `dates[k]` and adds
   * the day, with the equity before it, to what the earlier days gathered.
   */
  method ReplayDate(groups: map<int, seq<Row>>, dates: seq<int>, k: nat, profitLimit: int, lossLimit: int,
                    result: SimResult, equity: int, maxEquity: int, maxDrawdown: int,
                    totalProfit: int, totalLoss: int)
    returns (result': SimResult, equity': int, maxEquity': int, maxDrawdown': int,
             totalProfit': int, totalLoss': int)
    requires forall i :: 0 <= i < |dates| ==> dates[i] in groups
    requires k < |dates|
    requires result.dailyProfitLimit == profitLimit && result.dailyLossLimit == lossLimit
    requires result.dailyResults == DailyResults(groups, dates[..k], profitLimit, lossLimit)
    requires Accumulated(result, equity, maxEquity, maxDrawdown, totalProfit, totalLoss)
    ensures result'.dailyProfitLimit == profitLimit && result'.dailyLossLimit == lossLimit
    ensures result'.dailyResults == DailyResults(groups, dates[..k + 1], profitLimit, lossLimit)
    ensures Accumulated(result', equity', maxEquity', maxDrawdown', totalProfit', totalLoss')
  {
    var tradeDate := dates[k];
    var state, dayDetails, dayTally := ReplayTrades(groups[tradeDate], profitLimit, lossLimit);
    var dailyResult := DailyResult(tradeDate, dayDetails, state.cumulative, equity + state.cumulative,
                                   state.profitLimitTriggered, state.lossLimitTriggered);
    assert dailyResult == DayResultOf(tradeDate, groups[tradeDate], profitLimit, lossLimit, equity);
    result', equity', maxEquity', maxDrawdown', totalProfit', totalLoss' :=
      AddDay(result, equity, maxEquity, maxDrawdown, totalProfit, totalLoss, dailyResult, dayTally);
    NextDay(groups, dates, k, profitLimit, lossLimit);
  }

  /**
   * After the outer loop: the total profit is the final equity, the profit
   * factor and the win rate are computed from the gathered totals.
   */
  method Finish(acc: SimResult, equity: int, maxEquity: int, maxDrawdown: int,
                totalProfit: int, totalLoss: int, totalTrades: nat)
    returns (result: SimResult)
    requires Accumulated(acc, equity, maxEquity, maxDrawdown, totalProfit, totalLoss)
    ensures result == Summarize(acc.dailyResults, totalTrades, acc.dailyProfitLimit, acc.dailyLossLimit)
  {
    result := acc.(totalProfit := equity, totalTrades := totalTrades, maxDrawdown := maxDrawdown);
    if totalLoss > 0 {
      result := result.(profitFactor := Finite(totalProfit as real / totalLoss as real));
    } else {
      result := result.(profitFactor := if totalProfit > 0 then Infinite else Finite(0.0));
    }
    if result.executedTrades > 0 {
      result := result.(winRate := result.winningTrades as real / result.executedTrades as real * 100.0);
    }
  }

  /**
   * The body of the outer loop after a day's replay: appends the day's
   * details, moves the equity, its peak and the largest drawdown, adds the
   * equity point, and counts the day and its trades.
   */
  method AddDay(result: SimResult, equity: int, maxEquity: int, maxDrawdown: int,
                totalProfit: int, totalLoss: int, day: DailyResult, dayTally: Tally)
    returns (result': SimResult, equity': int, maxEquity': int, maxDrawdown': int,
             totalProfit': int, totalLoss': int)
    requires Accumulated(result, equity, maxEquity, maxDrawdown, totalProfit, totalLoss)
    requires dayTally == TallyOf(day.trades)
    requires day.cumulativeProfit == equity + day.dailyProfit
    ensures result'.dailyResults == result.dailyResults + [day]
    ensures result'.dailyProfitLimit == result.dailyProfitLimit
    ensures result'.dailyLossLimit == result.dailyLossLimit
    ensures Accumulated(result', equity', maxEquity', maxDrawdown', totalProfit', totalLoss')
  {
    result' := result.(tradeDetails := result.tradeDetails + day.trades,
                       executedTrades := result.executedTrades + dayTally.executed,
                       winningTrades := result.winningTrades + dayTally.winning,
                       losingTrades := result.losingTrades + dayTally.losing);
    totalProfit', totalLoss' := totalProfit + dayTally.grossProfit, totalLoss + dayTally.grossLoss;

    equity' := equity + day.dailyProfit;
    maxEquity' := Max(maxEquity, equity');
    var drawdown := maxEquity' - equity';
    maxDrawdown' := Max(maxDrawdown, drawdown);
    result' := result'.(equityCurve := result'.equityCurve + [CurvePoint(day.date, equity', drawdown)]);

    if day.dailyProfit > 0 {
      result' := result'.(profitableDays := result'.profitableDays + 1);
    } else if day.dailyProfit < 0 {
      result' := result'.(lossDays := result'.lossDays + 1);
    }
    if day.profitLimitTriggered {
      result' := result'.(profitLimitTriggeredDays := result'.profitLimitTriggeredDays + 1);
    }
    if day.lossLimitTriggered {
      result' := result'.(lossLimitTriggeredDays := result'.lossLimitTriggeredDays + 1);
    }
    result' := result'.(dailyResults := result'.dailyResults + [day]);
    AccumulateDay(result, equity, maxEquity, maxDrawdown, totalProfit, totalLoss, day, dayTally,
                  result', equity', maxEquity', maxDrawdown', totalProfit', totalLoss');
  }

  /**
   * What the outer loop has gathered from the days of `acc.dailyResults`:
   * the details, the curve, the equity with its peak and largest drawdown,
   * the trade counters with the gross gain and loss, and the day counters.
   */
  ghost predicate Accumulated(acc: SimResult, equity: int, maxEquity: int, maxDrawdown: int,
                              totalProfit: int, totalLoss: int)
  {
    var results := acc.dailyResults;
    && acc.tradeDetails == Details(results)
    && acc.equityCurve == Curve(results)
    && equity == FinalEquity(results)
    && maxEquity == Peak(results) && maxDrawdown == MaxDrawdown(results)
    && TallyOf(acc.tradeDetails)
       == Tally(acc.executedTrades, acc.winningTrades, acc.losingTrades, totalProfit, totalLoss)
    && acc.profitableDays == Count(results, IsProfitableDay)
    && acc.lossDays == Count(results, IsLossDay)
    && acc.profitLimitTriggeredDays == Count(results, HitProfitLimitDay)
    && acc.lossLimitTriggeredDays == Count(results, HitLossLimitDay)
    && acc.totalProfit == 0 && acc.totalTrades == 0 && acc.maxDrawdown == 0
    && acc.profitFactor == Finite(0.0) && acc.winRate == 0.0
  }

  /** One more day keeps the loop's figures those of the days seen so far. */
  lemma AccumulateDay(acc: SimResult, equity: int, maxEquity: int, maxDrawdown: int,
                      totalProfit: int, totalLoss: int, day: DailyResult, dayTally: Tally,
                      acc': SimResult, equity': int, maxEquity': int, maxDrawdown': int,
                      totalProfit': int, totalLoss': int)
    requires Accumulated(acc, equity, maxEquity, maxDrawdown, totalProfit, totalLoss)
    requires dayTally == TallyOf(day.trades)
    requires day.cumulativeProfit == equity + day.dailyProfit
    requires equity' == day.cumulativeProfit
    requires maxEquity' == Max(maxEquity, equity') && maxDrawdown' == Max(maxDrawdown, maxEquity' - equity')
    requires totalProfit' == totalProfit + dayTally.grossProfit && totalLoss' == totalLoss + dayTally.grossLoss
    requires acc'.dailyResults == acc.dailyResults + [day]
    requires acc'.tradeDetails == acc.tradeDetails + day.trades
    requires acc'.equityCurve == acc.equityCurve + [CurvePoint(day.date, equity', maxEquity' - equity')]
    requires acc'.executedTrades == acc.executedTrades + dayTally.executed
    requires acc'.winningTrades == acc.winningTrades + dayTally.winning
    requires acc'.losingTrades == acc.losingTrades + dayTally.losing
    requires acc'.profitableDays == acc.profitableDays + (if day.dailyProfit > 0 then 1 else 0)
    requires acc'.lossDays == acc.lossDays + (if day.dailyProfit < 0 then 1 else 0)
    requires acc'.profitLimitTriggeredDays
             == acc.profitLimitTriggeredDays + (if day.profitLimitTriggered then 1 else 0)
    requires acc'.lossLimitTriggeredDays == acc.lossLimitTriggeredDays + (if day.lossLimitTriggered then 1 else 0)
    requires acc'.totalProfit == acc.totalProfit && acc'.totalTrades == acc.totalTrades
    requires acc'.maxDrawdown == acc.maxDrawdown
    requires acc'.profitFactor == acc.profitFactor && acc'.winRate == acc.winRate
    ensures Accumulated(acc', equity', maxEquity', maxDrawdown', totalProfit', totalLoss')
  {
    var results := acc.dailyResults;
    var r := results + [day];
    assert acc'.dailyResults == r;
    assert Details(r) == acc'.tradeDetails && Curve(r) == acc'.equityCurve
           && FinalEquity(r) == equity' && Peak(r) == maxEquity' && MaxDrawdown(r) == maxDrawdown' by {
      ResultsSnocFigures(results, day);
    }
    assert Count(r, IsProfitableDay) == acc'.profitableDays && Count(r, IsLossDay) == acc'.lossDays
           && Count(r, HitProfitLimitDay) == acc'.profitLimitTriggeredDays
           && Count(r, HitLossLimitDay) == acc'.lossLimitTriggeredDays by {
      ResultsSnocCounts(results, day);
    }
    assert TallyOf(acc'.tradeDetails)
           == Tally(acc'.executedTrades, acc'.winningTrades, acc'.losingTrades, totalProfit', totalLoss') by {
      TallyConcat(acc.tradeDetails, day.trades);
    }
  }

  /**
   * The inner loop of `apply_daily_limits` over one day's trades: the day
   * state and details are those `ReplayDay` describes, and the counters are
   * those of the details.
   */
  method ReplayTrades(rows: seq<Row>, profitLimit: int, lossLimit: int)
    returns (state: DayState, details: seq<TradeDetail>, tally: Tally)
    ensures DayRun(state, details) == ReplayDay(rows, profitLimit, lossLimit)
    ensures tally == TallyOf(details)
  {
    state := DayOpen;
    details := [];
    tally := Tally(0, 0, 0, 0, 0);
    for j := 0 to |rows|
      invariant DayRun(state, details) == ReplayDay(rows[..j], profitLimit, lossLimit)
      invariant tally == TallyOf(details)
    {
      var detail;
      state, detail := StepTrade(state, rows[j], profitLimit, lossLimit);
      assert rows[..j + 1][..j] == rows[..j];
      TallySnoc(details, detail);
      details := details + [detail];
      if detail.executed {
        var t := tally;
        if detail.profitUsd > 0 {
          tally := Tally(t.executed + 1, t.winning + 1, t.losing, t.grossProfit + detail.profitUsd, t.grossLoss);
        } else if detail.profitUsd < 0 {
          tally := Tally(t.executed + 1, t.winning, t.losing + 1, t.grossProfit, t.grossLoss - detail.profitUsd);
        } else {
          tally := Tally(t.executed + 1, t.winning, t.losing, t.grossProfit, t.grossLoss);
        }
      }
    }
    assert rows[..|rows|] == rows;
  }

  /**
   * One trade of the inner loop: a trade after a trigger is recorded as not
   * executed with profit 0; otherwise the profit cap, then the loss cap, is
   * checked against the trade's excursions, and the trade counts the rest of
   * the tripped cap or else its own profit.
   */
  method StepTrade(state: DayState, trade: Row, profitLimit: int, lossLimit: int)
    returns (state': DayState, detail: TradeDetail)
    ensures StepResult(state', detail) == Step(state, trade, profitLimit, lossLimit)
  {
    state' := state;
    if state.profitLimitTriggered || state.lossLimitTriggered {
      detail := TradeDetail(trade.tradeNo, trade.entryTime, trade.exitTime, 0, trade.profitUsd, false,
                            if state.profitLimitTriggered then DayAlreadyHitProfitLimit
                            else DayAlreadyHitLossLimit);
    } else {
      var profitUsd := trade.profitUsd;
      var maxTradeProfit := trade.maxProfitUsd;
      var maxTradeLoss := Abs(trade.maxLossUsd);
      var newDailyProfit := state.cumulative + profitUsd;
      if profitUsd > 0 && state.cumulative + maxTradeProfit >= profitLimit {
        detail := TradeDetail(trade.tradeNo, trade.entryTime, trade.exitTime,
                              profitLimit - state.cumulative, profitUsd, true, HitProfitLimit);
        state' := DayState(profitLimit, true, false);
      } else if profitUsd < 0 && state.cumulative - maxTradeLoss <= -lossLimit {
        detail := TradeDetail(trade.tradeNo, trade.entryTime, trade.exitTime,
                              -lossLimit - state.cumulative, profitUsd, true, HitLossLimit);
        state' := DayState(-lossLimit, false, true);
      } else {
        detail := TradeDetail(trade.tradeNo, trade.entryTime, trade.exitTime,
                              profitUsd, profitUsd, true, Normal);
        state' := DayState(newDailyProfit, false, false);
      }
    }
  }

  /** Counting one more detail. */
  lemma TallySnoc(details: seq<TradeDetail>, d: TradeDetail)
    ensures var t := TallyOf(details);
            TallyOf(details + [d]) ==
              Tally(t.executed + (if IsExecuted(d) then 1 else 0),
                    t.winning + (if IsWinning(d) then 1 else 0),
                    t.losing + (if IsLosing(d) then 1 else 0),
                    t.grossProfit + GainOf(d), t.grossLoss + LossOf(d))
  {
    assert (details + [d])[..|details|] == details;
  }

  /** The counters of two runs of details add up. */
  lemma TallyConcat(a: seq<TradeDetail>, b: seq<TradeDetail>)
    ensures var ta, tb := TallyOf(a), TallyOf(b);
            TallyOf(a + b) == Tally(ta.executed + tb.executed, ta.winning + tb.winning,
                                    ta.losing + tb.losing, ta.grossProfit + tb.grossProfit,
                                    ta.grossLoss + tb.grossLoss)
  {
    CountConcat(a, b, IsExecuted);
    CountConcat(a, b, IsWinning);
    CountConcat(a, b, IsLosing);
    SumConcat(a, b, GainOf);
    SumConcat(a, b, LossOf);
  }

  /** The results for the first k + 1 dates extend those for the first k by the day of date k. */
  lemma NextDay(groups: map<int, seq<Row>>, dates: seq<int>, k: nat, profitLimit: int, lossLimit: int)
    requires k < |dates|
    requires forall i :: 0 <= i < |dates| ==> dates[i] in groups
    ensures var before := DailyResults(groups, dates[..k], profitLimit, lossLimit);
            DailyResults(groups, dates[..k + 1], profitLimit, lossLimit)
              == before + [DayResultOf(dates[k], groups[dates[k]], profitLimit, lossLimit, FinalEquity(before))]
  {
    assert dates[..k + 1][..k] == dates[..k];
  }

  /** The running figures after one more day. */
  lemma ResultsSnocFigures(results: seq<DailyResult>, last: DailyResult)
    ensures var r := results + [last];
            && Details(r) == Details(results) + last.trades
            && FinalEquity(r) == last.cumulativeProfit
            && Peak(r) == Max(Peak(results), last.cumulativeProfit)
            && MaxDrawdown(r) == Max(MaxDrawdown(results), Peak(r) - last.cumulativeProfit)
            && Curve(r) == Curve(results) + [CurvePoint(last.date, last.cumulativeProfit, Peak(r) - last.cumulativeProfit)]
  {
    assert (results + [last])[..|results|] == results;
  }

  lemma ResultsSnocCounts(results: seq<DailyResult>, last: DailyResult)
    ensures var r := results + [last];
            && Count(r, IsProfitableDay) == Count(results, IsProfitableDay) + (if IsProfitableDay(last) then 1 else 0)
            && Count(r, IsLossDay) == Count(results, IsLossDay) + (if IsLossDay(last) then 1 else 0)
            && Count(r, HitProfitLimitDay) == Count(results, HitProfitLimitDay) + (if HitProfitLimitDay(last) then 1 else 0)
            && Count(r, HitLossLimitDay) == Count(results, HitLossLimitDay) + (if HitLossLimitDay(last) then 1 else 0)
  {
    assert (results + [last])[..|results|] == results;
  }

  // ------------------------------------------------------ every trade counted

  /** What identifies a trade in the table and in its detail: number, entry and exit time, original profit. */
  datatype TradeIdent = TradeIdent(tradeNo: int, entryTime: Calendar.DateTime, exitTime: Calendar.DateTime,
                                   profitUsd: int)

  function RowIdent(r: Row): TradeIdent
  {
    TradeIdent(r.tradeNo, r.entryTime, r.exitTime, r.profitUsd)
  }

  function DetailIdent(d: TradeDetail): TradeIdent
  {
    TradeIdent(d.tradeNo, d.entryTime, d.exitTime, d.originalProfitUsd)
  }

  /** The rows of each date of `dates`, date after date, in table order within a date. */
  function Gathered(rows: seq<Row>, dates: seq<int>): seq<Row>
  {
    if dates == [] then []
    else Gathered(rows, dates[..|dates| - 1]) + WithKey(rows, RowDate, dates[|dates| - 1])
  }

  /** What a further row adds to a gathering: itself when its date is gathered, nothing otherwise. */
  function Joining(x: Row, dates: seq<int>): multiset<Row>
  {
    if x.date in dates then multiset{x} else multiset{}
  }

  lemma {:induction false} GatheredSnoc(rows: seq<Row>, x: Row, dates: seq<int>)
    requires forall i, j :: 0 <= i < j < |dates| ==> dates[i] != dates[j]
    ensures multiset(Gathered(rows + [x], dates)) == multiset(Gathered(rows, dates)) + Joining(x, dates)
    decreases |dates|
  {
    if dates != [] {
      var front := dates[..|dates| - 1];
      GatheredSnoc(rows, x, front);
      GatheredLastDate(rows, x, dates);
      JoiningLast(x, dates);
    }
  }

  /** Unfolds a gathering over `rows + [x]` at its last date. */
  lemma GatheredLastDate(rows: seq<Row>, x: Row, dates: seq<int>)
    requires dates != []
    ensures var d := dates[|dates| - 1];
            Gathered(rows + [x], dates)
            == Gathered(rows + [x], dates[..|dates| - 1]) + WithKey(rows, RowDate, d) + (if x.date == d then [x] else [])
  {
    var d := dates[|dates| - 1];
    WithKeyConcat(rows, [x], RowDate, d);
    assert [x][..0] == [];
  }

  lemma JoiningLast(x: Row, dates: seq<int>)
    requires dates != []
    requires forall i, j :: 0 <= i < j < |dates| ==> dates[i] != dates[j]
    ensures var d := dates[|dates| - 1];
            Joining(x, dates) == Joining(x, dates[..|dates| - 1]) + multiset(if x.date == d then [x] else [])
  {
    var front := dates[..|dates| - 1];
    assert dates == front + [dates[|dates| - 1]];
  }

  lemma {:induction false} GatheredEmpty(dates: seq<int>)
    ensures Gathered([], dates) == []
    decreases |dates|
  {
    if dates != [] {
      GatheredEmpty(dates[..|dates| - 1]);
    }
  }

  /** Gathering over distinct dates that cover every row's date collects each row exactly once. */
  lemma {:induction false} GatheredAll(rows: seq<Row>, dates: seq<int>)
    requires forall i, j :: 0 <= i < j < |dates| ==> dates[i] != dates[j]
    requires forall i :: 0 <= i < |rows| ==> rows[i].date in dates
    ensures multiset(Gathered(rows, dates)) == multiset(rows)
    decreases |rows|
  {
    if rows == [] {
      GatheredEmpty(dates);
    } else {
      var front := rows[..|rows| - 1];
      var x := rows[|rows| - 1];
      assert front + [x] == rows;
      GatheredAll(front, dates);
      GatheredSnoc(front, x, dates);
      assert x.date in dates;
    }
  }

  /** The replay of a day records its trades' identities, in order. */
  lemma ReplayIdents(rows: seq<Row>, profitLimit: int, lossLimit: int)
    ensures MapSeq(ReplayDay(rows, profitLimit, lossLimit).details, DetailIdent) == MapSeq(rows, RowIdent)
  {
    DayProperties.ReplayShape(rows, profitLimit, lossLimit);
  }

  /** The details of the days of `dates` carry the identities of the rows gathered for those dates. */
  lemma {:induction false} GroupsIdents(rows: seq<Row>, groups: map<int, seq<Row>>, dates: seq<int>,
                                        profitLimit: int, lossLimit: int)
    requires IsDailyGrouping(rows, groups)
    requires forall i :: 0 <= i < |dates| ==> dates[i] in groups
    ensures multiset(MapSeq(Details(DailyResults(groups, dates, profitLimit, lossLimit)), DetailIdent))
            == multiset(MapSeq(Gathered(rows, dates), RowIdent))
    decreases |dates|
  {
    if dates != [] {
      var front := dates[..|dates| - 1];
      var d := dates[|dates| - 1];
      GroupsIdents(rows, groups, front, profitLimit, lossLimit);
      var before := DailyResults(groups, front, profitLimit, lossLimit);
      var day := DayResultOf(d, groups[d], profitLimit, lossLimit, FinalEquity(before));
      assert DailyResults(groups, dates, profitLimit, lossLimit) == before + [day];
      assert Details(before + [day]) == Details(before) + day.trades by {
        ResultsSnocFigures(before, day);
      }
      MapConcat(Details(before), day.trades, DetailIdent);
      ReplayIdents(groups[d], profitLimit, lossLimit);
      assert IsDayGroup(rows, d, groups[d]);
      MapMultiset(groups[d], WithKey(rows, RowDate, d), RowIdent);
      MapConcat(Gathered(rows, front), WithKey(rows, RowDate, d), RowIdent);
    }
  }

  /**
   * Grouping neither drops nor duplicates a trade: the summary's details
   * carry the identities of the table's rows, each as often as it occurs.
   */
  lemma EveryTradeReplayed(rows: seq<Row>, groups: map<int, seq<Row>>, profitLimit: int, lossLimit: int)
    requires IsDailyGrouping(rows, groups)
    ensures var details := Simulate(groups, |rows|, profitLimit, lossLimit).tradeDetails;
            && multiset(MapSeq(details, DetailIdent)) == multiset(MapSeq(rows, RowIdent))
            && |details| == |rows|
  {
    var dates := SortedSet(groups.Keys);
    forall i | 0 <= i < |rows|
      ensures rows[i].date in dates
    {
      assert rows[i].date in RowDates(rows);
    }
    var details := Simulate(groups, |rows|, profitLimit, lossLimit).tradeDetails;
    assert details == Details(DailyResults(groups, dates, profitLimit, lossLimit));
    GroupsIdents(rows, groups, dates, profitLimit, lossLimit);
    GatheredAll(rows, dates);
    MapMultiset(Gathered(rows, dates), rows, RowIdent);
    assert |details| == |MapSeq(details, DetailIdent)| == |multiset(MapSeq(details, DetailIdent))|
           == |multiset(MapSeq(rows, RowIdent))| == |rows|;
  }
}
