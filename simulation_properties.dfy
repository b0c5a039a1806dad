/**
 * What the summary of `apply_daily_limits` promises: one daily result and one
 * equity point per date in ascending order, the equity as the running sum of
 * the daily totals, the counters' bounds, the maximum drawdown as the largest
 * fall from the running peak, and the cases of the profit factor and win rate.
 */
module SimulationProperties {
  import opened Common
  import opened Seqs
  import opened Simulation
  import DayProperties

  /** The number of trades in the groups of `dates`. */
  function GroupSize(groups: map<int, seq<Row>>, dates: seq<int>): nat
    requires forall i :: 0 <= i < |dates| ==> dates[i] in groups
  {
    if dates == [] then 0
    else GroupSize(groups, dates[..|dates| - 1]) + |groups[dates[|dates| - 1]]|
  }

  /** Each day's cumulative profit is the sum of the daily totals up to and including it. */
  ghost predicate RunningSums(results: seq<DailyResult>)
  {
    forall i :: 0 <= i < |results| ==>
      results[i].cumulativeProfit == Sum(results[..i + 1], DailyProfitOf)
  }

  /** Appending a day whose equity continues the last one keeps the running sums. */
  lemma RunningSumsExtend(before: seq<DailyResult>, last: DailyResult)
    requires RunningSums(before)
    requires last.cumulativeProfit == FinalEquity(before) + last.dailyProfit
    ensures RunningSums(before + [last])
    ensures FinalEquity(before) == Sum(before, DailyProfitOf)
  {
    var r := before + [last];
    if before != [] {
      assert before[..|before|] == before;
    }
    assert r[..|before|] == before;
    forall i | 0 <= i < |r|
      ensures r[i].cumulativeProfit == Sum(r[..i + 1], DailyProfitOf)
    {
      if i < |before| {
        assert r[..i + 1] == before[..i + 1];
      } else {
        assert r[..i + 1] == r;
      }
    }
  }

  /** `result` records the replay of `rows` on `date`. */
  predicate DayMatches(result: DailyResult, date: int, rows: seq<Row>, profitLimit: int, lossLimit: int)
  {
    var run := ReplayDay(rows, profitLimit, lossLimit);
    && result.date == date
    && result.trades == run.details
    && result.dailyProfit == run.state.cumulative
    && result.profitLimitTriggered == run.state.profitLimitTriggered
    && result.lossLimitTriggered == run.state.lossLimitTriggered
  }

  /** Day `i` of the results records the replay of the group of `dates[i]`. */
  lemma {:induction false} DailyResultsDays(groups: map<int, seq<Row>>, dates: seq<int>,
                                            profitLimit: int, lossLimit: int)
    requires forall i :: 0 <= i < |dates| ==> dates[i] in groups
    ensures var r := DailyResults(groups, dates, profitLimit, lossLimit);
            forall i :: 0 <= i < |r| ==> DayMatches(r[i], dates[i], groups[dates[i]], profitLimit, lossLimit)
    decreases |dates|
  {
    var r := DailyResults(groups, dates, profitLimit, lossLimit);
    if dates != [] {
      var n := |dates|;
      var front := dates[..n - 1];
      DailyResultsDays(groups, front, profitLimit, lossLimit);
      var before := DailyResults(groups, front, profitLimit, lossLimit);
      assert r == before + [r[n - 1]];
      forall i | 0 <= i < n - 1
        ensures DayMatches(r[i], dates[i], groups[dates[i]], profitLimit, lossLimit)
      {
        assert r[i] == before[i] && dates[i] == front[i];
      }
    }
  }

  /** Each day's cumulative profit is the sum of the daily totals so far; the final equity is their sum. */
  lemma {:induction false} DailyResultsEquity(groups: map<int, seq<Row>>, dates: seq<int>,
                                              profitLimit: int, lossLimit: int)
    requires forall i :: 0 <= i < |dates| ==> dates[i] in groups
    ensures RunningSums(DailyResults(groups, dates, profitLimit, lossLimit))
    ensures FinalEquity(DailyResults(groups, dates, profitLimit, lossLimit))
            == Sum(DailyResults(groups, dates, profitLimit, lossLimit), DailyProfitOf)
    decreases |dates|
  {
    var r := DailyResults(groups, dates, profitLimit, lossLimit);
    if dates != [] {
      var n := |dates|;
      var front := dates[..n - 1];
      DailyResultsEquity(groups, front, profitLimit, lossLimit);
      var before := DailyResults(groups, front, profitLimit, lossLimit);
      assert r == before + [r[n - 1]];
      RunningSumsExtend(before, r[n - 1]);
      assert r[..|r|] == r;
    }
  }

  /** There is one trade detail for every trade in the replayed groups. */
  lemma {:induction false} DetailsCount(groups: map<int, seq<Row>>, dates: seq<int>,
                                        profitLimit: int, lossLimit: int)
    requires forall i :: 0 <= i < |dates| ==> dates[i] in groups
    ensures |Details(DailyResults(groups, dates, profitLimit, lossLimit))| == GroupSize(groups, dates)
    decreases |dates|
  {
    if dates != [] {
      var front := dates[..|dates| - 1];
      DetailsCount(groups, front, profitLimit, lossLimit);
      var r := DailyResults(groups, dates, profitLimit, lossLimit);
      assert r[..|r| - 1] == DailyResults(groups, front, profitLimit, lossLimit);
    }
  }

  /** One equity point per day, carrying the day's date, its equity and its fall from the running peak. */
  lemma {:induction false} CurveShape(results: seq<DailyResult>)
    ensures |Curve(results)| == |results|
    ensures forall i :: 0 <= i < |results| ==>
              Curve(results)[i] == CurvePoint(results[i].date, results[i].cumulativeProfit,
                                              Peak(results[..i + 1]) - results[i].cumulativeProfit)
    decreases |results|
  {
    if results != [] {
      var front := results[..|results| - 1];
      CurveShape(front);
      forall i | 0 <= i < |front|
        ensures Curve(results)[i] == CurvePoint(results[i].date, results[i].cumulativeProfit,
                                                Peak(results[..i + 1]) - results[i].cumulativeProfit)
      {
        assert front[..i + 1] == results[..i + 1];
      }
      assert results[..|results|] == results;
    }
  }

  /** The running peak is at least 0 and every equity so far, and is 0 or one of those equities. */
  lemma {:induction false} PeakBounds(results: seq<DailyResult>)
    ensures Peak(results) >= 0
    ensures forall i :: 0 <= i < |results| ==> results[i].cumulativeProfit <= Peak(results)
    ensures Peak(results) == 0
            || exists i :: 0 <= i < |results| && results[i].cumulativeProfit == Peak(results)
    decreases |results|
  {
    if results != [] {
      var front := results[..|results| - 1];
      PeakBounds(front);
      assert forall i :: 0 <= i < |front| ==> front[i] == results[i];
      if Peak(results) != 0 && Peak(results) != results[|results| - 1].cumulativeProfit {
        var i :| 0 <= i < |front| && front[i].cumulativeProfit == Peak(front);
        assert results[i].cumulativeProfit == Peak(results);
      }
    }
  }

  /** The fall of day `i` below the peak of the days up to it. */
  function DrawdownAt(results: seq<DailyResult>, i: nat): int
    requires i < |results|
  {
    Peak(results[..i + 1]) - results[i].cumulativeProfit
  }

  /** A day's drawdown depends only on the days up to it. */
  lemma DrawdownAtPrefix(results: seq<DailyResult>, k: nat, i: nat)
    requires i < k <= |results|
    ensures DrawdownAt(results[..k], i) == DrawdownAt(results, i)
  {
    assert results[..k][..i + 1] == results[..i + 1];
  }

  lemma DrawdownAtNonNegative(results: seq<DailyResult>, i: nat)
    requires i < |results|
    ensures 0 <= DrawdownAt(results, i)
  {
    PeakBounds(results[..i + 1]);
    assert results[..i + 1][i] == results[i];
  }

  /**
   * The maximum drawdown is never negative, bounds every day's fall below the
   * running peak, and is the fall of some day when there is a day.
   */
  lemma {:induction false} MaxDrawdownIsMax(results: seq<DailyResult>)
    ensures MaxDrawdown(results) >= 0
    ensures forall i :: 0 <= i < |results| ==> 0 <= DrawdownAt(results, i) <= MaxDrawdown(results)
    ensures results != [] ==>
              exists i :: 0 <= i < |results| && DrawdownAt(results, i) == MaxDrawdown(results)
    decreases |results|
  {
    if results != [] {
      var n := |results|;
      var front := results[..n - 1];
      MaxDrawdownIsMax(front);
      assert results[..n] == results;
      assert DrawdownAt(results, n - 1) == Peak(results) - results[n - 1].cumulativeProfit;
      forall i | 0 <= i < n
        ensures 0 <= DrawdownAt(results, i) <= MaxDrawdown(results)
      {
        DrawdownAtNonNegative(results, i);
        if i < n - 1 {
          DrawdownAtPrefix(results, n - 1, i);
        }
      }
      if MaxDrawdown(results) != DrawdownAt(results, n - 1) {
        var i :| 0 <= i < n - 1 && DrawdownAt(front, i) == MaxDrawdown(front);
        DrawdownAtPrefix(results, n - 1, i);
      }
    }
  }

  /**
   * The maximum drawdown is 0 exactly when no day's equity is below 0 or
   * below an earlier day's equity.
   */
  lemma MaxDrawdownZero(results: seq<DailyResult>)
    ensures MaxDrawdown(results) == 0 <==>
              forall i :: 0 <= i < |results| ==>
                && results[i].cumulativeProfit >= 0
                && forall j :: 0 <= j < i ==> results[j].cumulativeProfit <= results[i].cumulativeProfit
  {
    MaxDrawdownIsMax(results);
    forall i | 0 <= i < |results|
      ensures DrawdownAt(results, i) == 0 <==>
                && results[i].cumulativeProfit >= 0
                && forall j :: 0 <= j < i ==> results[j].cumulativeProfit <= results[i].cumulativeProfit
    {
      var p := results[..i + 1];
      PeakBounds(p);
      assert p[i] == results[i];
      assert forall j :: 0 <= j <= i ==> p[j] == results[j];
    }
  }

  /**
   * The day counters never exceed the number of days; no day trips both caps;
   * with positive caps, a day that trips the profit cap is a profitable day and
   * one that trips the loss cap a loss day.
   */
  lemma DayCounters(groups: map<int, seq<Row>>, totalTrades: nat, profitLimit: int, lossLimit: int)
    ensures var res := Simulate(groups, totalTrades, profitLimit, lossLimit);
            && |res.dailyResults| == |groups|
            && res.profitableDays + res.lossDays <= |groups|
            && res.profitLimitTriggeredDays + res.lossLimitTriggeredDays <= |groups|
            && (profitLimit > 0 ==> res.profitLimitTriggeredDays <= res.profitableDays)
            && (lossLimit > 0 ==> res.lossLimitTriggeredDays <= res.lossDays)
  {
    var dates := SortedSet(groups.Keys);
    var r := DailyResults(groups, dates, profitLimit, lossLimit);
    DailyResultsDays(groups, dates, profitLimit, lossLimit);
    CountExclusive(r, IsProfitableDay, IsLossDay);
    forall i | 0 <= i < |r|
      ensures !(HitProfitLimitDay(r[i]) && HitLossLimitDay(r[i]))
      ensures profitLimit > 0 ==> HitProfitLimitDay(r[i]) ==> IsProfitableDay(r[i])
      ensures lossLimit > 0 ==> HitLossLimitDay(r[i]) ==> IsLossDay(r[i])
    {
      DayProperties.TriggersExclusive(groups[dates[i]], profitLimit, lossLimit);
      DayProperties.CapExact(groups[dates[i]], profitLimit, lossLimit);
    }
    CountExclusive(r, HitProfitLimitDay, HitLossLimitDay);
    if profitLimit > 0 {
      CountImplies(r, HitProfitLimitDay, IsProfitableDay);
    }
    if lossLimit > 0 {
      CountImplies(r, HitLossLimitDay, IsLossDay);
    }
  }

  /** The equity curve has one point per date of the groups, in strictly ascending date order. */
  lemma CurveDates(groups: map<int, seq<Row>>, totalTrades: nat, profitLimit: int, lossLimit: int)
    ensures var curve := Simulate(groups, totalTrades, profitLimit, lossLimit).equityCurve;
            && |curve| == |groups|
            && (forall i :: 0 <= i < |curve| ==> curve[i].date in groups)
            && (forall d :: d in groups ==> exists i :: 0 <= i < |curve| && curve[i].date == d)
            && (forall i, j :: 0 <= i < j < |curve| ==> curve[i].date < curve[j].date)
  {
    var dates := SortedSet(groups.Keys);
    CurveFollowsDates(groups, dates, profitLimit, lossLimit);
    SameDates(Curve(DailyResults(groups, dates, profitLimit, lossLimit)), dates, groups.Keys);
  }

  /** A curve whose dates are those of `sorted(keys)` covers the keys in ascending order. */
  lemma SameDates(curve: seq<CurvePoint>, sorted: seq<int>, keys: set<int>)
    requires |sorted| == |keys|
    requires forall i :: 0 <= i < |sorted| ==> sorted[i] in keys
    requires forall x {:trigger x in sorted} :: x in keys ==> x in sorted
    requires forall i, j :: 0 <= i < j < |sorted| ==> sorted[i] < sorted[j]
    requires |curve| == |sorted| && forall i :: 0 <= i < |sorted| ==> curve[i].date == sorted[i]
    ensures |curve| == |keys|
    ensures forall i :: 0 <= i < |curve| ==> curve[i].date in keys
    ensures forall d :: d in keys ==> exists i :: 0 <= i < |curve| && curve[i].date == d
    ensures forall i, j :: 0 <= i < j < |curve| ==> curve[i].date < curve[j].date
  {
    forall d | d in keys
      ensures exists i :: 0 <= i < |curve| && curve[i].date == d
    {
      assert d in sorted;
      var i :| 0 <= i < |sorted| && sorted[i] == d;
      assert curve[i].date == d;
    }
  }

  /** The equity curve's dates are the replayed dates, in their order. */
  lemma CurveFollowsDates(groups: map<int, seq<Row>>, dates: seq<int>, profitLimit: int, lossLimit: int)
    requires forall i :: 0 <= i < |dates| ==> dates[i] in groups
    ensures var curve := Curve(DailyResults(groups, dates, profitLimit, lossLimit));
            |curve| == |dates| && forall i :: 0 <= i < |dates| ==> curve[i].date == dates[i]
  {
    var r := DailyResults(groups, dates, profitLimit, lossLimit);
    DailyResultsDays(groups, dates, profitLimit, lossLimit);
    CurveShape(r);
    forall i | 0 <= i < |dates|
      ensures Curve(r)[i].date == dates[i]
    {
      assert DayMatches(r[i], dates[i], groups[dates[i]], profitLimit, lossLimit);
    }
  }

  /**
   * On days whose equities are the running sums of the daily totals, each
   * equity point holds that running sum and a drawdown between 0 and the
   * maximum drawdown.
   */
  lemma CurveOfRunningSums(results: seq<DailyResult>)
    requires RunningSums(results)
    ensures |Curve(results)| == |results|
    ensures forall i :: 0 <= i < |results| ==>
              && Curve(results)[i].equity == Sum(results[..i + 1], DailyProfitOf)
              && Curve(results)[i].drawdown == DrawdownAt(results, i)
              && 0 <= Curve(results)[i].drawdown <= MaxDrawdown(results)
  {
    CurveShape(results);
    MaxDrawdownIsMax(results);
    forall i | 0 <= i < |results|
      ensures Curve(results)[i].equity == Sum(results[..i + 1], DailyProfitOf)
    {
    }
  }

  /**
   * Each equity point's equity is the running sum of the daily totals and its
   * drawdown the fall below the running peak (which starts at 0), bounded by the
   * maximum drawdown; the total profit is the last equity, 0 with no days.
   */
  lemma CurveValues(groups: map<int, seq<Row>>, totalTrades: nat, profitLimit: int, lossLimit: int)
    ensures var res := Simulate(groups, totalTrades, profitLimit, lossLimit);
            var curve := res.equityCurve;
            && |curve| == |res.dailyResults|
            && (forall i :: 0 <= i < |curve| ==>
                  && curve[i].equity == Sum(res.dailyResults[..i + 1], DailyProfitOf)
                  && curve[i].drawdown == DrawdownAt(res.dailyResults, i)
                  && 0 <= curve[i].drawdown <= res.maxDrawdown)
            && res.totalProfit == (if curve == [] then 0 else curve[|curve| - 1].equity)
            && res.totalProfit == Sum(res.dailyResults, DailyProfitOf)
            && res.maxDrawdown >= 0
  {
    var dates := SortedSet(groups.Keys);
    var r := DailyResults(groups, dates, profitLimit, lossLimit);
    var res := Simulate(groups, totalTrades, profitLimit, lossLimit);
    assert res.dailyResults == r && res.equityCurve == Curve(r);
    assert res.maxDrawdown == MaxDrawdown(r) && res.totalProfit == FinalEquity(r);
    DailyResultsEquity(groups, dates, profitLimit, lossLimit);
    CurveOfRunningSums(r);
    MaxDrawdownIsMax(r);
    if r != [] {
      CurveShape(r);
    }
  }

  /**
   * Every executed winning or losing trade is an executed trade, and the
   * winning and losing counts do not overlap.
   */
  lemma TradeCounters(groups: map<int, seq<Row>>, totalTrades: nat, profitLimit: int, lossLimit: int)
    ensures var res := Simulate(groups, totalTrades, profitLimit, lossLimit);
            && res.winningTrades + res.losingTrades <= res.executedTrades <= |res.tradeDetails|
            && |res.tradeDetails| == GroupSize(groups, SortedSet(groups.Keys))
  {
    var dates := SortedSet(groups.Keys);
    var res := Simulate(groups, totalTrades, profitLimit, lossLimit);
    var details := res.tradeDetails;
    assert details == Details(DailyResults(groups, dates, profitLimit, lossLimit));
    assert && res.executedTrades == Count(details, IsExecuted)
           && res.winningTrades == Count(details, IsWinning)
           && res.losingTrades == Count(details, IsLosing);
    DetailCounts(details);
    DetailsCount(groups, dates, profitLimit, lossLimit);
  }

  /** Winning and losing details are disjoint kinds of executed detail. */
  lemma DetailCounts(details: seq<TradeDetail>)
    ensures Count(details, IsWinning) + Count(details, IsLosing) <= Count(details, IsExecuted) <= |details|
  {
    CountDisjoint(details, IsWinning, IsLosing, IsExecuted);
    CountBounds(details, IsExecuted);
  }

  /** The gross gain is positive exactly when some executed trade won; likewise the gross loss. */
  lemma GrossFigures(details: seq<TradeDetail>)
    ensures Sum(details, GainOf) >= 0 && Sum(details, LossOf) >= 0
    ensures Sum(details, GainOf) > 0 <==> Count(details, IsWinning) > 0
    ensures Sum(details, LossOf) > 0 <==> Count(details, IsLosing) > 0
  {
    SumNonNegative(details, GainOf);
    SumNonNegative(details, LossOf);
    CountBounds(details, IsWinning);
    CountBounds(details, IsLosing);
  }

  /**
   * The profit factor is infinite exactly when some executed trade won and
   * none lost, 0 exactly when none won, and otherwise the gross gain over the
   * gross loss; it is never negative.
   */
  lemma ProfitFactorCases(groups: map<int, seq<Row>>, totalTrades: nat, profitLimit: int, lossLimit: int)
    ensures var res := Simulate(groups, totalTrades, profitLimit, lossLimit);
            var details := res.tradeDetails;
            && (res.profitFactor == Infinite <==> res.winningTrades > 0 && res.losingTrades == 0)
            && (res.profitFactor == Finite(0.0) <==> res.winningTrades == 0)
            && (res.winningTrades > 0 && res.losingTrades > 0 ==>
                  res.profitFactor == Finite(Sum(details, GainOf) as real / Sum(details, LossOf) as real))
            && (res.profitFactor.Finite? ==> res.profitFactor.value >= 0.0)
  {
    var dates := SortedSet(groups.Keys);
    var details := Details(DailyResults(groups, dates, profitLimit, lossLimit));
    GrossFigures(details);
    var g, l := Sum(details, GainOf), Sum(details, LossOf);
    if l > 0 && g > 0 {
      assert g as real / l as real > 0.0;
    }
  }

  /** A win rate over `executed` trades of which `winning` won is a percentage. */
  lemma WinRateOfBounds(winning: nat, executed: nat)
    requires winning <= executed
    ensures 0.0 <= WinRateOf(winning, executed) <= 100.0
    ensures executed > 0 ==> WinRateOf(winning, executed) * executed as real == winning as real * 100.0
    ensures WinRateOf(winning, executed) == 100.0 <==> executed > 0 && winning == executed
  {
    if executed > 0 {
      var q := winning as real / executed as real;
      RatioBounds(q, winning as real, executed as real);
      assert WinRateOf(winning, executed) == q * 100.0;
    }
  }

  /** The win rate is a percentage, 0 when nothing was executed. */
  lemma WinRateBounds(groups: map<int, seq<Row>>, totalTrades: nat, profitLimit: int, lossLimit: int)
    ensures var res := Simulate(groups, totalTrades, profitLimit, lossLimit);
            && 0.0 <= res.winRate <= 100.0
            && (res.executedTrades == 0 ==> res.winRate == 0.0)
            && (res.winRate == 100.0 <==> res.executedTrades > 0 && res.winningTrades == res.executedTrades)
  {
    var res := Simulate(groups, totalTrades, profitLimit, lossLimit);
    TradeCounters(groups, totalTrades, profitLimit, lossLimit);
    assert res.winRate == WinRateOf(res.winningTrades, res.executedTrades);
    WinRateOfBounds(res.winningTrades, res.executedTrades);
  }
}
