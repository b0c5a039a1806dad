/**
 * trade_model.py: a trade record with its trade date and profitability, the
 * collection that keeps trades in entry-time order, the collection's
 * queries (trades of a date, unique dates, date range, total profit, win rate,
 * profit factor), and the identity string of an optimisation result.
 */
module TradeModel {
  import opened Common
  import opened Calendar
  import opened Seqs
  import opened Decimal

  datatype Direction = Long | Short

  /** One trade; money in integer cents, prices and quantity as reals. */
  datatype Trade = Trade(tradeId: int, entryTime: DateTime, exitTime: DateTime, direction: Direction,
                         entryPrice: real, exitPrice: real, quantity: real,
                         profitUsd: int, maxProfitUsd: int, maxLossUsd: int)
  {
    /** `trade_date`: the entry time truncated to midnight. */
    function TradeDate(): (d: DateTime)
      ensures d.second == 0 && d.day == entryTime.day
      ensures d.Stamp() <= entryTime.Stamp() < d.Stamp() + SecondsPerDay
    {
      Midnight(entryTime)
    }

    /** `is_profitable`. */
    predicate IsProfitable()
    {
      profitUsd > 0
    }
  }

  /** The sort key of `_sort_trades`: the entry time. */
  function EntryKey(t: Trade): int
  {
    t.entryTime.Stamp()
  }

  /**
   * `TradeCollection`: a list of trades that every constructor and insertion
   * leaves sorted by entry time with Python's stable sort.
   */
  class TradeCollection {
    var trades: seq<Trade>

    ghost predicate Valid()
      reads this
    {
      SortedBy(trades, EntryKey)
    }

    /** `__init__`: takes the given trades (or none) and sorts them. */
    constructor(initial: seq<Trade>)
      ensures Valid()
      ensures multiset(trades) == multiset(initial)
      ensures StableFor(initial, trades, EntryKey)
    {
      trades := initial;
      new;
      SortTrades();
    }

    /** `_sort_trades`: a stable sort by entry time. */
    method SortTrades()
      modifies this
      ensures Valid()
      ensures multiset(trades) == multiset(old(trades))
      ensures StableFor(old(trades), trades, EntryKey)
    {
      trades := StableSort(trades, EntryKey);
    }

    /** `add_trade`: append, then sort again. */
    method AddTrade(t: Trade)
      modifies this
      ensures Valid()
      ensures |trades| == |old(trades)| + 1
      ensures multiset(trades) == multiset(old(trades)) + multiset{t}
      ensures StableFor(old(trades) + [t], trades, EntryKey)
    {
      var appended := trades + [t];
      trades := appended;
      SortTrades();
      assert |trades| == |multiset(trades)| == |multiset(appended)| == |appended|;
    }
  }

  /**
   * Adding a trade no earlier than every trade of a sorted collection appends
   * it: the sort leaves the old trades where they were.
   */
  lemma AddInOrderAppends(before: seq<Trade>, t: Trade, after: seq<Trade>)
    requires SortedBy(before, EntryKey)
    requires forall i :: 0 <= i < |before| ==> EntryKey(before[i]) <= EntryKey(t)
    requires SortedBy(after, EntryKey)
    requires multiset(after) == multiset(before) + multiset{t}
    requires StableFor(before + [t], after, EntryKey)
    ensures after == before + [t]
  {
    assert multiset(before + [t]) == multiset(before) + multiset{t};
    SortedStableUnique(before + [t], after, EntryKey);
  }

  /** Sorting a sorted collection changes nothing. */
  lemma SortSortedUnchanged(before: seq<Trade>, after: seq<Trade>)
    requires SortedBy(before, EntryKey) && SortedBy(after, EntryKey)
    requires multiset(after) == multiset(before)
    requires StableFor(before, after, EntryKey)
    ensures after == before
  {
    SortedStableUnique(before, after, EntryKey);
  }

  // ------------------------------------------------------------------ queries

  /** The calendar day of a trade's date. */
  function TradeDay(t: Trade): int
  {
    t.TradeDate().day
  }

  /** `get_trades_by_date(date)`: the trades whose trade date is `date` at midnight, in collection order. */
  function TradesByDate(trades: seq<Trade>, date: DateTime): (r: seq<Trade>)
    ensures |r| <= |trades|
    ensures forall t :: t in r <==> t in trades && t.TradeDate() == Midnight(date)
  {
    if trades == [] then []
    else
      var last := trades[|trades| - 1];
      TradesByDate(trades[..|trades| - 1], date)
        + (if last.TradeDate() == Midnight(date) then [last] else [])
  }

  /** The query keeps collection order: it is the group of the date's day under a stable grouping by day. */
  lemma {:induction false} TradesByDateIsGroup(trades: seq<Trade>, date: DateTime)
    ensures TradesByDate(trades, date) == WithKey(trades, TradeDay, date.day)
    decreases |trades|
  {
    if trades != [] {
      TradesByDateIsGroup(trades[..|trades| - 1], date);
    }
  }

  /** Trades of one date taken from a sorted collection are sorted. */
  lemma {:induction false} TradesByDateSorted(trades: seq<Trade>, date: DateTime)
    requires SortedBy(trades, EntryKey)
    ensures SortedBy(TradesByDate(trades, date), EntryKey)
    decreases |trades|
  {
    if trades != [] {
      var front := trades[..|trades| - 1];
      SortedPrefix(trades, EntryKey, |trades| - 1);
      TradesByDateSorted(front, date);
      var r := TradesByDate(front, date);
      forall t | t in r
        ensures EntryKey(t) <= EntryKey(trades[|trades| - 1])
      {
        var i :| 0 <= i < |front| && front[i] == t;
        assert trades[i] == t;
      }
    }
  }

  /** The set of days of the trades' dates. */
  function TradeDays(trades: seq<Trade>): set<int>
  {
    set t | t in trades :: TradeDay(t)
  }

  /** `get_unique_dates`: the distinct trade dates, ascending. */
  function UniqueDates(trades: seq<Trade>): (r: seq<DateTime>)
    ensures trades == [] ==> r == []
    ensures forall i, j :: 0 <= i < j < |r| ==> r[i].Stamp() < r[j].Stamp()
    ensures forall d :: d in r <==> exists t :: t in trades && t.TradeDate() == d
  {
    var days := SortedSet(TradeDays(trades));
    var r := seq(|days|, i requires 0 <= i < |days| => DateTime(days[i], 0));
    assert forall i :: 0 <= i < |r| ==> r[i] == DateTime(days[i], 0);
    forall d | d in r
      ensures exists t :: t in trades && t.TradeDate() == d
    {
      var i :| 0 <= i < |r| && r[i] == d;
      assert days[i] in TradeDays(trades);
    }
    forall t | t in trades
      ensures t.TradeDate() in r
    {
      assert TradeDay(t) in days;
      var i :| 0 <= i < |days| && days[i] == TradeDay(t);
      assert r[i] == t.TradeDate();
    }
    r
  }

  /** The first and last trade date of a non-empty collection. */
  datatype DateRange = DateRange(first: DateTime, last: DateTime)

  function MinDay(trades: seq<Trade>): (m: int)
    requires trades != []
    ensures exists t :: t in trades && TradeDay(t) == m
    ensures forall t :: t in trades ==> m <= TradeDay(t)
  {
    if |trades| == 1 then TradeDay(trades[0])
    else
      var front := trades[..|trades| - 1];
      assert forall t :: t in front ==> t in trades;
      Min(MinDay(front), TradeDay(trades[|trades| - 1]))
  }

  function MaxDay(trades: seq<Trade>): (m: int)
    requires trades != []
    ensures exists t :: t in trades && TradeDay(t) == m
    ensures forall t :: t in trades ==> TradeDay(t) <= m
  {
    if |trades| == 1 then TradeDay(trades[0])
    else
      var front := trades[..|trades| - 1];
      assert forall t :: t in front ==> t in trades;
      Max(MaxDay(front), TradeDay(trades[|trades| - 1]))
  }

  /** `get_date_range`: `(None, None)` for no trades, else the earliest and latest trade date. */
  function GetDateRange(trades: seq<Trade>): (r: Option<DateRange>)
    ensures r.None? <==> trades == []
    ensures r.Some? ==> r.value.first.second == 0 && r.value.last.second == 0
    ensures r.Some? ==> forall t :: t in trades ==>
              r.value.first.Stamp() <= t.TradeDate().Stamp() <= r.value.last.Stamp()
  {
    if trades == [] then None
    else Some(DateRange(DateTime(MinDay(trades), 0), DateTime(MaxDay(trades), 0)))
  }

  /** In an ascending sequence, an element no later than every element is the first. */
  lemma AscendingFirst(u: seq<DateTime>, m: DateTime)
    requires forall i, j :: 0 <= i < j < |u| ==> u[i].Stamp() < u[j].Stamp()
    requires m in u && forall i :: 0 <= i < |u| ==> m.Stamp() <= u[i].Stamp()
    ensures u[0] == m
  {
  }

  /** In an ascending sequence, an element no earlier than every element is the last. */
  lemma AscendingLast(u: seq<DateTime>, m: DateTime)
    requires forall i, j :: 0 <= i < j < |u| ==> u[i].Stamp() < u[j].Stamp()
    requires m in u && forall i :: 0 <= i < |u| ==> u[i].Stamp() <= m.Stamp()
    ensures u[|u| - 1] == m
  {
    var i :| 0 <= i < |u| && u[i] == m;
    if i < |u| - 1 {
      assert u[i].Stamp() < u[|u| - 1].Stamp();
    }
  }

  /** The midnight of a trade's day is one of the unique dates. */
  lemma DayIsUniqueDate(trades: seq<Trade>, day: int)
    requires exists t :: t in trades && TradeDay(t) == day
    ensures DateTime(day, 0) in UniqueDates(trades)
  {
    var t :| t in trades && TradeDay(t) == day;
    assert t.TradeDate() == DateTime(day, 0);
  }

  /** Every unique date lies between the midnights of the first and the last trade day. */
  lemma UniqueDateWithinDays(trades: seq<Trade>, d: DateTime)
    requires d in UniqueDates(trades)
    ensures trades != []
    ensures DateTime(MinDay(trades), 0).Stamp() <= d.Stamp() <= DateTime(MaxDay(trades), 0).Stamp()
  {
    var t :| t in trades && t.TradeDate() == d;
    StampOrdersDays(DateTime(MinDay(trades), 0), d);
    StampOrdersDays(d, DateTime(MaxDay(trades), 0));
  }

  /** The range's ends are the first and the last of the unique dates. */
  lemma DateRangeEndsUniqueDates(trades: seq<Trade>)
    requires trades != []
    ensures var u := UniqueDates(trades);
            && u != []
            && GetDateRange(trades) == Some(DateRange(u[0], u[|u| - 1]))
  {
    var u := UniqueDates(trades);
    var lo, hi := DateTime(MinDay(trades), 0), DateTime(MaxDay(trades), 0);
    DayIsUniqueDate(trades, MinDay(trades));
    DayIsUniqueDate(trades, MaxDay(trades));
    forall i | 0 <= i < |u|
      ensures lo.Stamp() <= u[i].Stamp() <= hi.Stamp()
    {
      UniqueDateWithinDays(trades, u[i]);
    }
    AscendingFirst(u, lo);
    AscendingLast(u, hi);
  }

  function ProfitOf(t: Trade): int { t.profitUsd }
  predicate IsWinner(t: Trade) { t.IsProfitable() }
  function WinningProfit(t: Trade): int { if t.IsProfitable() then t.profitUsd else 0 }
  function NonWinningProfit(t: Trade): int { if t.IsProfitable() then 0 else t.profitUsd }

  /** `get_total_profit`. */
  function TotalProfit(trades: seq<Trade>): int
  {
    Sum(trades, ProfitOf)
  }

  /** The total splits into the winners' profit and the rest's, and adds up over concatenation. */
  lemma {:induction false} TotalProfitSplits(a: seq<Trade>, b: seq<Trade>)
    ensures TotalProfit(a + b) == TotalProfit(a) + TotalProfit(b)
    ensures TotalProfit(a) == Sum(a, WinningProfit) + Sum(a, NonWinningProfit)
    decreases |a|
  {
    SumConcat(a, b, ProfitOf);
    if a != [] {
      TotalProfitSplits(a[..|a| - 1], b);
    }
  }

  /** `get_win_rate`: the share of profitable trades, 0 for no trades. */
  function WinRate(trades: seq<Trade>): (r: real)
    ensures trades == [] ==> r == 0.0
    ensures trades != [] ==> r * |trades| as real == Count(trades, IsWinner) as real
  {
    if trades == [] then 0.0 else Count(trades, IsWinner) as real / |trades| as real
  }

  /** The win rate lies in [0, 1]; it is 1 exactly when every trade won and 0 exactly when none did. */
  lemma WinRateBounds(trades: seq<Trade>)
    ensures 0.0 <= WinRate(trades) <= 1.0
    ensures WinRate(trades) == 1.0 <==>
              trades != [] && forall i :: 0 <= i < |trades| ==> trades[i].IsProfitable()
    ensures WinRate(trades) == 0.0 <==> forall i :: 0 <= i < |trades| ==> !trades[i].IsProfitable()
  {
    CountBounds(trades, IsWinner);
    if trades != [] {
      var w, n := Count(trades, IsWinner) as real, |trades| as real;
      RatioBounds(WinRate(trades), w, n);
    }
  }

  /**
   * `get_profit_factor`: the winners' profit over the magnitude of the rest's;
   * with nothing lost, infinite if something was won and 0 otherwise.
   */
  function ProfitFactor(trades: seq<Trade>): Factor
  {
    var totalProfit := Sum(trades, WinningProfit);
    var totalLoss := Abs(Sum(trades, NonWinningProfit));
    if totalLoss == 0 then (if totalProfit > 0 then Infinite else Finite(0.0))
    else Finite(totalProfit as real / totalLoss as real)
  }

  /** No winners means a zero winning sum; a trade that did not win never adds to the losses' magnitude. */
  lemma {:induction false} ProfitSums(trades: seq<Trade>)
    ensures Sum(trades, WinningProfit) >= 0 && Sum(trades, NonWinningProfit) <= 0
    ensures Sum(trades, WinningProfit) > 0 <==> exists i :: 0 <= i < |trades| && trades[i].IsProfitable()
    ensures Sum(trades, NonWinningProfit) == 0 <==>
              forall i :: 0 <= i < |trades| ==> !trades[i].IsProfitable() ==> trades[i].profitUsd == 0
    decreases |trades|
  {
    SumNonNegative(trades, WinningProfit);
    if trades != [] {
      var front := trades[..|trades| - 1];
      ProfitSums(front);
      assert forall i :: 0 <= i < |front| ==> front[i] == trades[i];
    }
  }

  /**
   * The profit factor is infinite exactly when some trade won and every other
   * trade broke even, 0 exactly when no trade won, and, once some trade lost
   * money, the ratio of the winning sum to the losing magnitude, positive when
   * some trade won.
   */
  lemma ProfitFactorCases(trades: seq<Trade>)
    ensures ProfitFactor(trades) == Infinite <==>
              && (exists i :: 0 <= i < |trades| && trades[i].IsProfitable())
              && (forall i :: 0 <= i < |trades| ==> !trades[i].IsProfitable() ==> trades[i].profitUsd == 0)
    ensures ProfitFactor(trades) == Finite(0.0) <==>
              forall i :: 0 <= i < |trades| ==> !trades[i].IsProfitable()
    ensures ProfitFactor(trades).Finite? ==> ProfitFactor(trades).value >= 0.0
    ensures (exists i :: 0 <= i < |trades| && !trades[i].IsProfitable() && trades[i].profitUsd != 0) ==>
              && ProfitFactor(trades).Finite?
              && ProfitFactor(trades).value * (-Sum(trades, NonWinningProfit)) as real
                 == Sum(trades, WinningProfit) as real
              && ((exists i :: 0 <= i < |trades| && trades[i].IsProfitable()) ==> ProfitFactor(trades).value > 0.0)
  {
    ProfitSums(trades);
    if Sum(trades, NonWinningProfit) != 0 {
      ProfitFactorRatio(trades);
    }
  }

  /** With some money lost, the factor is the ratio of the winners' sum to the losses' magnitude. */
  lemma ProfitFactorRatio(trades: seq<Trade>)
    requires Sum(trades, WinningProfit) >= 0 && Sum(trades, NonWinningProfit) < 0
    ensures ProfitFactor(trades).Finite?
    ensures ProfitFactor(trades).value * (-Sum(trades, NonWinningProfit)) as real == Sum(trades, WinningProfit) as real
    ensures ProfitFactor(trades).value >= 0.0
    ensures Sum(trades, WinningProfit) > 0 ==> ProfitFactor(trades).value > 0.0
  {
    var g, l := Sum(trades, WinningProfit), -Sum(trades, NonWinningProfit);
    assert Abs(Sum(trades, NonWinningProfit)) == l;
    var q := g as real / l as real;
    assert q * l as real == g as real;
  }

  // ---------------------------------------------------------- result identity

  /**
   * The fields of an `OptimizationResult` that are plain values; limits and
   * money in cents, the two trade collections and the daily metrics are not
   * part of this model.
   */
  datatype OptimizationResult = OptimizationResult(
    dailyProfitLimit: int,
    dailyLossLimit: int,
    totalProfit: int,
    profitFactor: Factor,
    winRate: real,
    totalTradeDays: nat,
    profitDays: nat,
    lossDays: nat,
    hitProfitLimitDays: nat,
    hitLossLimitDays: nat,
    maxDrawdown: int,
    tradeCount: nat,
    equityCurve: seq<int>)
  {
    /** `id`: "PL" and the rounded profit limit, "_LL" and the rounded loss limit. */
    function Id(): (s: string)
      ensures ParseResultId(s) == Some((WholeOf(dailyProfitLimit), WholeOf(dailyLossLimit)))
    {
      var pl := FormatWhole(dailyProfitLimit);
      var ll := FormatWhole(dailyLossLimit);
      var rest := pl + "_LL" + ll;
      var s := "PL" + rest;
      assert s[..2] == "PL" && s[2..] == rest;
      IdSplit(pl, ll);
      assert rest[..|pl|] == pl && rest[|pl|..|pl| + 3] == "_LL" && rest[|pl| + 3..] == ll;
      s
    }
  }

  /** The index of the first '_' in `s`, or |s|. */
  function Underscore(s: string): (k: nat)
    ensures k <= |s|
    ensures forall i :: 0 <= i < k ==> s[i] != '_'
    ensures k < |s| ==> s[k] == '_'
  {
    if s == [] then 0 else if s[0] == '_' then 0 else 1 + Underscore(s[1..])
  }

  lemma IdSplit(pl: string, ll: string)
    requires forall i :: 0 <= i < |pl| ==> pl[i] == '-' || IsDigit(pl[i])
    ensures Underscore(pl + "_LL" + ll) == |pl|
    decreases |pl|
  {
    if pl != [] {
      assert (pl + "_LL" + ll)[1..] == pl[1..] + "_LL" + ll;
      IdSplit(pl[1..], ll);
    }
  }

  /** Reads an identity string back into the two rounded limits. */
  function ParseResultId(s: string): Option<(Whole, Whole)>
  {
    if |s| < 2 || s[..2] != "PL" then None
    else
      var rest := s[2..];
      var k := Underscore(rest);
      if k + 3 > |rest| || rest[k..k + 3] != "_LL" then None
      else match (ParseWhole(rest[..k]), ParseWhole(rest[k + 3..]))
        case (Some(p), Some(l)) => Some((p, l))
        case _ => None
  }

  /** Two results share an identity exactly when their limits round to the same whole amounts. */
  lemma IdInjective(a: OptimizationResult, b: OptimizationResult)
    ensures a.Id() == b.Id() <==>
              WholeOf(a.dailyProfitLimit) == WholeOf(b.dailyProfitLimit)
              && WholeOf(a.dailyLossLimit) == WholeOf(b.dailyLossLimit)
  {
    FormatWholeInjective(a.dailyProfitLimit, b.dailyProfitLimit);
    FormatWholeInjective(a.dailyLossLimit, b.dailyLossLimit);
  }

  /** For limits of whole dollars the identity shows their plain decimal digits. */
  lemma IdOfWholeLimits(r: OptimizationResult, profitUnits: nat, lossUnits: nat)
    requires r.dailyProfitLimit == 100 * profitUnits && r.dailyLossLimit == 100 * lossUnits
    ensures r.Id() == "PL" + NatToString(profitUnits) + "_LL" + NatToString(lossUnits)
  {
    FormatWholeUnits(profitUnits);
    FormatWholeUnits(lossUnits);
  }
}
