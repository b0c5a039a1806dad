/**
 * Helpers of utils.py: the drawdown series of an equity curve, the trading-day
 * rule with its 06:00 and 18:00 cut-offs, safe division, and the unit-scaling
 * loop of `memory_usage`.
 */
module Utils {
  import opened Common
  import opened Calendar

  /** A trading day starts at 06:00 and runs to 06:00 of the next calendar day. */
  const DayStartSecond: int := 6 * SecondsPerHour
  /** From 18:00 on, a time belongs with the early hours of the next calendar day. */
  const EveningSecond: int := 18 * SecondsPerHour

  // ---------------------------------------------------------------- drawdown

  /** One point of an equity curve, as `calculate_drawdown` reads it. */
  datatype EquityPoint = EquityPoint(date: int, equity: int)

  /** One point of the series `calculate_drawdown` returns. */
  datatype DrawdownPoint = DrawdownPoint(date: int, equity: int, drawdown: int, drawdownPct: real)

  /** The running peak at point `i`: the largest equity among points 0..i. */
  function PeakUpTo(curve: seq<EquityPoint>, i: nat): (m: int)
    requires i < |curve|
    ensures forall j :: 0 <= j <= i ==> curve[j].equity <= m
  {
    if i == 0 then curve[0].equity else Max(PeakUpTo(curve, i - 1), curve[i].equity)
  }

  /** The running peak is the equity of some point up to `i`. */
  lemma {:induction false} PeakAttained(curve: seq<EquityPoint>, i: nat) returns (j: nat)
    requires i < |curve|
    ensures j <= i && curve[j].equity == PeakUpTo(curve, i)
  {
    if i == 0 {
      j := 0;
    } else {
      j := PeakAttained(curve, i - 1);
      if PeakUpTo(curve, i - 1) < curve[i].equity {
        j := i;
      }
    }
  }

  /** `drawdown / max_equity * 100` when the peak is positive, else 0. */
  function DrawdownPct(drawdown: int, peak: int): real
  {
    if peak > 0 then drawdown as real / peak as real * 100.0 else 0.0
  }

  /** The percentage is never negative, and at most 100 when the drawdown does not exceed the peak. */
  lemma DrawdownPctBounds(drawdown: int, peak: int)
    requires drawdown >= 0
    ensures DrawdownPct(drawdown, peak) >= 0.0
    ensures drawdown <= peak ==> DrawdownPct(drawdown, peak) <= 100.0
  {
    if peak > 0 {
      var q := drawdown as real / peak as real;
      RatioBounds(q, drawdown as real, peak as real);
      assert DrawdownPct(drawdown, peak) == q * 100.0;
    }
  }

  /** At every point of the curve the drawdown is at least 0, and at most 100 percent while the equity is not negative. */
  lemma DrawdownBounds(curve: seq<EquityPoint>, i: nat)
    requires i < |curve|
    ensures PeakUpTo(curve, i) - curve[i].equity >= 0
    ensures DrawdownPct(PeakUpTo(curve, i) - curve[i].equity, PeakUpTo(curve, i)) >= 0.0
    ensures curve[i].equity >= 0 ==>
              DrawdownPct(PeakUpTo(curve, i) - curve[i].equity, PeakUpTo(curve, i)) <= 100.0
  {
    DrawdownPctBounds(PeakUpTo(curve, i) - curve[i].equity, PeakUpTo(curve, i));
  }

  /**
   * `calculate_drawdown`: copies each point's date and equity, and adds the
   * drawdown from the running peak, which starts at the first equity.
   */
  method CalculateDrawdown(curve: seq<EquityPoint>) returns (result: seq<DrawdownPoint>)
    ensures |result| == |curve|
    ensures forall i :: 0 <= i < |curve| ==>
              result[i] == DrawdownPoint(curve[i].date, curve[i].equity,
                                         PeakUpTo(curve, i) - curve[i].equity,
                                         DrawdownPct(PeakUpTo(curve, i) - curve[i].equity, PeakUpTo(curve, i)))
    ensures forall i :: 0 <= i < |result| ==> result[i].drawdown >= 0
  {
    if curve == [] {
      return [];
    }
    result := [];
    var maxEquity := curve[0].equity;
    for i := 0 to |curve|
      invariant |result| == i
      invariant i == 0 ==> maxEquity == curve[0].equity
      invariant i > 0 ==> maxEquity == PeakUpTo(curve, i - 1)
      invariant forall k {:trigger result[k]} :: 0 <= k < i ==>
                  result[k] == DrawdownPoint(curve[k].date, curve[k].equity,
                                             PeakUpTo(curve, k) - curve[k].equity,
                                             DrawdownPct(PeakUpTo(curve, k) - curve[k].equity, PeakUpTo(curve, k)))
    {
      var point := curve[i];
      maxEquity := Max(maxEquity, point.equity);
      assert maxEquity == PeakUpTo(curve, i);
      var drawdown := maxEquity - point.equity;
      var drawdownPct := DrawdownPct(drawdown, maxEquity);
      var next := DrawdownPoint(point.date, point.equity, drawdown, drawdownPct);
      assert next == DrawdownPoint(curve[i].date, curve[i].equity,
                                   PeakUpTo(curve, i) - curve[i].equity,
                                   DrawdownPct(PeakUpTo(curve, i) - curve[i].equity, PeakUpTo(curve, i)));
      result := result + [next];
    }
  }

  // ------------------------------------------------------------- trading day

  /** Trading day `d` covers the date-times from 06:00 of day `d` up to 06:00 of day `d + 1`. */
  function TradingDayStart(d: int): int
  {
    d * SecondsPerDay + DayStartSecond
  }

  /** `get_trading_day`: a time before 06:00 belongs to the previous calendar date. */
  function GetTradingDay(dt: DateTime): (d: int)
    ensures TradingDayStart(d) <= dt.Stamp() < TradingDayStart(d + 1)
  {
    if dt.second < DayStartSecond then dt.day - 1 else dt.day
  }

  /** The trading day is the only day whose window holds the date-time. */
  lemma TradingDayUnique(dt: DateTime, d: int)
    requires TradingDayStart(d) <= dt.Stamp() < TradingDayStart(d + 1)
    ensures d == GetTradingDay(dt)
  {
  }

  /**
   * `is_same_trading_day(dt1, dt2)`: the same calendar date, or `dt1` in the
   * evening (18:00 or later) and `dt2` before 06:00 on the next date.
   */
  predicate IsSameTradingDay(dt1: DateTime, dt2: DateTime)
  {
    || dt1.day == dt2.day
    || (dt1.second >= EveningSecond && dt2.day == dt1.day + 1 && dt2.second < DayStartSecond)
  }

  /** Across midnight the rule pairs an evening with the next early morning of one trading day. */
  lemma SameTradingDayOvernight(dt1: DateTime, dt2: DateTime)
    requires IsSameTradingDay(dt1, dt2) && dt1.day != dt2.day
    ensures GetTradingDay(dt1) == GetTradingDay(dt2) == dt1.day
    ensures 0 < dt2.Stamp() - dt1.Stamp() <= 12 * SecondsPerHour
  {
  }

  /** The rule is not symmetric: an evening is paired with the next morning only in that order. */
  lemma SameTradingDayNotSymmetric()
    ensures exists dt1: DateTime, dt2: DateTime ::
              IsSameTradingDay(dt1, dt2) && !IsSameTradingDay(dt2, dt1)
  {
    var evening := DateTime(0, 20 * SecondsPerHour);
    var morning := DateTime(1, 2 * SecondsPerHour);
    assert IsSameTradingDay(evening, morning) && !IsSameTradingDay(morning, evening);
  }

  // ---------------------------------------------------------------- division

  /** `safe_division`: `default` for a zero denominator, otherwise the quotient. */
  function SafeDivision(numerator: real, denominator: real, default: real := 0.0): (r: real)
    ensures denominator == 0.0 ==> r == default
    ensures denominator != 0.0 ==> r * denominator == numerator
  {
    if denominator != 0.0 then numerator / denominator else default
  }

  // ------------------------------------------------------------ memory units

  /** The unit names `memory_usage` chooses from. */
  const Units: seq<string> := ["bytes", "KB", "MB", "GB", "TB"]

  function Pow1024(n: nat): (r: real)
    ensures r >= 1.0
  {
    if n == 0 then 1.0 else 1024.0 * Pow1024(n - 1)
  }

  /**
   * The loop of `memory_usage`: divide by 1024 while the value is at least
   * 1024 and a larger unit remains. The value times the unit's size is the
   * byte count, and the value is below 1024 unless the unit is TB.
   */
  method ScaleToUnit(usageBytes: nat) returns (value: real, unitIndex: nat)
    ensures unitIndex < |Units|
    ensures value * Pow1024(unitIndex) == usageBytes as real
    ensures unitIndex < |Units| - 1 ==> value < 1024.0
    ensures unitIndex > 0 ==> value >= 1.0
  {
    value := usageBytes as real;
    unitIndex := 0;
    while value >= 1024.0 && unitIndex < |Units| - 1
      invariant unitIndex < |Units|
      invariant value * Pow1024(unitIndex) == usageBytes as real
      invariant unitIndex > 0 ==> value >= 1.0
      decreases |Units| - unitIndex
    {
      var p := Pow1024(unitIndex);
      assert (value / 1024.0) * (1024.0 * p) == value * p;
      value := value / 1024.0;
      unitIndex := unitIndex + 1;
    }
  }
}
