/**
 * The parameter sweep of `optimizer.py`: the grid of cap values numpy's
 * `arange` produces, every (profit cap, loss cap) combination in
 * profit-major order, one `apply_daily_limits` per combination, and the
 * collected summaries sorted by total profit, highest first. The signals
 * the optimizer and its processor emit are recorded as logs.
 */
module Optimization {
  import opened Common
  import opened Seqs
  import opened Simulation
  import opened Progress
  import Processing

  type Row = Simulation.Row

  /** `(start, end, step)` of one cap's sweep, in cents. */
  datatype RangeSpec = RangeSpec(start: int, end: int, step: int)

  /** A status message of the optimizer; `Relayed` carries one the processor emitted. */
  datatype OptStatus =
    | NothingToOptimize
    | Started(combinations: nat)
    | Computing(profitLimit: int, lossLimit: int)
    | Finished(results: nat)
    | Relayed(status: Processing.Status)

  // ---------------------------------------------------------------------
  // The grid
  // ---------------------------------------------------------------------

  /**
   * How many values `arange(start, stop, step)` yields: the least count at
   * which the next value would reach `stop` (from below for a positive step,
   * from above for a negative one).
   */
  function ArangeCount(start: int, stop: int, step: int): (n: nat)
    requires step != 0
    ensures step > 0 ==> start + n * step >= stop && (n > 0 ==> start + (n - 1) * step < stop)
    ensures step < 0 ==> start + n * step <= stop && (n > 0 ==> start + (n - 1) * step > stop)
  {
    if step > 0 then
      var q := (start - stop) / step;
      assert start - stop == step * q + (start - stop) % step;
      if q >= 0 then 0 else -q
    else
      var q := (stop - start) / -step;
      assert stop - start == -step * q + (stop - start) % -step;
      if q >= 0 then 0 else -q
  }

  /** `numpy.arange(start, stop, step)` on whole cents. */
  function Arange(start: int, stop: int, step: int): (r: seq<int>)
    requires step != 0
    ensures |r| == ArangeCount(start, stop, step)
    ensures forall i :: 0 <= i < |r| ==> r[i] == start + i * step
  {
    seq(ArangeCount(start, stop, step), i => start + i * step)
  }

  /** The values one cap is swept over: `arange(start, end + step, step)`. */
  function Grid(spec: RangeSpec): seq<int>
    requires spec.step != 0
  {
    Arange(spec.start, spec.end + spec.step, spec.step)
  }

  /**
   * With a positive step the grid rises by `step` from `start`; it is empty
   * exactly when `start` is not below `end + step`, and otherwise its last
   * value lies in [end, end + step): the sweep can overshoot `end`.
   */
  lemma GridShape(spec: RangeSpec)
    requires spec.step > 0
    ensures var g := Grid(spec);
            && (forall i, j :: 0 <= i < j < |g| ==> g[i] < g[j])
            && (g == [] <==> spec.start >= spec.end + spec.step)
            && (g != [] ==> g[0] == spec.start && spec.end <= g[|g| - 1] < spec.end + spec.step)
  {
    var g := Grid(spec);
    forall i, j | 0 <= i < j < |g| ensures g[i] < g[j] {
      assert g[j] - g[i] == (j - i) * spec.step;
      MulAtLeast(spec.step, j - i);
    }
  }

  /** For `start <= end` and a positive step, the grid ends exactly at `end` iff `step` divides `end - start`. */
  lemma GridHitsEnd(spec: RangeSpec)
    requires spec.step > 0 && spec.start <= spec.end
    ensures var g := Grid(spec);
            g != [] && (g[|g| - 1] == spec.end <==> (spec.end - spec.start) % spec.step == 0)
  {
    GridShape(spec);
    var g := Grid(spec);
    var n := |g|;
    var s := spec.step;
    assert g[n - 1] == spec.start + (n - 1) * s;
    if g[n - 1] == spec.end {
      DivModUnique(spec.end - spec.start, s, n - 1, 0);
    }
    if (spec.end - spec.start) % s == 0 {
      var m := (spec.end - spec.start) / s;
      assert spec.end - spec.start == s * m;
      var d := (n - 1) - m;
      assert g[n - 1] - spec.end == d * s;
      if d > 0 {
        MulAtLeast(s, d);
      } else if d < 0 {
        MulAtLeast(s, -d);
      }
    }
  }

  /** `[(p, l) for p in ps for l in ls]`. */
  function Product(ps: seq<int>, ls: seq<int>): (r: seq<(int, int)>)
    ensures |r| == |ps| * |ls|
  {
    if ps == [] then []
    else
      var p := ps[|ps| - 1];
      Product(ps[..|ps| - 1], ls) + seq(|ls|, j requires 0 <= j < |ls| => (p, ls[j]))
  }

  /** The combinations run profit-major: entry `i * |ls| + j` pairs `ps[i]` with `ls[j]`. */
  lemma {:induction false} ProductAt(ps: seq<int>, ls: seq<int>, i: nat, j: nat)
    requires i < |ps| && j < |ls|
    ensures i * |ls| + j < |ps| * |ls|
    ensures Product(ps, ls)[i * |ls| + j] == (ps[i], ls[j])
    decreases |ps|
  {
    var front := ps[..|ps| - 1];
    var m, n := |ps| - 1, |ls|;
    RowMajorBound(i, j, m + 1, n);
    if i < m {
      RowMajorBound(i, j, m, n);
      ProductAt(front, ls, i, j);
    }
  }

  /** Row `i`, column `j` of an `rows` by `cols` table lies before its end. */
  lemma RowMajorBound(i: nat, j: nat, rows: nat, cols: nat)
    requires i < rows && j < cols
    ensures i * cols + j < rows * cols
  {
    MulAtLeast(cols, rows - i);
    assert (rows - i) * cols == rows * cols - i * cols;
  }

  /** A pair is a combination exactly when its profit cap is in `ps` and its loss cap in `ls`. */
  lemma {:induction false} ProductMembers(ps: seq<int>, ls: seq<int>, p: int, l: int)
    ensures (p, l) in Product(ps, ls) <==> p in ps && l in ls
    decreases |ps|
  {
    if ps != [] {
      var front := ps[..|ps| - 1];
      var last := ps[|ps| - 1];
      var row := seq(|ls|, j requires 0 <= j < |ls| => (last, ls[j]));
      ProductMembers(front, ls, p, l);
      assert ps == front + [last];
      if l in ls && p == last {
        var j :| 0 <= j < |ls| && ls[j] == l;
        assert row[j] == (p, l);
      }
    }
  }

  // ---------------------------------------------------------------------
  // Progress relayed from the processor
  // ---------------------------------------------------------------------

  /** What `_update_processor_progress` does with a percentage. */
  datatype ProgressOutcome = DivisionByZero | Emit(percent: int)

  /**
   * `_update_processor_progress` as written: the processor's percentage of
   * the current combination, scaled into the whole sweep by dividing by the
   * number of combinations, which is still 0 before the first sweep.
   */
  function ProcessorProgressAsWritten(processed: nat, percent: nat, total: nat): (o: ProgressOutcome)
    ensures o == DivisionByZero <==> total == 0
  {
    if total == 0 then DivisionByZero else Emit((100 * processed + percent) / total)
  }

  /**
   * A table loaded before any sweep reaches the handler with no combinations
   * counted: each of the processor's percentages divides by zero.
   */
  lemma SetTradesBeforeSweepDividesByZero(rows: seq<Row>)
    requires rows != []
    ensures Processing.PrepareProgress(rows) != []
    ensures forall p :: p in Processing.PrepareProgress(rows) ==>
              p >= 0 && ProcessorProgressAsWritten(0, p, 0) == DivisionByZero
  {
    Processing.PrepareEmits(rows);
    var n := |Processing.UniqueDates(rows)|;
    ProgressSeriesShape(n);
    forall p | p in Processing.PrepareProgress(rows) ensures p >= 0 {
      var i :| 0 <= i < n && Processing.PrepareProgress(rows)[i] == p;
    }
  }

  /**
   * A table loaded after a finished sweep is reported past 100%: with every
   * combination processed, a percentage of at least `total` lands above 100,
   * e.g. 200 after a sweep of one combination.
   */
  lemma SetTradesAfterSweepOverflows(total: nat, percent: nat)
    requires total > 0 && total <= percent
    ensures ProcessorProgressAsWritten(total, percent, total).percent > 100
    ensures ProcessorProgressAsWritten(1, 100, 1) == Emit(200)
  {
    DivMonotone(101 * total, 100 * total + percent, total);
    DivModUnique(101 * total, total, 101, 0);
  }

  /**
   * The handler as intended: within a sweep, the processor's percentage of
   * the current combination moved into that combination's share of the
   * sweep; outside a sweep, the processor's percentage itself.
   */
  function ProcessorProgress(processed: nat, percent: int, total: nat): int
  {
    if processed < total then (100 * processed + percent) / total else percent
  }

  /**
   * The intended handler agrees with the written one during a sweep, stays
   * within [0, 100], and places a combination's progress between the sweep
   * percentage before it and the one after it.
   */
  lemma ProcessorProgressBounds(processed: nat, percent: int, total: nat)
    requires 0 <= percent <= 100
    ensures processed < total ==>
              ProcessorProgressAsWritten(processed, percent, total) == Emit(ProcessorProgress(processed, percent, total))
    ensures 0 <= ProcessorProgress(processed, percent, total) <= 100
    ensures processed < total ==>
              PercentDone(processed, total) <= ProcessorProgress(processed, percent, total)
              <= PercentDone(processed + 1, total)
  {
    if processed < total {
      DivMonotone(100 * processed, 100 * processed + percent, total);
      DivMonotone(100 * processed + percent, 100 * (processed + 1), total);
      PercentDoneBounds(processed + 1, processed + 1, total);
      PercentDoneBounds(processed + 1, total, total);
    }
  }

  /** A larger processor percentage is never relayed as a smaller one. */
  lemma ProcessorProgressMonotone(processed: nat, a: int, b: int, total: nat)
    requires a <= b
    ensures ProcessorProgress(processed, a, total) <= ProcessorProgress(processed, b, total)
  {
    if processed < total {
      DivMonotone(100 * processed + a, 100 * processed + b, total);
    }
  }

  /** The processor's percentages as the optimizer relays them. */
  function Forward(ps: seq<int>, processed: nat, total: nat): (r: seq<int>)
    ensures |r| == |ps|
    ensures forall i :: 0 <= i < |ps| ==> r[i] == ProcessorProgress(processed, ps[i], total)
  {
    if ps == [] then []
    else Forward(ps[..|ps| - 1], processed, total) + [ProcessorProgress(processed, ps[|ps| - 1], total)]
  }

  /** The processor's status messages as the optimizer relays them. */
  function Relay(ss: seq<Processing.Status>): (r: seq<OptStatus>)
    ensures |r| == |ss|
    ensures forall i :: 0 <= i < |ss| ==> r[i] == Relayed(ss[i])
  {
    if ss == [] then []
    else Relay(ss[..|ss| - 1]) + [Relayed(ss[|ss| - 1])]
  }

  // ---------------------------------------------------------------------
  // The sweep
  // ---------------------------------------------------------------------

  /** `if result: results.append(result)`. */
  function Kept(result: Option<SimResult>): seq<SimResult>
  {
    if result.Some? then [result.value] else []
  }

  /** The summaries the sweep keeps: every combination's result that is not `None`, in order. */
  ghost function Collected(combos: seq<(int, int)>, trades: Option<seq<Row>>,
                           dailyTrades: Option<map<int, seq<Row>>>): (r: seq<SimResult>)
    ensures |r| <= |combos|
  {
    if combos == [] then []
    else
      var c := combos[|combos| - 1];
      Collected(combos[..|combos| - 1], trades, dailyTrades)
        + Kept(Processing.Outcome(trades, dailyTrades, c.0, c.1))
  }

  /** The optimizer's progress over the first `|combos|` of `total` combinations. */
  ghost function SweepProgress(combos: seq<(int, int)>, dailyTrades: Option<map<int, seq<Row>>>,
                               total: nat): seq<int>
    requires |combos| <= total
  {
    if combos == [] then []
    else
      var k := |combos| - 1;
      var c := combos[k];
      SweepProgress(combos[..k], dailyTrades, total)
        + Forward(Processing.ApplyProgress(dailyTrades, c.0, c.1), k, total)
        + [PercentDone(k + 1, total)]
  }

  /** The optimizer's status messages while it works through `combos`. */
  ghost function SweepStatus(combos: seq<(int, int)>, dailyTrades: Option<map<int, seq<Row>>>): seq<OptStatus>
  {
    if combos == [] then []
    else
      var c := combos[|combos| - 1];
      SweepStatus(combos[..|combos| - 1], dailyTrades)
        + [Computing(c.0, c.1)] + Relay(Processing.ApplyStatus(dailyTrades, c.0, c.1))
  }

  /** What the processor's own progress signal emits over the sweep. */
  ghost function ProcessorSweepProgress(combos: seq<(int, int)>, dailyTrades: Option<map<int, seq<Row>>>): seq<int>
  {
    if combos == [] then []
    else
      var c := combos[|combos| - 1];
      ProcessorSweepProgress(combos[..|combos| - 1], dailyTrades)
        + Processing.ApplyProgress(dailyTrades, c.0, c.1)
  }

  /** What the processor's own status signal emits over the sweep. */
  ghost function ProcessorSweepStatus(combos: seq<(int, int)>, dailyTrades: Option<map<int, seq<Row>>>)
    : seq<Processing.Status>
  {
    if combos == [] then []
    else
      var c := combos[|combos| - 1];
      ProcessorSweepStatus(combos[..|combos| - 1], dailyTrades)
        + Processing.ApplyStatus(dailyTrades, c.0, c.1)
  }

  lemma CollectedSnoc(combos: seq<(int, int)>, k: nat, trades: Option<seq<Row>>,
                      dailyTrades: Option<map<int, seq<Row>>>)
    requires k < |combos|
    ensures Collected(combos[..k + 1], trades, dailyTrades)
            == Collected(combos[..k], trades, dailyTrades)
               + Kept(Processing.Outcome(trades, dailyTrades, combos[k].0, combos[k].1))
  {
    TakeSnoc(combos, k);
    assert combos[..k + 1][..k] == combos[..k];
  }

  lemma SweepProgressSnoc(combos: seq<(int, int)>, k: nat, dailyTrades: Option<map<int, seq<Row>>>)
    requires k < |combos|
    ensures SweepProgress(combos[..k + 1], dailyTrades, |combos|)
            == SweepProgress(combos[..k], dailyTrades, |combos|)
               + (Forward(Processing.ApplyProgress(dailyTrades, combos[k].0, combos[k].1), k, |combos|)
                  + [PercentDone(k + 1, |combos|)])
  {
    TakeSnoc(combos, k);
    assert combos[..k + 1][..k] == combos[..k];
  }

  lemma SweepStatusSnoc(combos: seq<(int, int)>, k: nat, dailyTrades: Option<map<int, seq<Row>>>)
    requires k < |combos|
    ensures SweepStatus(combos[..k + 1], dailyTrades)
            == SweepStatus(combos[..k], dailyTrades)
               + ([Computing(combos[k].0, combos[k].1)]
                  + Relay(Processing.ApplyStatus(dailyTrades, combos[k].0, combos[k].1)))
  {
    TakeSnoc(combos, k);
    assert combos[..k + 1][..k] == combos[..k];
  }

  lemma ProcessorSweepSnoc(combos: seq<(int, int)>, k: nat, dailyTrades: Option<map<int, seq<Row>>>)
    requires k < |combos|
    ensures ProcessorSweepProgress(combos[..k + 1], dailyTrades)
            == ProcessorSweepProgress(combos[..k], dailyTrades)
               + Processing.ApplyProgress(dailyTrades, combos[k].0, combos[k].1)
    ensures ProcessorSweepStatus(combos[..k + 1], dailyTrades)
            == ProcessorSweepStatus(combos[..k], dailyTrades)
               + Processing.ApplyStatus(dailyTrades, combos[k].0, combos[k].1)
  {
    TakeSnoc(combos, k);
    assert combos[..k + 1][..k] == combos[..k];
  }

  /**
   * One pass of the loop of `run_optimization`: a status message, one
   * `apply_daily_limits` whose progress and status are relayed as they are
   * emitted, the result kept when there is one, and the sweep percentage.
   */
  method RunCombination(processor: Processing.DataProcessor, processed: nat, total: nat,
                        profitLimit: int, lossLimit: int)
    returns (kept: seq<SimResult>, progress: seq<int>, statuses: seq<OptStatus>)
    requires processor.Valid() && processed < total
    modifies processor
    ensures processor.Valid()
    ensures processor.trades == old(processor.trades) && processor.dailyTrades == old(processor.dailyTrades)
    ensures processor.groupedRows == old(processor.groupedRows)
    ensures processor.progressLog
            == old(processor.progressLog) + Processing.ApplyProgress(processor.dailyTrades, profitLimit, lossLimit)
    ensures processor.statusLog
            == old(processor.statusLog) + Processing.ApplyStatus(processor.dailyTrades, profitLimit, lossLimit)
    ensures kept == Kept(Processing.Outcome(processor.trades, processor.dailyTrades, profitLimit, lossLimit))
    ensures progress == Forward(Processing.ApplyProgress(processor.dailyTrades, profitLimit, lossLimit), processed, total)
                        + [PercentDone(processed + 1, total)]
    ensures statuses == [Computing(profitLimit, lossLimit)]
                        + Relay(Processing.ApplyStatus(processor.dailyTrades, profitLimit, lossLimit))
  {
    statuses := [Computing(profitLimit, lossLimit)];
    var progressBefore, statusBefore := processor.progressLog, processor.statusLog;
    var result := processor.ApplyDailyLimits(profitLimit, lossLimit);
    var relayedProgress := processor.progressLog[|progressBefore|..];
    var relayedStatus := processor.statusLog[|statusBefore|..];
    assert relayedProgress == Processing.ApplyProgress(processor.dailyTrades, profitLimit, lossLimit);
    assert relayedStatus == Processing.ApplyStatus(processor.dailyTrades, profitLimit, lossLimit);
    progress := Forward(relayedProgress, processed, total);
    statuses := statuses + Relay(relayedStatus);
    kept := if result.Some? then [result.value] else [];
    progress := progress + [PercentDone(processed + 1, total)];
  }

  /** The loop of `run_optimization` over `combos`, counting processed combinations. */
  method Sweep(processor: Processing.DataProcessor, combos: seq<(int, int)>)
    returns (results: seq<SimResult>, progress: seq<int>, statuses: seq<OptStatus>)
    requires processor.Valid()
    modifies processor
    ensures processor.Valid()
    ensures processor.trades == old(processor.trades) && processor.dailyTrades == old(processor.dailyTrades)
    ensures processor.groupedRows == old(processor.groupedRows)
    ensures results == Collected(combos, processor.trades, processor.dailyTrades)
    ensures progress == SweepProgress(combos, processor.dailyTrades, |combos|)
    ensures statuses == SweepStatus(combos, processor.dailyTrades)
    ensures processor.progressLog == old(processor.progressLog) + ProcessorSweepProgress(combos, processor.dailyTrades)
    ensures processor.statusLog == old(processor.statusLog) + ProcessorSweepStatus(combos, processor.dailyTrades)
  {
    ghost var trades, dailyTrades := processor.trades, processor.dailyTrades;
    ghost var progress0, status0 := processor.progressLog, processor.statusLog;
    results, progress, statuses := [], [], [];
    // The count of processed combinations lives in this local; the source
    // bumps the optimizer's field inside the loop, and `RunOptimization`
    // writes it once the sweep ends. The progress values emitted are the same.
    var processed := 0;
    while processed < |combos|
      invariant 0 <= processed <= |combos|
      invariant processor.Valid()
      invariant processor.trades == trades && processor.dailyTrades == dailyTrades
      invariant processor.groupedRows == old(processor.groupedRows)
      invariant results == Collected(combos[..processed], trades, dailyTrades)
      invariant progress == SweepProgress(combos[..processed], dailyTrades, |combos|)
      invariant statuses == SweepStatus(combos[..processed], dailyTrades)
      invariant processor.progressLog == progress0 + ProcessorSweepProgress(combos[..processed], dailyTrades)
      invariant processor.statusLog == status0 + ProcessorSweepStatus(combos[..processed], dailyTrades)
    {
      var profitLimit, lossLimit := combos[processed].0, combos[processed].1;
      ghost var progressBefore, statusBefore := processor.progressLog, processor.statusLog;
      var kept, stepProgress, stepStatuses := RunCombination(processor, processed, |combos|, profitLimit, lossLimit);
      CollectedSnoc(combos, processed, trades, dailyTrades);
      SweepProgressSnoc(combos, processed, dailyTrades);
      SweepStatusSnoc(combos, processed, dailyTrades);
      ProcessorSweepSnoc(combos, processed, dailyTrades);
      AppendAssoc(progress0, ProcessorSweepProgress(combos[..processed], dailyTrades),
                  Processing.ApplyProgress(dailyTrades, profitLimit, lossLimit));
      AppendAssoc(status0, ProcessorSweepStatus(combos[..processed], dailyTrades),
                  Processing.ApplyStatus(dailyTrades, profitLimit, lossLimit));
      results := results + kept;
      progress := progress + stepProgress;
      statuses := statuses + stepStatuses;
      processed := processed + 1;
    }
    assert combos[..processed] == combos;
  }

  /** Every grid value of a sweep that starts above zero with a positive step is a valid cap. */
  lemma GridPositive(spec: RangeSpec)
    requires spec.start > 0 && spec.step > 0
    ensures forall i :: 0 <= i < |Grid(spec)| ==> Grid(spec)[i] > 0
  {
    forall i | 0 <= i < |Grid(spec)| ensures Grid(spec)[i] > 0 {
      if i > 0 {
        MulAtLeast(spec.step, i);
      }
    }
  }

  /**
   * With day groups in place and every cap positive, each combination yields
   * a summary, carrying that combination's caps, in sweep order.
   */
  lemma {:induction false} CollectedAll(combos: seq<(int, int)>, trades: Option<seq<Row>>,
                                         dailyTrades: Option<map<int, seq<Row>>>)
    requires dailyTrades.Some?
    requires forall i :: 0 <= i < |combos| ==> combos[i].0 > 0 && combos[i].1 > 0
    ensures CarriesCaps(Collected(combos, trades, dailyTrades), combos)
  {
    if combos != [] {
      CollectedAll(combos[..|combos| - 1], trades, dailyTrades);
      CollectedAllStep(combos, trades, dailyTrades);
    }
  }

  lemma CollectedAllStep(combos: seq<(int, int)>, trades: Option<seq<Row>>,
                         dailyTrades: Option<map<int, seq<Row>>>)
    requires combos != [] && dailyTrades.Some?
    requires combos[|combos| - 1].0 > 0 && combos[|combos| - 1].1 > 0
    requires CarriesCaps(Collected(combos[..|combos| - 1], trades, dailyTrades), combos[..|combos| - 1])
    ensures CarriesCaps(Collected(combos, trades, dailyTrades), combos)
  {
    var front := combos[..|combos| - 1];
    var c := combos[|combos| - 1];
    var pre := Collected(front, trades, dailyTrades);
    var outcome := Processing.Outcome(trades, dailyTrades, c.0, c.1);
    assert Collected(combos, trades, dailyTrades) == pre + [outcome.value];
    CarriesCapsSnoc(pre, front, outcome.value, c);
    SplitLast(combos);
  }

  /** `results` are one summary per combination of `combos`, each carrying that combination's caps. */
  ghost predicate CarriesCaps(results: seq<SimResult>, combos: seq<(int, int)>)
  {
    && |results| == |combos|
    && forall i :: 0 <= i < |combos| ==>
         results[i].dailyProfitLimit == combos[i].0 && results[i].dailyLossLimit == combos[i].1
  }

  lemma CarriesCapsSnoc(results: seq<SimResult>, combos: seq<(int, int)>, r: SimResult, c: (int, int))
    requires CarriesCaps(results, combos)
    requires r.dailyProfitLimit == c.0 && r.dailyLossLimit == c.1
    ensures CarriesCaps(results + [r], combos + [c])
  {
  }

  /** Without day groups every combination is refused, so nothing is collected. */
  lemma {:induction false} CollectedNone(combos: seq<(int, int)>, trades: Option<seq<Row>>)
    ensures Collected(combos, trades, None) == []
    ensures ProcessorSweepStatus(combos, None) == seq(|combos|, _ => Processing.NoTradeData)
  {
    if combos != [] {
      CollectedNone(combos[..|combos| - 1], trades);
    }
  }

  /** `s` never decreases. */
  ghost predicate Rising(s: seq<int>)
  {
    forall i, j :: 0 <= i <= j < |s| ==> s[i] <= s[j]
  }

  /**
   * A rising series bounded by `lo`, followed by a rising series within
   * [lo, hi] and then `hi`, is rising, bounded by `hi`, and ends at `hi`.
   */
  lemma RisingStep(pre: seq<int>, f: seq<int>, lo: int, hi: int)
    requires Rising(pre) && Rising(f) && 0 <= lo <= hi
    requires forall i :: 0 <= i < |pre| ==> 0 <= pre[i] <= lo
    requires forall i :: 0 <= i < |f| ==> lo <= f[i] <= hi
    ensures var s := pre + f + [hi];
            && Rising(s)
            && (forall i :: 0 <= i < |s| ==> 0 <= s[i] <= hi)
            && s[|s| - 1] == hi
  {
    var s := pre + f + [hi];
    forall i, j | 0 <= i <= j < |s| ensures s[i] <= s[j] {
      if j == |s| - 1 {
      } else if i < |pre| && j >= |pre| {
        assert s[i] == pre[i] && s[j] == f[j - |pre|];
      }
    }
  }

  /** One `apply_daily_limits` reports a non-decreasing series within [0, 100]. */
  lemma ApplyProgressShape(dailyTrades: Option<map<int, seq<Row>>>, profitLimit: int, lossLimit: int)
    ensures var ps := Processing.ApplyProgress(dailyTrades, profitLimit, lossLimit);
            Rising(ps) && forall i :: 0 <= i < |ps| ==> 0 <= ps[i] <= 100
  {
    if dailyTrades.Some? && profitLimit > 0 && lossLimit > 0 {
      ProgressSeriesShape(|dailyTrades.value.Keys|);
    }
  }

  /** Relayed during combination `k`, such a series stays rising and within that combination's share. */
  lemma ForwardShape(ps: seq<int>, k: nat, total: nat)
    requires k < total
    requires Rising(ps) && forall i :: 0 <= i < |ps| ==> 0 <= ps[i] <= 100
    ensures var f := Forward(ps, k, total);
            && Rising(f)
            && forall i :: 0 <= i < |f| ==> PercentDone(k, total) <= f[i] <= PercentDone(k + 1, total)
  {
    var f := Forward(ps, k, total);
    forall i | 0 <= i < |f| ensures PercentDone(k, total) <= f[i] <= PercentDone(k + 1, total) {
      ProcessorProgressBounds(k, ps[i], total);
    }
    forall i, j | 0 <= i <= j < |f| ensures f[i] <= f[j] {
      ProcessorProgressMonotone(k, ps[i], ps[j], total);
    }
  }

  /**
   * The optimizer's progress over the first `|combos|` combinations never
   * decreases, never exceeds the percentage of combinations done, and ends
   * at that percentage.
   */
  lemma {:induction false} SweepProgressUpTo(combos: seq<(int, int)>, dailyTrades: Option<map<int, seq<Row>>>,
                                              total: nat)
    requires 0 < total && |combos| <= total
    ensures var s := SweepProgress(combos, dailyTrades, total);
            && Rising(s)
            && (forall i :: 0 <= i < |s| ==> 0 <= s[i] <= PercentDone(|combos|, total))
            && (combos != [] ==> s != [] && s[|s| - 1] == PercentDone(|combos|, total))
  {
    if combos != [] {
      var k := |combos| - 1;
      var c := combos[k];
      var pre := SweepProgress(combos[..k], dailyTrades, total);
      var ps := Processing.ApplyProgress(dailyTrades, c.0, c.1);
      var f := Forward(ps, k, total);
      SweepProgressUpTo(combos[..k], dailyTrades, total);
      ApplyProgressShape(dailyTrades, c.0, c.1);
      ForwardShape(ps, k, total);
      PercentDoneBounds(k, k + 1, total);
      RisingStep(pre, f, PercentDone(k, total), PercentDone(k + 1, total));
    }
  }

  /** A whole sweep's progress never decreases, stays within [0, 100], and ends at 100. */
  lemma SweepProgressShape(combos: seq<(int, int)>, dailyTrades: Option<map<int, seq<Row>>>)
    requires combos != []
    ensures var s := SweepProgress(combos, dailyTrades, |combos|);
            && Rising(s)
            && (forall i :: 0 <= i < |s| ==> 0 <= s[i] <= 100)
            && s[|s| - 1] == 100
  {
    SweepProgressUpTo(combos, dailyTrades, |combos|);
    PercentDoneBounds(|combos|, |combos|, |combos|);
  }

  /** The sort key of `results.sort(key=total_profit, reverse=True)`. */
  function NegProfit(r: SimResult): int
  {
    -r.totalProfit
  }

  // ---------------------------------------------------------------------
  // The optimizer
  // ---------------------------------------------------------------------

  class Optimizer {
    var trades: Option<seq<Row>>
    const processor: Processing.DataProcessor
    /** The summaries of the last sweep, highest total profit first. */
    var results: seq<SimResult>
    var totalCombinations: nat
    var processedCombinations: nat
    /** What `progress_signal` has emitted so far. */
    var progressLog: seq<int>
    /** What `status_signal` has emitted so far. */
    var statusLog: seq<OptStatus>

    ghost predicate Valid()
      reads this, processor
    {
      processor.Valid()
    }

    /** `Optimizer(trades)`: the processor starts empty; the trades are not handed to it. */
    constructor(initial: Option<seq<Row>>)
      ensures Valid() && fresh(processor)
      ensures trades == initial
      ensures processor.trades == None && processor.dailyTrades == None
      ensures processor.progressLog == [] && processor.statusLog == []
      ensures results == [] && totalCombinations == 0 && processedCombinations == 0
      ensures progressLog == [] && statusLog == []
    {
      trades := initial;
      processor := new Processing.DataProcessor();
      results := [];
      totalCombinations := 0;
      processedCombinations := 0;
      progressLog := [];
      statusLog := [];
    }

    /**
     * `set_trades`: keeps the table and hands it to the processor, relaying
     * the progress and status the processor emits while grouping it.
     */
    method SetTrades(rows: seq<Row>)
      requires Valid()
      modifies this, processor
      ensures Valid()
      ensures trades == Some(rows) && processor.trades == Some(rows)
      ensures rows == [] ==> processor.dailyTrades == old(processor.dailyTrades)
      ensures rows != [] ==> processor.dailyTrades.Some? && processor.groupedRows == rows
      ensures results == old(results)
      ensures totalCombinations == old(totalCombinations) && processedCombinations == old(processedCombinations)
      ensures processor.progressLog == old(processor.progressLog) + Processing.PrepareProgress(rows)
      ensures processor.statusLog == old(processor.statusLog) + Processing.PrepareStatus(rows)
      ensures progressLog == old(progressLog)
                + Forward(Processing.PrepareProgress(rows), processedCombinations, totalCombinations)
      ensures statusLog == old(statusLog) + Relay(Processing.PrepareStatus(rows))
    {
      var progressBefore, statusBefore := processor.progressLog, processor.statusLog;
      processor.SetTrades(rows);
      var relayedProgress := processor.progressLog[|progressBefore|..];
      var relayedStatus := processor.statusLog[|statusBefore|..];
      assert relayedProgress == Processing.PrepareProgress(rows);
      assert relayedStatus == Processing.PrepareStatus(rows);
      trades := Some(rows);
      progressLog, statusLog := progressLog + Forward(relayedProgress, processedCombinations, totalCombinations),
                                statusLog + Relay(relayedStatus);
    }

    /**
     * `run_optimization`: refuses without a non-empty table; otherwise runs
     * every combination of the two grids and keeps the summaries, sorted by
     * total profit, highest first, ties in sweep order.
     */
    method RunOptimization(profitLimits: RangeSpec, lossLimits: RangeSpec) returns (r: Option<seq<SimResult>>)
      requires Valid()
      requires profitLimits.step != 0 && lossLimits.step != 0
      modifies this, processor
      ensures Valid()
      ensures trades == old(trades)
      ensures processor.trades == old(processor.trades) && processor.dailyTrades == old(processor.dailyTrades)
      ensures trades.None? || trades.value == [] ==>
                && r == None
                && results == old(results)
                && totalCombinations == old(totalCombinations)
                && processedCombinations == old(processedCombinations)
                && progressLog == old(progressLog)
                && statusLog == old(statusLog) + [NothingToOptimize]
                && processor.progressLog == old(processor.progressLog)
                && processor.statusLog == old(processor.statusLog)
      ensures trades.Some? && trades.value != [] ==>
                var combos := Product(Grid(profitLimits), Grid(lossLimits));
                var collected := Collected(combos, processor.trades, processor.dailyTrades);
                && totalCombinations == |combos| == |Grid(profitLimits)| * |Grid(lossLimits)|
                && processedCombinations == |combos|
                && SortedBy(results, NegProfit)
                && multiset(results) == multiset(collected)
                && StableFor(collected, results, NegProfit)
                && r == Some(results)
                && progressLog == old(progressLog) + SweepProgress(combos, processor.dailyTrades, |combos|)
                && statusLog == old(statusLog) + [Started(|combos|)]
                     + SweepStatus(combos, processor.dailyTrades) + [Finished(|results|)]
                && processor.progressLog
                     == old(processor.progressLog) + ProcessorSweepProgress(combos, processor.dailyTrades)
                && processor.statusLog
                     == old(processor.statusLog) + ProcessorSweepStatus(combos, processor.dailyTrades)
    {
      if trades.None? || trades.value == [] {
        statusLog := statusLog + [NothingToOptimize];
        return None;
      }
      var combos := Product(Grid(profitLimits), Grid(lossLimits));
      var collected, progress, statuses := Sweep(processor, combos);
      var sorted := StableSort(collected, NegProfit);
      assert |sorted| == |multiset(sorted)| == |multiset(collected)| == |collected|;
      totalCombinations, processedCombinations := |combos|, |combos|;
      progressLog := progressLog + progress;
      statusLog := statusLog + [Started(|combos|)] + statuses + [Finished(|sorted|)];
      results := sorted;
      r := Some(results);
    }
  }
}
