/**
 * The progress percentages the processor and the optimizer emit after each
 * of `n` units of work: `int(100 * k / n)` after the k-th.
 */
module Progress {
  import opened Common

  /** The percentage reported after `k` of `n` units. */
  function PercentDone(k: nat, n: nat): int
    requires 0 < n
  {
    (100 * k) / n
  }

  /** The percentages reported after units 1..k of `n`, in order. */
  function ProgressSeries(k: nat, n: nat): (p: seq<int>)
    requires k <= n
    ensures |p| == k
  {
    if k == 0 then [] else ProgressSeries(k - 1, n) + [PercentDone(k, n)]
  }

  lemma DivMonotone(a: int, b: int, n: int)
    requires n > 0 && a <= b
    ensures a / n <= b / n
  {
    if a / n > b / n {
      var d := a / n - b / n;
      MulAtLeast(n, d);
    }
  }

  /** The percentage never falls as work completes, stays within [0, 100], and is 100 when all is done. */
  lemma PercentDoneBounds(j: nat, k: nat, n: nat)
    requires 0 < n && j <= k <= n
    ensures 0 <= PercentDone(j, n) <= PercentDone(k, n) <= 100
    ensures PercentDone(n, n) == 100
  {
    DivMonotone(100 * j, 100 * k, n);
    DivMonotone(100 * k, 100 * n, n);
    DivModUnique(100 * n, n, 100, 0);
  }

  lemma {:induction false} ProgressSeriesAt(k: nat, n: nat, i: nat)
    requires k <= n && i < k
    ensures ProgressSeries(k, n)[i] == PercentDone(i + 1, n)
  {
    if i < k - 1 {
      ProgressSeriesAt(k - 1, n, i);
    }
  }

  /**
   * The reported series is non-decreasing, lies within [0, 100], and ends at
   * 100 once every unit is done.
   */
  lemma ProgressSeriesShape(n: nat)
    ensures forall i, j :: 0 <= i <= j < n ==>
              0 <= ProgressSeries(n, n)[i] <= ProgressSeries(n, n)[j] <= 100
    ensures n > 0 ==> ProgressSeries(n, n)[n - 1] == 100
  {
    forall i, j | 0 <= i <= j < n
      ensures 0 <= ProgressSeries(n, n)[i] <= ProgressSeries(n, n)[j] <= 100
    {
      ProgressSeriesAt(n, n, i);
      ProgressSeriesAt(n, n, j);
      PercentDoneBounds(i + 1, j + 1, n);
    }
    if n > 0 {
      ProgressSeriesAt(n, n, n - 1);
      PercentDoneBounds(n, n, n);
    }
  }
}
