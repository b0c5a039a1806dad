/**
 * What the replay of one day promises: one detail per trade carrying the
 * trade's identity and original profit, the exact clamping at a cap, the
 * frozen day after a trigger, mutually exclusive triggers, and the day total
 * as the sum of the counted profits.
 */
module DayProperties {
  import opened Common
  import opened Seqs
  import opened Simulation

  /** One detail per trade, in the trades' order, each keeping the trade's identity and original profit. */
  lemma {:induction false} ReplayShape(rows: seq<Row>, profitLimit: int, lossLimit: int)
    ensures forall i :: 0 <= i < |rows| ==>
              var d := ReplayDay(rows, profitLimit, lossLimit).details[i];
              && d.tradeNo == rows[i].tradeNo
              && d.entryTime == rows[i].entryTime
              && d.exitTime == rows[i].exitTime
              && d.originalProfitUsd == rows[i].profitUsd
    decreases |rows|
  {
    if rows != [] {
      ReplayShape(rows[..|rows| - 1], profitLimit, lossLimit);
    }
  }

  /** Replaying the first `j` trades yields the first `j` details. */
  lemma {:induction false} ReplayPrefix(rows: seq<Row>, profitLimit: int, lossLimit: int, j: nat)
    requires j <= |rows|
    ensures ReplayDay(rows[..j], profitLimit, lossLimit).details
            == ReplayDay(rows, profitLimit, lossLimit).details[..j]
    decreases |rows|
  {
    ReplayShape(rows, profitLimit, lossLimit);
    if j == |rows| {
      assert rows[..j] == rows;
    } else {
      var front := rows[..|rows| - 1];
      ReplayPrefix(front, profitLimit, lossLimit, j);
      assert front[..j] == rows[..j];
      ReplayShape(front, profitLimit, lossLimit);
    }
  }

  /** Detail `i` is the step taken from the state the first `i` trades left. */
  lemma ReplayAt(rows: seq<Row>, profitLimit: int, lossLimit: int, i: nat)
    requires i < |rows|
    ensures |ReplayDay(rows, profitLimit, lossLimit).details| == |rows|
    ensures var step := Step(ReplayDay(rows[..i], profitLimit, lossLimit).state, rows[i], profitLimit, lossLimit);
            && ReplayDay(rows, profitLimit, lossLimit).details[i] == step.detail
            && ReplayDay(rows[..i + 1], profitLimit, lossLimit).state == step.state
  {
    ReplayShape(rows, profitLimit, lossLimit);
    ReplayPrefix(rows, profitLimit, lossLimit, i + 1);
    assert rows[..i + 1][..i] == rows[..i];
  }

  /**
   * How trade `i` is counted, given the state before it: the profit cap trips
   * only for a winning trade whose favourable excursion reaches the cap, and
   * the day then stands exactly at the cap; the loss cap likewise for a losing
   * trade; any other trade before a trigger counts its full profit; a trade
   * after a trigger is not executed.
   */
  lemma TriggerAt(rows: seq<Row>, profitLimit: int, lossLimit: int, i: nat)
    requires i < |rows|
    ensures |ReplayDay(rows, profitLimit, lossLimit).details| == |rows|
    ensures var prior := ReplayDay(rows[..i], profitLimit, lossLimit).state;
            var after := ReplayDay(rows[..i + 1], profitLimit, lossLimit).state;
            var d := ReplayDay(rows, profitLimit, lossLimit).details[i];
            && (d.executed <==> !prior.Triggered())
            && (d.reason == HitProfitLimit <==>
                  !prior.Triggered() && rows[i].profitUsd > 0
                  && prior.cumulative + rows[i].maxProfitUsd >= profitLimit)
            && (d.reason == HitProfitLimit ==>
                  d.profitUsd == profitLimit - prior.cumulative
                  && after == DayState(profitLimit, true, false))
            && (d.reason == HitLossLimit <==>
                  !prior.Triggered() && rows[i].profitUsd < 0
                  && prior.cumulative - Abs(rows[i].maxLossUsd) <= -lossLimit)
            && (d.reason == HitLossLimit ==>
                  d.profitUsd == -lossLimit - prior.cumulative
                  && after == DayState(-lossLimit, false, true))
            && (d.reason == Normal ==>
                  d.executed && d.profitUsd == rows[i].profitUsd
                  && after == DayState(prior.cumulative + rows[i].profitUsd, false, false))
            && (!d.executed ==> d.profitUsd == 0 && after == prior)
  {
    ReplayAt(rows, profitLimit, lossLimit, i);
  }

  /** A trade with zero profit never trips either cap. */
  lemma ZeroProfitNeverTriggers(rows: seq<Row>, profitLimit: int, lossLimit: int, i: nat)
    requires i < |rows| && rows[i].profitUsd == 0
    ensures |ReplayDay(rows, profitLimit, lossLimit).details| == |rows|
    ensures ReplayDay(rows, profitLimit, lossLimit).details[i].reason !in {HitProfitLimit, HitLossLimit}
  {
    ReplayAt(rows, profitLimit, lossLimit, i);
  }

  /**
   * Once a cap has tripped, every later trade of the day is recorded as not
   * executed with profit 0, and the day's total no longer changes.
   */
  lemma {:induction false} AfterTrigger(rows: seq<Row>, profitLimit: int, lossLimit: int, j: nat)
    requires j <= |rows|
    requires ReplayDay(rows[..j], profitLimit, lossLimit).state.Triggered()
    ensures ReplayDay(rows, profitLimit, lossLimit).state == ReplayDay(rows[..j], profitLimit, lossLimit).state
    ensures |ReplayDay(rows, profitLimit, lossLimit).details| == |rows|
    ensures forall i :: j <= i < |rows| ==>
              && !ReplayDay(rows, profitLimit, lossLimit).details[i].executed
              && ReplayDay(rows, profitLimit, lossLimit).details[i].profitUsd == 0
    decreases |rows|
  {
    ReplayShape(rows, profitLimit, lossLimit);
    if j == |rows| {
      assert rows[..j] == rows;
    } else {
      var front := rows[..|rows| - 1];
      assert front[..j] == rows[..j];
      AfterTrigger(front, profitLimit, lossLimit, j);
    }
  }

  /** At most one of the two trigger flags is ever set for a day. */
  lemma {:induction false} TriggersExclusive(rows: seq<Row>, profitLimit: int, lossLimit: int)
    ensures var st := ReplayDay(rows, profitLimit, lossLimit).state;
            !(st.profitLimitTriggered && st.lossLimitTriggered)
    decreases |rows|
  {
    if rows != [] {
      TriggersExclusive(rows[..|rows| - 1], profitLimit, lossLimit);
    }
  }

  /** A tripped cap leaves the day's total exactly at the cap. */
  lemma {:induction false} CapExact(rows: seq<Row>, profitLimit: int, lossLimit: int)
    ensures var st := ReplayDay(rows, profitLimit, lossLimit).state;
            && (st.profitLimitTriggered ==> st.cumulative == profitLimit)
            && (st.lossLimitTriggered ==> st.cumulative == -lossLimit)
    decreases |rows|
  {
    if rows != [] {
      CapExact(rows[..|rows| - 1], profitLimit, lossLimit);
    }
  }

  /** The day's total is the sum of the profits its details count. */
  lemma {:induction false} DayTotalIsSum(rows: seq<Row>, profitLimit: int, lossLimit: int)
    ensures ReplayDay(rows, profitLimit, lossLimit).state.cumulative
            == Sum(ReplayDay(rows, profitLimit, lossLimit).details, ProfitOf)
    decreases |rows|
  {
    if rows != [] {
      var front := rows[..|rows| - 1];
      DayTotalIsSum(front, profitLimit, lossLimit);
      var run := ReplayDay(rows, profitLimit, lossLimit);
      assert run.details[..|run.details| - 1] == ReplayDay(front, profitLimit, lossLimit).details;
    }
  }

  predicate IsTriggerDetail(d: TradeDetail)
  {
    d.reason == HitProfitLimit || d.reason == HitLossLimit
  }

  /** A day has exactly one triggering trade if a cap tripped, and none otherwise. */
  lemma {:induction false} OneTriggerPerDay(rows: seq<Row>, profitLimit: int, lossLimit: int)
    ensures Count(ReplayDay(rows, profitLimit, lossLimit).details, IsTriggerDetail)
            == if ReplayDay(rows, profitLimit, lossLimit).state.Triggered() then 1 else 0
    decreases |rows|
  {
    if rows != [] {
      var front := rows[..|rows| - 1];
      OneTriggerPerDay(front, profitLimit, lossLimit);
      var run := ReplayDay(rows, profitLimit, lossLimit);
      assert run.details[..|run.details| - 1] == ReplayDay(front, profitLimit, lossLimit).details;
    }
  }

  /**
   * The excursions bound the realised profit: a winning trade's favourable
   * excursion is at least its profit, a losing trade's adverse excursion at
   * least its loss. The parser's defaults, max(0, profit) and |min(0, profit)|,
   * satisfy this.
   */
  predicate ConsistentExcursions(row: Row)
  {
    && (row.profitUsd > 0 ==> row.maxProfitUsd >= row.profitUsd)
    && (row.profitUsd < 0 ==> Abs(row.maxLossUsd) >= -row.profitUsd)
  }

  /**
   * With consistent excursions and positive caps, the day total stays strictly
   * inside the caps until one trips, and so never leaves [-loss cap, profit cap].
   */
  lemma {:induction false} DayWithinCaps(rows: seq<Row>, profitLimit: int, lossLimit: int)
    requires profitLimit > 0 && lossLimit > 0
    requires forall i :: 0 <= i < |rows| ==> ConsistentExcursions(rows[i])
    ensures var st := ReplayDay(rows, profitLimit, lossLimit).state;
            && -lossLimit <= st.cumulative <= profitLimit
            && (!st.Triggered() ==> -lossLimit < st.cumulative < profitLimit)
    decreases |rows|
  {
    if rows != [] {
      DayWithinCaps(rows[..|rows| - 1], profitLimit, lossLimit);
      assert ConsistentExcursions(rows[|rows| - 1]);
    }
  }

  /**
   * Raising the profit cap can lower a day's result: a +150 trade (excursion
   * 150) followed by a -300 trade ends the day at +100 under a cap of 100 but
   * at -100 under a cap of 200, with a loss cap of 100 in both cases.
   */
  lemma RaisingProfitCapCanLowerDay(t0: Calendar.DateTime, t1: Calendar.DateTime)
    ensures var rows := [Row(1, t0, t0, 0, 15000, 15000, 0), Row(2, t1, t1, 0, -30000, 0, -30000)];
            && ReplayDay(rows, 10000, 10000).state.cumulative == 10000
            && ReplayDay(rows, 20000, 10000).state.cumulative == -10000
  {
    var rows := [Row(1, t0, t0, 0, 15000, 15000, 0), Row(2, t1, t1, 0, -30000, 0, -30000)];
    assert rows[..1] == [rows[0]];
    assert rows[..1][..0] == [];
    assert ReplayDay(rows[..1], 10000, 10000).state == DayState(10000, true, false);
    assert ReplayDay(rows[..1], 20000, 10000).state == DayState(15000, false, false);
  }
}
