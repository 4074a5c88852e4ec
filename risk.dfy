/**
 * The Risk screen of `AnalysisSection.swift`: the average risk/reward ratio,
 * the maximum drawdown of the running profit/loss, the average amount at
 * risk, the share of profitable trades and the histogram of risk amounts.
 */
module Risk {
  import opened Wrappers
  import opened Seqs
  import opened Numbers
  import opened Trades
  import opened Grouping
  import TradeAnalytics
  import TradeList

  // ---------------------------------------------------------------------
  // Averages and the profitable share.

  /** `calculateAverageRR`: the mean risk/reward ratio, the same figure the trade list shows. */
  function CalculateAverageRR(trades: seq<Trade>): (r: real)
    ensures trades == [] ==> r == 0.0
    ensures r >= 0.0
    ensures r == TradeList.AverageRiskRewardOf(trades)
  {
    SumSigns(trades, RiskRewardRatio);
    if trades == [] then 0.0 else Reduce(0.0, trades, RiskRewardRatio) / (|trades| as real)
  }

  /** `calculateAverageRisk`: the mean amount at risk, 0 for no trades. */
  function CalculateAverageRisk(trades: seq<Trade>): (r: real)
    ensures trades == [] ==> r == 0.0
    ensures trades != [] ==> r == Sum(trades, RiskAmount) / (|trades| as real)
  {
    if trades == [] then 0.0 else Reduce(0.0, trades, RiskAmount) / (|trades| as real)
  }

  /** `n` copies of `m` added up. */
  function Times(n: nat, m: real): real {
    if n == 0 then 0.0 else m + Times(n - 1, m)
  }

  lemma {:induction false} TimesIsProduct(n: nat, m: real)
    ensures Times(n, m) == (n as real) * m
  {
    if n > 0 {
      TimesIsProduct(n - 1, m);
    }
  }

  /** A sum of values none above `m` is at most `m` per element. */
  lemma {:induction false} SumAtMost<T>(s: seq<T>, f: T -> real, m: real)
    requires forall i :: 0 <= i < |s| ==> f(s[i]) <= m
    ensures Sum(s, f) <= Times(|s|, m)
  {
    if s != [] {
      SumAtMost(s[1..], f, m);
    }
  }

  /** A sum of values none below `m` is at least `m` per element. */
  lemma {:induction false} SumAtLeast<T>(s: seq<T>, f: T -> real, m: real)
    requires forall i :: 0 <= i < |s| ==> m <= f(s[i])
    ensures Times(|s|, m) <= Sum(s, f)
  {
    if s != [] {
      SumAtLeast(s[1..], f, m);
    }
  }

  /** A total of at most `n` times `m` shared among `n` is at most `m` each. */
  lemma ShareAtMost(total: real, n: real, m: real)
    requires n > 0.0 && total <= n * m
    ensures total / n <= m
  {
    assert total / n * n == total;
  }

  /** A total of at least `n` times `m` shared among `n` is at least `m` each. */
  lemma ShareAtLeast(total: real, n: real, m: real)
    requires n > 0.0 && n * m <= total
    ensures m <= total / n
  {
    assert total / n * n == total;
  }

  /** The mean of `f` over a non-empty list lies between the smallest and the largest value. */
  lemma AverageBetween<T>(s: seq<T>, f: T -> real)
    requires s != []
    ensures MinOf(s, f).value <= Sum(s, f) / (|s| as real) <= MaxOf(s, f).value
  {
    var lo := MinOf(s, f).value;
    var hi := MaxOf(s, f).value;
    SumAtMost(s, f, hi);
    SumAtLeast(s, f, lo);
    ShareBetween(Sum(s, f), |s|, lo, hi);
  }

  /** A total between `n` copies of `lo` and `n` copies of `hi`, shared among `n`, gives each between `lo` and `hi`. */
  lemma ShareBetween(total: real, n: nat, lo: real, hi: real)
    requires n > 0 && Times(n, lo) <= total <= Times(n, hi)
    ensures lo <= total / (n as real) <= hi
  {
    TimesIsProduct(n, hi);
    TimesIsProduct(n, lo);
    ShareAtMost(total, n as real, hi);
    ShareAtLeast(total, n as real, lo);
  }

  /** The average risk lies between the smallest and the largest risk among the trades. */
  lemma AverageRiskBetween(trades: seq<Trade>)
    requires trades != []
    ensures MinOf(trades, RiskAmount).value <= CalculateAverageRisk(trades) <= MaxOf(trades, RiskAmount).value
  {
    AverageBetween(trades, RiskAmount);
  }

  /** With no negative quantity or leverage, the average risk is not negative. */
  lemma AverageRiskNonNegative(trades: seq<Trade>)
    requires forall i :: 0 <= i < |trades| ==> trades[i].quantity >= 0.0 && trades[i].leverage >= 0.0
    ensures CalculateAverageRisk(trades) >= 0.0
  {
    if trades != [] {
      var total := Sum(trades, RiskAmount);
      SumSigns(trades, RiskAmount);
      ShareAtLeast(total, |trades| as real, 0.0);
    }
  }

  /** `calculateProfitableRiskTrades`: the percentage of trades with a profit, the same as the win rate. */
  function CalculateProfitableRiskTrades(trades: seq<Trade>): (r: real)
    ensures 0.0 <= r <= 100.0
    ensures trades == [] ==> r == 0.0
    ensures r == TradeAnalytics.WinRate(trades)
  {
    if trades == [] then 0.0
    else
      var profitableTrades := |Filter(trades, IsWin)|;
      FilterLength(trades, IsWin);
      var r := (profitableTrades as real) / (|trades| as real) * 100.0;
      assert r == Percent(profitableTrades, |trades|);
      r
  }

  // ---------------------------------------------------------------------
  // calculateMaxDrawdown, over exact reals with the division guarded.

  /** The highest running total reached so far, starting from 0 before the first trade. */
  function Peak(s: seq<Trade>): (r: real)
    ensures r >= 0.0 && r >= Sum(s, ProfitLoss)
    decreases |s|
  {
    if s == [] then 0.0 else Max(Peak(s[..|s| - 1]), Sum(s, ProfitLoss))
  }

  /** How far, in percent of the peak, the running total stands below the peak; 0 while there is no positive peak. */
  function DrawdownAt(peak: real, running: real): (r: real)
    ensures running <= peak ==> r >= 0.0
    ensures running == peak ==> r == 0.0
    ensures peak <= 0.0 ==> r == 0.0
  {
    if peak > 0.0 then (peak - running) / peak * 100.0 else 0.0
  }

  /** The largest drawdown over the running totals after each trade. */
  function MaxDrawdownOf(s: seq<Trade>): (r: real)
    ensures r >= 0.0
    decreases |s|
  {
    if s == [] then 0.0
    else Max(MaxDrawdownOf(s[..|s| - 1]), DrawdownAt(Peak(s), Sum(s, ProfitLoss)))
  }

  /** One more trade: the running total, the peak and the largest drawdown, each from the values before. */
  lemma DrawdownStep(s: seq<Trade>, k: nat)
    requires k < |s|
    ensures Sum(s[..k + 1], ProfitLoss) == Sum(s[..k], ProfitLoss) + ProfitLoss(s[k])
    ensures Peak(s[..k + 1]) == Max(Peak(s[..k]), Sum(s[..k + 1], ProfitLoss))
    ensures MaxDrawdownOf(s[..k + 1]) ==
              Max(MaxDrawdownOf(s[..k]), DrawdownAt(Peak(s[..k + 1]), Sum(s[..k + 1], ProfitLoss)))
  {
    assert s[..k + 1][..k] == s[..k];
    SumPrefix(s, k, ProfitLoss);
  }

  /**
   * `calculateMaxDrawdown` with the division by a zero peak left out: add each
   * trade to the running total, raise the peak, and keep the largest drop
   * below the peak in percent.
   */
  method CalculateMaxDrawdown(trades: seq<Trade>) returns (maxDrawdown: real)
    ensures maxDrawdown == MaxDrawdownOf(trades)
    ensures maxDrawdown >= 0.0
  {
    if trades == [] {
      return 0.0;
    }
    maxDrawdown := 0.0;
    var peak := 0.0;
    var runningPL := 0.0;
    for k := 0 to |trades|
      invariant runningPL == Sum(trades[..k], ProfitLoss)
      invariant peak == Peak(trades[..k])
      invariant maxDrawdown == MaxDrawdownOf(trades[..k])
    {
      DrawdownStep(trades, k);
      runningPL := runningPL + ProfitLoss(trades[k]);
      peak := Max(peak, runningPL);
      var drawdown := DrawdownAt(peak, runningPL);
      maxDrawdown := Max(maxDrawdown, drawdown);
    }
    assert trades[..|trades|] == trades;
  }

  /** Every running total so far is at most the peak. */
  lemma {:induction false} PeakIsHighest(s: seq<Trade>, k: nat)
    requires k <= |s|
    ensures Sum(s[..k], ProfitLoss) <= Peak(s)
    decreases |s|
  {
    if k < |s| {
      var front := s[..|s| - 1];
      assert front[..k] == s[..k];
      PeakIsHighest(front, k);
    } else {
      assert s[..k] == s;
    }
  }

  /** The drawdown after every trade is at most the maximum drawdown. */
  lemma {:induction false} MaxDrawdownIsLargest(s: seq<Trade>, k: nat)
    requires 1 <= k <= |s|
    ensures DrawdownAt(Peak(s[..k]), Sum(s[..k], ProfitLoss)) <= MaxDrawdownOf(s)
    decreases |s|
  {
    if k < |s| {
      var front := s[..|s| - 1];
      assert front[..k] == s[..k];
      MaxDrawdownIsLargest(front, k);
    } else {
      assert s[..k] == s;
    }
  }

  /** With no losing trade the running total never falls, so the peak is the running total. */
  lemma {:induction false} NoLossPeakIsTotal(s: seq<Trade>)
    requires forall i :: 0 <= i < |s| ==> !IsLoss(s[i])
    ensures Peak(s) == Sum(s, ProfitLoss)
    decreases |s|
  {
    if s != [] {
      var front := s[..|s| - 1];
      NoLossPeakIsTotal(front);
      DrawdownStep(s, |s| - 1);
      assert s[..|s|] == s;
    }
  }

  /** With no losing trade there is no drawdown. */
  lemma {:induction false} NoLossNoDrawdown(s: seq<Trade>)
    requires forall i :: 0 <= i < |s| ==> !IsLoss(s[i])
    ensures MaxDrawdownOf(s) == 0.0
    decreases |s|
  {
    if s != [] {
      NoLossNoDrawdown(s[..|s| - 1]);
      NoLossPeakIsTotal(s);
    }
  }

  /** While the running total stays at or above zero, no drawdown exceeds 100 percent. */
  lemma {:induction false} DrawdownAtMostAll(s: seq<Trade>)
    requires forall k :: 0 <= k <= |s| ==> Sum(s[..k], ProfitLoss) >= 0.0
    ensures MaxDrawdownOf(s) <= 100.0
    decreases |s|
  {
    if s != [] {
      var front := s[..|s| - 1];
      forall k | 0 <= k <= |front| ensures Sum(front[..k], ProfitLoss) >= 0.0 {
        assert front[..k] == s[..k];
      }
      DrawdownAtMostAll(front);
      assert s[..|s|] == s;
      DrawdownAtMostPeak(Peak(s), Sum(s, ProfitLoss));
    }
  }

  lemma DrawdownAtMostPeak(peak: real, running: real)
    requires 0.0 <= running <= peak
    ensures DrawdownAt(peak, running) <= 100.0
  {
    if peak > 0.0 {
      assert (peak - running) / peak <= 1.0 by {
        ShareAtMost(peak - running, peak, 1.0);
      }
    }
  }

  // ---------------------------------------------------------------------
  // calculateMaxDrawdown as written, with Double's division and max.

  /** The values the loop's `Double`s can take: a number, an infinity, or not-a-number. */
  datatype Ieee = Num(v: real) | PosInf | NegInf | NaN

  /**
   * `num / den * 100` in floating point, rounding left out, for a divisor that
   * is zero only as `+0.0` (the peak starts at `0` and never drops): dividing
   * by zero gives an infinity of the dividend's sign, or not-a-number for 0 / 0.
   */
  function PercentOf(num: real, den: real): (r: Ieee)
    ensures den != 0.0 ==> r == Num(num / den * 100.0)
    ensures den == 0.0 ==> (r.NaN? <==> num == 0.0)
    ensures den == 0.0 && num > 0.0 ==> r == PosInf
    ensures den == 0.0 && num < 0.0 ==> r == NegInf
  {
    if den != 0.0 then Num(num / den * 100.0)
    else if num > 0.0 then PosInf
    else if num < 0.0 then NegInf
    else NaN
  }

  /** `y >= x` on doubles: false whenever either side is not-a-number. */
  predicate AtLeast(y: Ieee, x: Ieee) {
    match (y, x)
    case (NaN, _) => false
    case (_, NaN) => false
    case (PosInf, _) => true
    case (_, NegInf) => true
    case (NegInf, _) => false
    case (Num(a), Num(b)) => a >= b
    case (Num(_), PosInf) => false
  }

  /** Swift's `max(x, y)`, which is `y >= x ? y : x`: a not-a-number `y` leaves `x`. */
  function SwiftMax(x: Ieee, y: Ieee): (r: Ieee)
    ensures y.NaN? ==> r == x
    ensures x.Num? && y.Num? ==> r == Num(Max(x.v, y.v))
    ensures x.PosInf? ==> r == PosInf
    ensures !x.NaN? && y.PosInf? ==> r == PosInf
    ensures !x.NaN? ==> !r.NaN?
  {
    if AtLeast(y, x) then y else x
  }

  /** What the loop leaves in `maxDrawdown`, dividing by the peak even while it is 0. */
  function DrawdownAsWrittenOf(s: seq<Trade>): (r: Ieee)
    ensures !r.NaN?
    decreases |s|
  {
    if s == [] then Num(0.0)
    else SwiftMax(DrawdownAsWrittenOf(s[..|s| - 1]), PercentOf(Peak(s) - Sum(s, ProfitLoss), Peak(s)))
  }

  lemma DrawdownAsWrittenStep(s: seq<Trade>, k: nat)
    requires k < |s|
    ensures DrawdownAsWrittenOf(s[..k + 1]) ==
              SwiftMax(DrawdownAsWrittenOf(s[..k]), PercentOf(Peak(s[..k + 1]) - Sum(s[..k + 1], ProfitLoss), Peak(s[..k + 1])))
  {
    assert s[..k + 1][..k] == s[..k];
  }

  /**
   * `calculateMaxDrawdown` as written: the drawdown is computed even while
   * the peak is still 0. A running total below 0 then divides a positive
   * drop by 0.
   */
  method CalculateMaxDrawdownAsWritten(trades: seq<Trade>) returns (maxDrawdown: Ieee)
    ensures maxDrawdown == DrawdownAsWrittenOf(trades)
  {
    if trades == [] {
      return Num(0.0);
    }
    maxDrawdown := Num(0.0);
    var peak := 0.0;
    var runningPL := 0.0;
    for k := 0 to |trades|
      invariant runningPL == Sum(trades[..k], ProfitLoss)
      invariant peak == Peak(trades[..k])
      invariant maxDrawdown == DrawdownAsWrittenOf(trades[..k])
    {
      DrawdownStep(trades, k);
      DrawdownAsWrittenStep(trades, k);
      runningPL := runningPL + ProfitLoss(trades[k]);
      peak := Max(peak, runningPL);
      var drawdown := PercentOf(peak - runningPL, peak);
      maxDrawdown := SwiftMax(maxDrawdown, drawdown);
    }
    assert trades[..|trades|] == trades;
  }

  /** Losing before any profit: the running total falls below a peak that is still 0. */
  predicate UnderwaterAtZeroPeak(s: seq<Trade>) {
    exists k :: 1 <= k <= |s| && Peak(s[..k]) == 0.0 && Sum(s[..k], ProfitLoss) < 0.0
  }

  /** If the running total never falls below zero before the first positive peak, the code as written agrees with the guarded drawdown. */
  lemma {:induction false} AsWrittenAgrees(s: seq<Trade>)
    requires !UnderwaterAtZeroPeak(s)
    ensures DrawdownAsWrittenOf(s) == Num(MaxDrawdownOf(s))
    decreases |s|
  {
    if s != [] {
      var front := s[..|s| - 1];
      assert !UnderwaterAtZeroPeak(front) by {
        forall k | 1 <= k <= |front| ensures !(Peak(front[..k]) == 0.0 && Sum(front[..k], ProfitLoss) < 0.0) {
          assert front[..k] == s[..k];
        }
      }
      AsWrittenAgrees(front);
      assert s[..|s|] == s;
    }
  }

  /** Once the running total has fallen below a zero peak, the code as written reports an infinite drawdown from then on. */
  lemma {:induction false} AsWrittenInfinite(s: seq<Trade>)
    requires UnderwaterAtZeroPeak(s)
    ensures DrawdownAsWrittenOf(s) == PosInf
    decreases |s|
  {
    var k :| 1 <= k <= |s| && Peak(s[..k]) == 0.0 && Sum(s[..k], ProfitLoss) < 0.0;
    if k == |s| {
      assert s[..k] == s;
    } else {
      var front := s[..|s| - 1];
      assert front[..k] == s[..k];
      AsWrittenInfinite(front);
    }
  }

  /** A journal whose first trade is a loss: the code as written reports an infinite drawdown, the guarded one 0. */
  lemma FirstLossIsInfinite(t: Trade)
    requires IsLoss(t)
    ensures DrawdownAsWrittenOf([t]) == PosInf
    ensures MaxDrawdownOf([t]) == 0.0
  {
    assert [t][..1] == [t] && [t][..0] == [];
    assert Sum([t], ProfitLoss) == ProfitLoss(t) + Sum([t][1..], ProfitLoss);
    assert Peak([t]) == 0.0;
    AsWrittenInfinite([t]);
  }

  // ---------------------------------------------------------------------
  // getRiskDistribution

  /** One bar of the risk histogram: a risk level and how many trades round to it. */
  datatype RiskDistributionData = RiskDistributionData(risk: real, count: nat)

  function RiskOf(d: RiskDistributionData): real { d.risk }

  function CountOf(d: RiskDistributionData): real { d.count as real }

  /** `round(riskAmount / 100) * 100`: the risk amount to the nearest hundred. */
  function RiskBucket(t: Trade): real {
    (Round(RiskAmount(t) / 100.0) as real) * 100.0
  }

  /** A trade's risk level is a whole number of hundreds, at most 50 away from its risk amount. */
  lemma RiskBucketNearest(t: Trade)
    ensures Abs(RiskBucket(t) - RiskAmount(t)) <= 50.0
    ensures RiskBucket(t) == (RiskBucket(t) / 100.0).Floor as real * 100.0
  {
    RoundHundreds(RiskAmount(t));
  }

  /** Rounding a hundredth of `a` and scaling back gives a whole number of hundreds within 50 of `a`. */
  lemma RoundHundreds(a: real)
    ensures var b := (Round(a / 100.0) as real) * 100.0;
            Abs(b - a) <= 50.0 && b == (b / 100.0).Floor as real * 100.0
  {
    var x := a / 100.0;
    var n := Round(x);
    assert x * 100.0 == a;
    assert (n as real * 100.0) / 100.0 == n as real;
  }

  /** A risk level's bar: the level and the size of its group. */
  function RiskRow(trades: seq<Trade>): real -> RiskDistributionData {
    (risk: real) => RiskDistributionData(risk, |Bucket(trades, RiskBucket, risk)|)
  }

  /** `$0.risk < $1.risk`, as the order a stable sort respects. */
  predicate RiskLe(a: RiskDistributionData, b: RiskDistributionData) { a.risk <= b.risk }

  lemma RiskLeTotalPreorder()
    ensures TotalPreorder(RiskLe)
  {
  }

  /**
   * `getRiskDistribution`: one bar per rounded risk level among the trades,
   * in strictly increasing order of the level, and every trade's level among
   * the bars.
   */
  function GetRiskDistribution(trades: seq<Trade>): (r: seq<RiskDistributionData>)
    ensures |r| == |Keys(trades, RiskBucket)|
    ensures forall i, j :: 0 <= i < j < |r| ==> r[i].risk < r[j].risk
    ensures forall i :: 0 <= i < |trades| ==> RiskBucket(trades[i]) in Map(r, RiskOf)
  {
    RiskLeTotalPreorder();
    var r := SortedEntries(trades, RiskBucket, RiskRow(trades), RiskOf, RiskLe);
    RisksIncreasing(r);
    r
  }

  /** Bars in order of level, no level twice: the levels strictly increase. */
  lemma RisksIncreasing(r: seq<RiskDistributionData>)
    requires SortedBy(r, RiskLe) && DistinctBy(r, RiskOf)
    ensures forall i, j :: 0 <= i < j < |r| ==> r[i].risk < r[j].risk
  {
    assert forall i, j :: 0 <= i < j < |r| ==> RiskLe(r[i], r[j]) && RiskOf(r[i]) != RiskOf(r[j]);
  }

  /** Each bar counts the trades whose risk rounds to its level, and there is at least one. */
  lemma RiskBarsCount(trades: seq<Trade>)
    ensures var r := GetRiskDistribution(trades);
            forall j :: 0 <= j < |r| ==> r[j].count == |Bucket(trades, RiskBucket, r[j].risk)| >= 1
  {
    RiskLeTotalPreorder();
    var r := SortedEntries(trades, RiskBucket, RiskRow(trades), RiskOf, RiskLe);
    forall j | 0 <= j < |r| ensures r[j].count == |Bucket(trades, RiskBucket, r[j].risk)| >= 1 {
      assert r[j] == RiskRow(trades)(RiskOf(r[j]));
    }
  }

  /** The bars' counts add up to the number of trades. */
  lemma RiskCountsSum(trades: seq<Trade>)
    ensures Sum(GetRiskDistribution(trades), CountOf) == |trades| as real
  {
    RiskLeTotalPreorder();
    SortedEntriesCount(trades, RiskBucket, RiskRow(trades), RiskOf, RiskLe, CountOf);
  }
}
