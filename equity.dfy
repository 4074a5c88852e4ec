/**
 * The equity curve (`EquityCurve.swift`): the running profit/loss after each
 * trade in date order, the chart's vertical range, and the trade a drag on
 * the chart selects.
 */
module Equity {
  import opened Wrappers
  import opened Seqs
  import opened Numbers
  import opened Trades
  import TradeAnalytics
  import Patterns

  // ---------------------------------------------------------------------
  // cumulativeProfitLoss

  /** A point of the curve: a trade's date and the running total after it. */
  datatype EquityPoint = EquityPoint(date: Timestamp, total: real)

  function PointDate(p: EquityPoint): Timestamp { p.date }

  function PointTotal(p: EquityPoint): real { p.total }

  /** One point per trade of `s`, in the order of `s`, the last holding the total of all of `s`. */
  function PointsOf(s: seq<Trade>): (r: seq<EquityPoint>)
    ensures |r| == |s|
    ensures forall i :: 0 <= i < |s| ==> r[i].date == s[i].date
    ensures s != [] ==> r[|s| - 1].total == Sum(s, ProfitLoss)
    decreases |s|
  {
    if s == [] then []
    else PointsOf(s[..|s| - 1]) + [EquityPoint(s[|s| - 1].date, Sum(s, ProfitLoss))]
  }

  /** Each point holds the total of the trades up to and including its own. */
  lemma {:induction false} PointsArePrefixTotals(s: seq<Trade>)
    ensures forall i :: 0 <= i < |s| ==> PointsOf(s)[i].total == Sum(s[..i + 1], ProfitLoss)
    decreases |s|
  {
    if s != [] {
      var front := s[..|s| - 1];
      PointsArePrefixTotals(front);
      forall i | 0 <= i < |s| ensures PointsOf(s)[i].total == Sum(s[..i + 1], ProfitLoss) {
        if i < |front| {
          assert front[..i + 1] == s[..i + 1];
        } else {
          assert s[..i + 1] == s;
        }
      }
    }
  }

  /** The curve of a journal: the points of its trades sorted oldest first. */
  function CumulativePoints(trades: seq<Trade>): seq<EquityPoint> {
    PointsOf(Patterns.Oldest(trades))
  }

  /** One more trade extends the curve by one point. */
  lemma PointsStep(s: seq<Trade>, k: nat)
    requires k < |s|
    ensures PointsOf(s[..k + 1]) == PointsOf(s[..k]) + [EquityPoint(s[k].date, Sum(s[..k + 1], ProfitLoss))]
    ensures Sum(s[..k + 1], ProfitLoss) == Sum(s[..k], ProfitLoss) + ProfitLoss(s[k])
  {
    assert s[..k + 1][..k] == s[..k];
    SumPrefix(s, k, ProfitLoss);
  }

  /**
   * `cumulativeProfitLoss`: sort the trades oldest first and append, for
   * each, its date and the running total. The curve has one point per
   * trade, its dates never go back, they are the trades' dates, and the last
   * point holds the journal's total profit/loss.
   */
  method CumulativeProfitLoss(trades: seq<Trade>) returns (points: seq<EquityPoint>)
    ensures points == CumulativePoints(trades)
    ensures |points| == |trades|
    ensures forall i, j :: 0 <= i < j < |points| ==> points[i].date <= points[j].date
    ensures multiset(Map(points, PointDate)) == multiset(Map(trades, DateOf))
    ensures points != [] ==> points[|points| - 1].total == TradeAnalytics.TotalProfitLoss(trades)
  {
    if trades == [] {
      return [];
    }
    var runningTotal := 0.0;
    points := [];
    var sortedTrades := Patterns.Oldest(trades);
    for k := 0 to |sortedTrades|
      invariant runningTotal == Sum(sortedTrades[..k], ProfitLoss)
      invariant points == PointsOf(sortedTrades[..k])
    {
      PointsStep(sortedTrades, k);
      runningTotal := runningTotal + ProfitLoss(sortedTrades[k]);
      points := points + [EquityPoint(sortedTrades[k].date, runningTotal)];
    }
    assert sortedTrades[..|sortedTrades|] == sortedTrades;
    CurveDatesSorted(trades);
    CurveDates(trades);
    CurveLastTotal(trades);
  }

  /** The curve's dates never go back. */
  lemma CurveDatesSorted(trades: seq<Trade>)
    ensures var points := CumulativePoints(trades);
            forall i, j :: 0 <= i < j < |points| ==> points[i].date <= points[j].date
  {
    var sorted := Patterns.Oldest(trades);
    assert forall i, j :: 0 <= i < j < |sorted| ==> Patterns.DateLe(sorted[i], sorted[j]);
  }

  /** The curve's dates are the trades' dates, each as often. */
  lemma CurveDates(trades: seq<Trade>)
    ensures multiset(Map(CumulativePoints(trades), PointDate)) == multiset(Map(trades, DateOf))
  {
    var sorted := Patterns.Oldest(trades);
    var points := PointsOf(sorted);
    assert Map(points, PointDate) == Map(sorted, DateOf);
    MapPermutation(sorted, trades, DateOf);
  }

  /** The curve ends at the journal's total profit/loss. */
  lemma CurveLastTotal(trades: seq<Trade>)
    ensures var points := CumulativePoints(trades);
            points != [] ==> points[|points| - 1].total == TradeAnalytics.TotalProfitLoss(trades)
  {
    var sorted := Patterns.Oldest(trades);
    if sorted != [] {
      assert sorted[..|sorted|] == sorted;
      SumPermutation(sorted, trades, ProfitLoss);
    }
  }

  // ---------------------------------------------------------------------
  // yAxisRange

  /** The chart's vertical domain, `lower...upper`. */
  datatype AxisRange = AxisRange(lower: real, upper: real)

  /**
   * `yAxisRange`: from the smaller of 0 and the lowest total to the larger of
   * 0 and the highest total, widened on both sides by a tenth of the larger
   * magnitude. Zero and every point of the curve lie inside, and a journal
   * without trades gets `0...0`.
   */
  function YAxisRange(trades: seq<Trade>): (r: AxisRange)
    ensures r.lower <= 0.0 <= r.upper
    ensures forall i :: 0 <= i < |CumulativePoints(trades)| ==>
              r.lower <= CumulativePoints(trades)[i].total <= r.upper
    ensures trades == [] ==> r == AxisRange(0.0, 0.0)
    ensures var points := CumulativePoints(trades);
            r == Padded(Min(0.0, MinOf(points, PointTotal).GetOr(0.0)), Max(0.0, MaxOf(points, PointTotal).GetOr(0.0)))
  {
    RangeOf(CumulativePoints(trades))
  }

  /**
   * The range for a list of points: the smaller of 0 and the lowest total to
   * the larger of 0 and the highest, padded; so zero and every total lie
   * inside, and no points give `0...0`.
   */
  function RangeOf(values: seq<EquityPoint>): (r: AxisRange)
    ensures r.lower <= 0.0 <= r.upper
    ensures forall i :: 0 <= i < |values| ==> r.lower <= values[i].total <= r.upper
    ensures values == [] ==> r == AxisRange(0.0, 0.0)
    ensures r == Padded(Min(0.0, MinOf(values, PointTotal).GetOr(0.0)), Max(0.0, MaxOf(values, PointTotal).GetOr(0.0)))
  {
    var minValue := Min(0.0, MinOf(values, PointTotal).GetOr(0.0));
    var maxValue := Max(0.0, MaxOf(values, PointTotal).GetOr(0.0));
    Padded(minValue, maxValue)
  }

  /** `(minValue - padding)...(maxValue + padding)` with `padding = max(abs(maxValue), abs(minValue)) * 0.1`. */
  function Padded(minValue: real, maxValue: real): (r: AxisRange)
    ensures minValue <= 0.0 <= maxValue ==>
              && r.lower <= minValue && maxValue <= r.upper
              && minValue - r.lower == r.upper - maxValue == Max(maxValue, -minValue) / 10.0
  {
    var padding := Max(Abs(maxValue), Abs(minValue)) * 0.1;
    AxisRange(minValue - padding, maxValue + padding)
  }

  // ---------------------------------------------------------------------
  // Selecting the trade nearest to the dragged-to date.

  /** Twelve hours, in seconds: how near a trade must be to be selected. */
  const SelectionWindow: int := 12 * 60 * 60

  /** `abs(trade.date.timeIntervalSince(date))`, in seconds. */
  function DistanceTo(t: Trade, date: Timestamp): (r: nat)
    ensures r == t.date - date || r == date - t.date
  {
    if t.date >= date then t.date - date else date - t.date
  }

  /** A `TimeInterval` that starts out as `.infinity`. */
  datatype Distance = Finite(seconds: nat) | Infinity

  /** `d < e` on these values: every finite distance is below infinity. */
  predicate Below(d: Distance, e: Distance) {
    match (d, e)
    case (Finite(a), Finite(b)) => a < b
    case (Finite(_), Infinity) => true
    case (Infinity, _) => false
  }

  /**
   * The scan in the drag handler: keep the first trade whose distance to
   * `date` is strictly smaller than every distance seen before it. The trade
   * kept is the earliest in the list among those at the smallest distance,
   * and there is none only when there are no trades.
   */
  method ClosestTrade(trades: seq<Trade>, date: Timestamp) returns (closestTrade: Option<Trade>, closestDistance: Distance)
    ensures trades == [] <==> closestTrade.None?
    ensures closestTrade.None? <==> closestDistance == Infinity
    ensures closestTrade.Some? ==>
              && closestDistance == Finite(DistanceTo(closestTrade.value, date))
              && (forall j :: 0 <= j < |trades| ==> closestDistance.seconds <= DistanceTo(trades[j], date))
              && exists i :: 0 <= i < |trades| && trades[i] == closestTrade.value &&
                   forall j :: 0 <= j < i ==> closestDistance.seconds < DistanceTo(trades[j], date)
  {
    closestTrade := None;
    closestDistance := Infinity;
    ghost var at := 0;
    for k := 0 to |trades|
      invariant k == 0 <==> closestTrade.None?
      invariant closestTrade.None? <==> closestDistance == Infinity
      invariant closestTrade.Some? ==>
                  && 0 <= at < k && trades[at] == closestTrade.value
                  && closestDistance == Finite(DistanceTo(closestTrade.value, date))
                  && (forall j :: 0 <= j < k ==> closestDistance.seconds <= DistanceTo(trades[j], date))
                  && (forall j :: 0 <= j < at ==> closestDistance.seconds < DistanceTo(trades[j], date))
    {
      var distance := Finite(DistanceTo(trades[k], date));
      if Below(distance, closestDistance) {
        closestDistance := distance;
        closestTrade := Some(trades[k]);
        at := k;
      }
    }
  }

  /** What a drag selects: the nearest trade found, if it lies within twelve hours of the date. */
  function Selection(closestTrade: Option<Trade>, closestDistance: Distance): (r: Option<Trade>)
    ensures r.Some? <==> closestTrade.Some? && Below(closestDistance, Finite(SelectionWindow))
    ensures r.Some? ==> r == closestTrade
  {
    if Below(closestDistance, Finite(SelectionWindow)) then closestTrade else None
  }

  /** The chart's selection state. */
  class EquityCurveView {
    const trades: seq<Trade>
    var selectedTrade: Option<Trade>
    var selectedDate: Option<Timestamp>

    constructor (trades: seq<Trade>)
      ensures this.trades == trades
      ensures selectedTrade.None? && selectedDate.None?
    {
      this.trades := trades;
      selectedTrade := None;
      selectedDate := None;
    }

    /**
     * The drag's `onChanged`: a location with no date on the axis changes
     * nothing; otherwise the date is remembered and the selected trade
     * becomes the nearest trade within twelve hours, the first in the list
     * when several are equally near, or none.
     */
    method DragChanged(date: Option<Timestamp>)
      modifies this
      ensures date.None? ==> selectedTrade == old(selectedTrade) && selectedDate == old(selectedDate)
      ensures date.Some? ==> selectedDate == date
      ensures date.Some? && selectedTrade.Some? ==>
                && selectedTrade.value in trades
                && DistanceTo(selectedTrade.value, date.value) < SelectionWindow
                && (forall j :: 0 <= j < |trades| ==> DistanceTo(selectedTrade.value, date.value) <= DistanceTo(trades[j], date.value))
                && exists i :: 0 <= i < |trades| && trades[i] == selectedTrade.value &&
                     forall j :: 0 <= j < i ==> DistanceTo(selectedTrade.value, date.value) < DistanceTo(trades[j], date.value)
      ensures date.Some? && selectedTrade.None? ==>
                forall j :: 0 <= j < |trades| ==> DistanceTo(trades[j], date.value) >= SelectionWindow
    {
      if date.None? {
        return;
      }
      selectedDate := date;
      var closestTrade, closestDistance := ClosestTrade(trades, date.value);
      selectedTrade := Selection(closestTrade, closestDistance);
    }

    /** The drag's `onEnded`: both the date and the trade are cleared. */
    method DragEnded()
      modifies this
      ensures selectedDate.None? && selectedTrade.None?
    {
      selectedDate := None;
      selectedTrade := None;
    }
  }
}
