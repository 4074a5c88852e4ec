/**
 * `TradeAnalysisView`: the analysis screen's filter (time frame, strategy and
 * period) and the statistics it shows for the filtered trades: totals,
 * averages, extremes, per-strategy and per-time-frame win rates, and the
 * distribution of trades over four profit/loss bands.
 */
module TradeAnalysis {
  import opened Wrappers
  import opened Seqs
  import opened Numbers
  import opened Trades
  import opened Grouping
  import TradeAnalytics
  import TradeList

  /** `Date.distantPast`, the first instant of year 1, in seconds from the 2001 reference date. */
  const DistantPast: Timestamp := -63114076800

  /**
   * What the calendar answers for one `now`: the date 7 days, 1 month,
   * 3 months and 1 year earlier, or nothing where it cannot compute one.
   */
  datatype PeriodDates = PeriodDates(
    weekAgo: Option<Timestamp>,
    monthAgo: Option<Timestamp>,
    quarterAgo: Option<Timestamp>,
    yearAgo: Option<Timestamp>)

  /** The labels with a calendar period of their own: every one the picker lists except "All Time". */
  predicate KnownPeriod(period: string) {
    period == "Week" || period == "Month" || period == "Quarter" || period == "Year"
  }

  /** The start of the selected period: a calendar date (or `now` when there is none), and the distant past otherwise. */
  function PeriodStart(period: string, cal: PeriodDates, now: Timestamp): Timestamp {
    if period == "Week" then cal.weekAgo.GetOr(now)
    else if period == "Month" then cal.monthAgo.GetOr(now)
    else if period == "Quarter" then cal.quarterAgo.GetOr(now)
    else if period == "Year" then cal.yearAgo.GetOr(now)
    else DistantPast
  }

  /**
   * `isTradeInSelectedPeriod`: the date is at or after the period's start.
   * "All Time", like any label the picker does not know, reaches back to the
   * distant past.
   */
  function IsTradeInSelectedPeriod(date: Timestamp, period: string, cal: PeriodDates, now: Timestamp): (r: bool)
    ensures !KnownPeriod(period) ==> (r <==> date >= DistantPast)
  {
    date >= PeriodStart(period, cal, now)
  }

  /** The calendar's dates exist and go back in step: a year before a quarter before a month before a week before now. */
  predicate Chronological(cal: PeriodDates, now: Timestamp) {
    && cal.weekAgo.Some? && cal.monthAgo.Some? && cal.quarterAgo.Some? && cal.yearAgo.Some?
    && DistantPast <= cal.yearAgo.value <= cal.quarterAgo.value <= cal.monthAgo.value
       <= cal.weekAgo.value <= now
  }

  /** With a chronological calendar the periods nest: Week within Month within Quarter within Year within All Time. */
  lemma PeriodsNest(date: Timestamp, cal: PeriodDates, now: Timestamp)
    requires Chronological(cal, now)
    ensures IsTradeInSelectedPeriod(date, "Week", cal, now) ==> IsTradeInSelectedPeriod(date, "Month", cal, now)
    ensures IsTradeInSelectedPeriod(date, "Month", cal, now) ==> IsTradeInSelectedPeriod(date, "Quarter", cal, now)
    ensures IsTradeInSelectedPeriod(date, "Quarter", cal, now) ==> IsTradeInSelectedPeriod(date, "Year", cal, now)
    ensures IsTradeInSelectedPeriod(date, "Year", cal, now) ==> IsTradeInSelectedPeriod(date, "All Time", cal, now)
  {
  }

  /** The three conditions of `filteredTrades`. */
  function Selected(timeFrame: TimeFrame, strategy: string, period: string, cal: PeriodDates, now: Timestamp)
    : Trade -> bool
  {
    (t: Trade) =>
      && timeFrame == t.timeFrame
      && (strategy == "All" || strategy == t.strategy)
      && IsTradeInSelectedPeriod(t.date, period, cal, now)
  }

  /**
   * `filteredTrades`: in their original order, exactly the trades of the
   * selected time frame, of the selected strategy (any for "All"), and in the
   * selected period, each as often as in the list.
   */
  function FilteredTrades(trades: seq<Trade>, timeFrame: TimeFrame, strategy: string, period: string,
                          cal: PeriodDates, now: Timestamp): (r: seq<Trade>)
    ensures IsSubsequence(r, trades)
    ensures forall i :: 0 <= i < |r| ==>
              && r[i].timeFrame == timeFrame
              && (strategy == "All" || r[i].strategy == strategy)
              && r[i].date >= PeriodStart(period, cal, now)
    ensures forall i :: 0 <= i < |trades| ==>
              (trades[i] in r <==>
                && trades[i].timeFrame == timeFrame
                && (strategy == "All" || trades[i].strategy == strategy)
                && trades[i].date >= PeriodStart(period, cal, now))
    ensures forall x :: multiset(r)[x] ==
              if && x.timeFrame == timeFrame
                 && (strategy == "All" || x.strategy == strategy)
                 && x.date >= PeriodStart(period, cal, now)
              then multiset(trades)[x] else 0
  {
    FilterIsSubsequence(trades, Selected(timeFrame, strategy, period, cal, now));
    FilterMultiset(trades, Selected(timeFrame, strategy, period, cal, now));
    Filter(trades, Selected(timeFrame, strategy, period, cal, now))
  }

  /** The trades dated no earlier than the distant past. */
  predicate AfterDistantPast(t: Trade) { t.date >= DistantPast }

  /** The trades of one time frame. */
  function InTimeFrame(timeFrame: TimeFrame): Trade -> bool {
    (t: Trade) => t.timeFrame == timeFrame
  }

  /** With strategy "All" over all time, only the time frame filters (for dates after the distant past). */
  lemma OnlyTimeFrameFilters(trades: seq<Trade>, timeFrame: TimeFrame, cal: PeriodDates, now: Timestamp)
    requires forall i :: 0 <= i < |trades| ==> trades[i].date >= DistantPast
    ensures FilteredTrades(trades, timeFrame, "All", "All Time", cal, now) == Filter(trades, InTimeFrame(timeFrame))
  {
    var sel := Selected(timeFrame, "All", "All Time", cal, now);
    assert forall t :: sel(t) == (AfterDistantPast(t) && InTimeFrame(timeFrame)(t));
    FilterAll(trades, AfterDistantPast);
    FilterBoth(trades, AfterDistantPast, InTimeFrame(timeFrame), sel);
  }

  /** `calculateTotalPL`: the filtered trades' total profit/loss. */
  function CalculateTotalPL(filtered: seq<Trade>): (r: real)
    ensures r == Sum(filtered, ProfitLoss)
    ensures r == TradeAnalytics.TotalProfitLoss(filtered)
  {
    Reduce(0.0, filtered, ProfitLoss)
  }

  /** `calculateWinRate`: the filtered trades' win rate, a percentage, 0 for none. */
  function CalculateWinRate(filtered: seq<Trade>): (r: real)
    ensures 0.0 <= r <= 100.0
    ensures filtered == [] ==> r == 0.0
    ensures r == TradeAnalytics.WinRate(filtered)
  {
    var winningTrades := |Filter(filtered, IsWin)|;
    if filtered == [] then 0.0 else Percent(winningTrades, |filtered|)
  }

  /** `calculateAverageTradeAmount`: the mean profit/loss, 0 for no trades. */
  function CalculateAverageTradeAmount(filtered: seq<Trade>): (r: real)
    ensures filtered == [] ==> r == 0.0
    ensures filtered != [] ==> r == CalculateTotalPL(filtered) / (|filtered| as real)
  {
    Average(filtered, ProfitLoss)
  }

  /**
   * `calculateLargestWin`: the largest profit of a winning trade, 0 when none
   * wins; no trade made more.
   */
  function CalculateLargestWin(filtered: seq<Trade>): (r: real)
    ensures r >= 0.0
    ensures r == 0.0 <==> forall i :: 0 <= i < |filtered| ==> !IsWin(filtered[i])
    ensures forall i :: 0 <= i < |filtered| ==> ProfitLoss(filtered[i]) <= r
    ensures r > 0.0 ==> exists i :: 0 <= i < |filtered| && IsWin(filtered[i]) && ProfitLoss(filtered[i]) == r
  {
    var winningTrades := Filter(filtered, IsWin);
    FilterLength(filtered, IsWin);
    MaxOf(winningTrades, ProfitLoss).GetOr(0.0)
  }

  /**
   * `calculateLargestLoss`: the most negative profit/loss of a losing trade,
   * 0 when none loses; no trade lost more.
   */
  function CalculateLargestLoss(filtered: seq<Trade>): (r: real)
    ensures r <= 0.0
    ensures r == 0.0 <==> forall i :: 0 <= i < |filtered| ==> !IsLoss(filtered[i])
    ensures forall i :: 0 <= i < |filtered| ==> r <= ProfitLoss(filtered[i])
    ensures r < 0.0 ==> exists i :: 0 <= i < |filtered| && IsLoss(filtered[i]) && ProfitLoss(filtered[i]) == r
  {
    var losingTrades := Filter(filtered, IsLoss);
    FilterLength(filtered, IsLoss);
    MinOf(losingTrades, ProfitLoss).GetOr(0.0)
  }

  /** The trades whose risk/reward ratio is positive. */
  predicate HasRiskReward(t: Trade) {
    RiskRewardRatio(t) > 0.0
  }

  /**
   * `calculateAverageRR`: the mean ratio over the trades whose ratio is
   * positive; 0 when there are none, positive otherwise.
   */
  function CalculateAverageRR(filtered: seq<Trade>): (r: real)
    ensures r >= 0.0
    ensures r > 0.0 <==> exists i :: 0 <= i < |filtered| && HasRiskReward(filtered[i])
    ensures Filter(filtered, HasRiskReward) != [] ==>
              r == Sum(Filter(filtered, HasRiskReward), RiskRewardRatio) / (|Filter(filtered, HasRiskReward)| as real)
  {
    AveragePositivePart(filtered, RiskRewardRatio, HasRiskReward);
    Average(Filter(filtered, HasRiskReward), RiskRewardRatio)
  }

  /**
   * The two averages of the risk/reward ratio: leaving out the zero ratios
   * keeps the sum, so this view's average is never below the view model's
   * average over all trades, and equals it when no ratio is zero.
   */
  lemma AverageRRVariants(trades: seq<Trade>)
    ensures Sum(Filter(trades, HasRiskReward), RiskRewardRatio) == Sum(trades, RiskRewardRatio)
    ensures TradeList.AverageRiskRewardOf(trades) <= CalculateAverageRR(trades)
    ensures (forall i :: 0 <= i < |trades| ==> HasRiskReward(trades[i])) ==>
              TradeList.AverageRiskRewardOf(trades) == CalculateAverageRR(trades)
  {
    var withRR := Filter(trades, HasRiskReward);
    var total := Sum(trades, RiskRewardRatio);
    assert Sum(withRR, RiskRewardRatio) == total by {
      SumFilterZero(trades, HasRiskReward, RiskRewardRatio);
    }
    if withRR != [] {
      assert total / (|trades| as real) <= total / (|withRR| as real) by {
        MeanFewerLarger(total, |withRR|, |trades|);
      }
    }
    if forall i :: 0 <= i < |trades| ==> HasRiskReward(trades[i]) {
      assert withRR == trades by {
        FilterAll(trades, HasRiskReward);
      }
    }
  }

  /** One row of a statistics list: a name, a percentage (stored as `winRate`) and a count. */
  datatype StatModel = StatModel(name: string, winRate: real, count: int)

  function NameOf(m: StatModel): string { m.name }

  function CountOf(m: StatModel): real { m.count as real }

  /** The row for one group: its name, the percentage of its elements that win, and its size. */
  function GroupRow<T(==)>(name: string, group: seq<T>, win: T -> bool): StatModel {
    StatModel(name, Percent(|Filter(group, win)|, |group|), |group|)
  }

  /**
   * `Dictionary(grouping:)` followed by `compactMap`: one row per key, in the
   * model's key order, each for a non-empty group (so the `isEmpty` guard
   * never drops one) with the percentage of its elements that win.
   */
  function GroupStats<T(==), K(==)>(s: seq<T>, key: T -> K, name: K -> string, win: T -> bool): (r: seq<StatModel>)
    ensures |r| == |Keys(s, key)|
    ensures forall j :: 0 <= j < |r| ==> r[j] == GroupRow(name(Keys(s, key)[j]), Bucket(s, key, Keys(s, key)[j]), win)
    ensures forall j :: 0 <= j < |r| ==> r[j].count >= 1 && 0.0 <= r[j].winRate <= 100.0
  {
    var ks := Keys(s, key);
    BucketsNonEmpty(s, key);
    Map(ks, (k: K) => GroupRow(name(k), Bucket(s, key, k), win))
  }

  /** The rows of a grouping count every element once. */
  lemma GroupStatsCount<T, K>(s: seq<T>, key: T -> K, name: K -> string, win: T -> bool)
    ensures Sum(GroupStats(s, key, name, win), CountOf) == |s| as real
  {
    EntriesCount(s, key, (k: K) => GroupRow(name(k), Bucket(s, key, k), win), CountOf);
  }

  /** No two rows share a name when a key can be read back from its name. */
  lemma GroupStatsDistinct<T, K(!new)>(s: seq<T>, key: T -> K, name: K -> string, win: T -> bool, parse: string -> Option<K>)
    requires forall k :: parse(name(k)) == Some(k)
    ensures DistinctBy(GroupStats(s, key, name, win), NameOf)
  {
    var r := GroupStats(s, key, name, win);
    var ks := Keys(s, key);
    forall i, j | 0 <= i < j < |r| ensures NameOf(r[i]) != NameOf(r[j]) {
      assert ks[i] != ks[j];
      assert parse(r[i].name) == Some(ks[i]) && parse(r[j].name) == Some(ks[j]);
    }
  }

  /** Every element's key names some row. */
  lemma GroupStatsCover<T, K>(s: seq<T>, key: T -> K, name: K -> string, win: T -> bool)
    ensures forall i :: 0 <= i < |s| ==>
              exists j :: 0 <= j < |GroupStats(s, key, name, win)| && GroupStats(s, key, name, win)[j].name == name(key(s[i]))
  {
    var r := GroupStats(s, key, name, win);
    var ks := Keys(s, key);
    forall i | 0 <= i < |s| ensures exists j :: 0 <= j < |r| && r[j].name == name(key(s[i])) {
      var j :| 0 <= j < |ks| && ks[j] == key(s[i]);
      assert r[j].name == name(ks[j]);
    }
  }

  /**
   * When a key can be read back from its name, each row's name leads back to
   * its group: the row counts that group and gives the share of it that wins.
   */
  lemma GroupStatsParsed<T, K(!new)>(s: seq<T>, key: T -> K, name: K -> string, win: T -> bool, parse: string -> Option<K>)
    requires forall k :: parse(name(k)) == Some(k)
    ensures forall j :: 0 <= j < |GroupStats(s, key, name, win)| ==>
              var m := GroupStats(s, key, name, win)[j];
              && parse(m.name).Some?
              && var group := Bucket(s, key, parse(m.name).value);
              && m.count == |group| >= 1
              && m.winRate == Percent(|Filter(group, win)|, |group|)
  {
    var r := GroupStats(s, key, name, win);
    var ks := Keys(s, key);
    forall j | 0 <= j < |r| ensures parse(r[j].name) == Some(ks[j]) {
      assert r[j].name == name(ks[j]);
    }
  }

  function Identity(s: string): string { s }

  function TimeFrameName(f: TimeFrame): string { f.RawValue() }

  /**
   * `calculateStrategyStats`: one row per strategy among the trades, each
   * counting at least one trade and giving a win rate between 0 and 100.
   */
  function CalculateStrategyStats(filtered: seq<Trade>): (r: seq<StatModel>)
    ensures |r| == |Keys(filtered, StrategyOf)|
    ensures forall j :: 0 <= j < |r| ==> r[j].count >= 1 && 0.0 <= r[j].winRate <= 100.0
  {
    GroupStats(filtered, StrategyOf, Identity, IsWin)
  }

  /** No strategy has two rows. */
  lemma StrategyStatsDistinct(filtered: seq<Trade>)
    ensures DistinctBy(CalculateStrategyStats(filtered), NameOf)
  {
    GroupStatsDistinct(filtered, StrategyOf, Identity, IsWin, (name: string) => Some(name));
  }

  /** Every trade's strategy has a row. */
  lemma StrategyStatsCover(filtered: seq<Trade>)
    ensures var r := CalculateStrategyStats(filtered);
            forall i :: 0 <= i < |filtered| ==> exists j :: 0 <= j < |r| && r[j].name == filtered[i].strategy
  {
    var r := CalculateStrategyStats(filtered);
    GroupStatsCover(filtered, StrategyOf, Identity, IsWin);
    forall i | 0 <= i < |filtered| ensures exists j :: 0 <= j < |r| && r[j].name == filtered[i].strategy {
      assert Identity(StrategyOf(filtered[i])) == filtered[i].strategy;
    }
  }

  /** Each row counts the trades of its strategy and gives the share of them that win. */
  lemma StrategyStatsRows(filtered: seq<Trade>)
    ensures var r := CalculateStrategyStats(filtered);
            forall j :: 0 <= j < |r| ==>
              var group := Bucket(filtered, StrategyOf, r[j].name);
              && r[j].count == |group|
              && r[j].winRate == Percent(|Filter(group, IsWin)|, |group|)
  {
    GroupStatsParsed(filtered, StrategyOf, Identity, IsWin, (name: string) => Some(name));
  }

  /** The strategy rows' counts add up to the number of filtered trades. */
  lemma StrategyCountsSum(filtered: seq<Trade>)
    ensures Sum(CalculateStrategyStats(filtered), CountOf) == |filtered| as real
  {
    GroupStatsCount(filtered, StrategyOf, Identity, IsWin);
  }

  /**
   * `calculateTimeFrameStats`: one row per time frame among the trades, each
   * counting at least one trade and giving a win rate between 0 and 100.
   */
  function CalculateTimeFrameStats(filtered: seq<Trade>): (r: seq<StatModel>)
    ensures |r| == |Keys(filtered, TimeFrameOf)|
    ensures forall j :: 0 <= j < |r| ==> r[j].count >= 1 && 0.0 <= r[j].winRate <= 100.0
  {
    GroupStats(filtered, TimeFrameOf, TimeFrameName, IsWin)
  }

  /** A time frame's raw value reads back as that time frame. */
  lemma TimeFrameNamesParse()
    ensures forall f: TimeFrame :: TimeFrameFromRaw(TimeFrameName(f)) == Some(f)
  {
    RawValueRoundTrip();
  }

  /** No time frame has two rows. */
  lemma TimeFrameStatsDistinct(filtered: seq<Trade>)
    ensures DistinctBy(CalculateTimeFrameStats(filtered), NameOf)
  {
    TimeFrameNamesParse();
    GroupStatsDistinct(filtered, TimeFrameOf, TimeFrameName, IsWin, TimeFrameFromRaw);
  }

  /** Every trade's time frame has a row, named by its raw value. */
  lemma TimeFrameStatsCover(filtered: seq<Trade>)
    ensures var r := CalculateTimeFrameStats(filtered);
            forall i :: 0 <= i < |filtered| ==>
              exists j :: 0 <= j < |r| && r[j].name == filtered[i].timeFrame.RawValue()
  {
    var r := CalculateTimeFrameStats(filtered);
    GroupStatsCover(filtered, TimeFrameOf, TimeFrameName, IsWin);
    forall i | 0 <= i < |filtered| ensures exists j :: 0 <= j < |r| && r[j].name == filtered[i].timeFrame.RawValue() {
      assert TimeFrameName(TimeFrameOf(filtered[i])) == filtered[i].timeFrame.RawValue();
    }
  }

  /** Each row's name is a time frame's raw value; the row counts its trades and gives the share of them that win. */
  lemma TimeFrameStatsRows(filtered: seq<Trade>)
    ensures var r := CalculateTimeFrameStats(filtered);
            forall j :: 0 <= j < |r| ==>
              && TimeFrameFromRaw(r[j].name).Some?
              && var group := Bucket(filtered, TimeFrameOf, TimeFrameFromRaw(r[j].name).value);
              && r[j].count == |group|
              && r[j].winRate == Percent(|Filter(group, IsWin)|, |group|)
  {
    TimeFrameNamesParse();
    GroupStatsParsed(filtered, TimeFrameOf, TimeFrameName, IsWin, TimeFrameFromRaw);
  }

  /** The time-frame rows' counts add up to the number of filtered trades. */
  lemma TimeFrameCountsSum(filtered: seq<Trade>)
    ensures Sum(CalculateTimeFrameStats(filtered), CountOf) == |filtered| as real
  {
    GroupStatsCount(filtered, TimeFrameOf, TimeFrameName, IsWin);
  }

  /** The four profit/loss bands of the distribution. */
  predicate LargeWin(t: Trade) { ProfitLoss(t) > 100.0 }
  predicate SmallWin(t: Trade) { ProfitLoss(t) > 0.0 && ProfitLoss(t) <= 100.0 }
  predicate SmallLoss(t: Trade) { ProfitLoss(t) < 0.0 && ProfitLoss(t) >= -100.0 }
  predicate LargeLoss(t: Trade) { ProfitLoss(t) < -100.0 }

  /** The bands in the order the distribution lists them: 0 to 3; any other index holds no trade. */
  function Band(j: nat): Trade -> bool {
    if j == 0 then LargeWin
    else if j == 1 then SmallWin
    else if j == 2 then SmallLoss
    else if j == 3 then LargeLoss
    else (t: Trade) => false
  }

  function BandName(j: nat): string {
    if j == 0 then "Large Win"
    else if j == 1 then "Small Win"
    else if j == 2 then "Small Loss"
    else if j == 3 then "Large Loss"
    else ""
  }

  const BandCount: nat := 4

  const BandIndices: seq<nat> := [0, 1, 2, 3]

  /** A band's place in the fixed order, from its name; 4 for a name that is not a band's. */
  function BandRank(name: string): (r: nat)
    ensures forall j :: 0 <= j < BandCount ==> (r == j <==> name == BandName(j))
  {
    if name == "Large Win" then 0
    else if name == "Small Win" then 1
    else if name == "Small Loss" then 2
    else if name == "Large Loss" then 3
    else 4
  }

  /** At most one band holds for a trade, and none for a trade that breaks even. */
  lemma BandsDisjoint(t: Trade)
    ensures forall i, j :: 0 <= i < j < BandCount ==> !(Band(i)(t) && Band(j)(t))
    ensures ProfitLoss(t) == 0.0 ==> forall j :: 0 <= j < BandCount ==> !Band(j)(t)
  {
  }

  /** A band's row: its name, the share of the trades in it as a percentage, and their number. */
  function BandRow(filtered: seq<Trade>): nat -> StatModel {
    (j: nat) => StatModel(BandName(j), Percent(|Filter(filtered, Band(j))|, |filtered|), |Filter(filtered, Band(j))|)
  }

  predicate HasTrades(m: StatModel) { m.count > 0 }

  /** Every band's row, in the fixed order, before the empty ones are dropped. */
  function BandRows(filtered: seq<Trade>): (r: seq<StatModel>)
    ensures |r| == BandCount
    ensures forall j :: 0 <= j < |r| ==> r[j] == BandRow(filtered)(j) && BandRank(r[j].name) == j
  {
    Map(BandIndices, BandRow(filtered))
  }

  /**
   * `calculateTradeDistribution`: nothing for no trades; otherwise one row per
   * band that holds a trade, in the fixed band order, each with its share of
   * all the trades as a percentage.
   */
  function CalculateTradeDistribution(filtered: seq<Trade>): (r: seq<StatModel>)
    ensures filtered == [] ==> r == []
    ensures forall i, j :: 0 <= i < j < |r| ==> BandRank(r[i].name) < BandRank(r[j].name)
    ensures forall i :: 0 <= i < |r| ==> BandRank(r[i].name) < BandCount && r[i] == BandRow(filtered)(BandRank(r[i].name))
    ensures forall i :: 0 <= i < |r| ==> r[i].count >= 1 && r[i].winRate == Percent(r[i].count, |filtered|)
    ensures forall j :: 0 <= j < BandCount && |Filter(filtered, Band(j))| > 0 ==> BandRow(filtered)(j) in r
  {
    if filtered == [] then []
    else
      var rows := BandRows(filtered);
      var r := Filter(rows, HasTrades);
      FilterIsSubsequence(rows, HasTrades);
      SubsequenceRanked(r, rows, (m: StatModel) => BandRank(m.name));
      r
  }

  predicate IsFlat(t: Trade) { ProfitLoss(t) == 0.0 }
  predicate IsDecided(t: Trade) { ProfitLoss(t) != 0.0 }

  /** The number of trades in some band: every trade except those that break even. */
  lemma BandedCount(filtered: seq<Trade>)
    ensures |Filter(filtered, LargeWin)| + |Filter(filtered, SmallWin)| + |Filter(filtered, SmallLoss)|
            + |Filter(filtered, LargeLoss)| == |filtered| - |Filter(filtered, IsFlat)|
  {
    FilterCountSplit(filtered, LargeWin, SmallWin, IsWin);
    FilterCountSplit(filtered, SmallLoss, LargeLoss, IsLoss);
    FilterCountSplit(filtered, IsWin, IsLoss, IsDecided);
    FilterCountSplit(filtered, IsDecided, IsFlat, (t: Trade) => true);
    FilterAll(filtered, (t: Trade) => true);
  }

  /**
   * The distribution's counts add up to the number of trades that do not
   * break even, so never to more than all the trades.
   */
  lemma DistributionCounts(filtered: seq<Trade>)
    ensures Sum(CalculateTradeDistribution(filtered), CountOf) == (|filtered| - |Filter(filtered, IsFlat)|) as real
    ensures Sum(CalculateTradeDistribution(filtered), CountOf) <= |filtered| as real
  {
    if filtered != [] {
      var rows := BandRows(filtered);
      SumFilterZero(rows, HasTrades, CountOf);
      SumFour(rows, CountOf);
      BandedCount(filtered);
    } else {
      assert Filter(filtered, IsFlat) == [];
    }
  }
}
