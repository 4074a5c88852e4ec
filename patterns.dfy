/**
 * The Patterns screen of `AnalysisSection.swift`: the trades grouped by
 * strategy, each group with its success rate, totals and win streaks, the
 * groups listed from the highest success rate down.
 */
module Patterns {
  import opened Seqs
  import opened Numbers
  import opened Trades
  import opened Grouping
  import opened Runs
  import TradeAnalytics

  // ---------------------------------------------------------------------
  // The two date orders the streak loops sort by.

  /** `$0.date < $1.date`, as the order a stable sort respects: oldest first. */
  predicate DateLe(a: Trade, b: Trade) { a.date <= b.date }

  /** `$0.date > $1.date`, as the order a stable sort respects: most recent first. */
  predicate DateGe(a: Trade, b: Trade) { a.date >= b.date }

  lemma DateOrders()
    ensures TotalPreorder(DateLe) && TotalPreorder(DateGe)
  {
  }

  /** The trades sorted oldest first; trades of the same date keep their order. */
  function Oldest(trades: seq<Trade>): (r: seq<Trade>)
    ensures SortedBy(r, DateLe)
    ensures multiset(r) == multiset(trades) && |r| == |trades|
  {
    DateOrders();
    Sort(trades, DateLe)
  }

  /** The trades sorted most recent first; trades of the same date keep their order. */
  function Newest(trades: seq<Trade>): (r: seq<Trade>)
    ensures SortedBy(r, DateGe)
    ensures multiset(r) == multiset(trades) && |r| == |trades|
  {
    DateOrders();
    Sort(trades, DateGe)
  }

  // ---------------------------------------------------------------------
  // Win streaks.

  /** The longest run of consecutive winning trades, in date order. */
  function MaxWinStreakOf(trades: seq<Trade>): nat {
    LongestRun(Oldest(trades), IsWin)
  }

  /** The run of winning trades that ends with the most recent trade. */
  function CurrentWinStreakOf(trades: seq<Trade>): nat {
    LeadingRun(Newest(trades), IsWin)
  }

  /**
   * `calculateMaxWinStreak`: sort the trades oldest first and walk them
   * (`LongestWinStreak`). The result is the length of a run of wins in date
   * order, and no run of wins is longer.
   */
  method CalculateMaxWinStreak(trades: seq<Trade>) returns (maxStreak: nat)
    ensures maxStreak == MaxWinStreakOf(trades)
    ensures exists i :: IsRun(Oldest(trades), IsWin, i, maxStreak)
    ensures forall i, n :: IsRun(Oldest(trades), IsWin, i, n) ==> n <= maxStreak
  {
    var sorted := Oldest(trades);
    maxStreak := LongestWinStreak(sorted);
    LongestRunIsLongestOfAll(sorted, IsWin);
  }

  /**
   * The loop of `calculateMaxWinStreak` over the sorted trades: count the
   * current run of wins, restart it on any other trade, and keep the largest
   * count seen.
   */
  method LongestWinStreak(sorted: seq<Trade>) returns (maxStreak: nat)
    ensures maxStreak == LongestRun(sorted, IsWin)
  {
    var currentStreak: nat := 0;
    maxStreak := 0;
    for k := 0 to |sorted|
      invariant currentStreak == TrailingRun(sorted[..k], IsWin)
      invariant maxStreak == LongestRun(sorted[..k], IsWin)
    {
      StreakStep(sorted, k, currentStreak, maxStreak);
      if ProfitLoss(sorted[k]) > 0.0 {
        currentStreak := currentStreak + 1;
        maxStreak := if currentStreak >= maxStreak then currentStreak else maxStreak;
      } else {
        currentStreak := 0;
      }
    }
    assert sorted[..|sorted|] == sorted;
  }

  /** One more trade: the trailing run grows by one on a win and restarts on anything else, and the longest run keeps up. */
  lemma StreakStep(s: seq<Trade>, k: nat, current: nat, longest: nat)
    requires k < |s|
    requires current == TrailingRun(s[..k], IsWin) && longest == LongestRun(s[..k], IsWin)
    ensures TrailingRun(s[..k + 1], IsWin) == if IsWin(s[k]) then current + 1 else 0
    ensures LongestRun(s[..k + 1], IsWin) ==
              if IsWin(s[k]) && current + 1 >= longest then current + 1 else longest
  {
    assert s[..k + 1][..k] == s[..k];
  }

  /**
   * `calculateCurrentWinStreak`: walk the trades most recent first and count
   * wins until the first trade that is not a win. The result is the length
   * of the run of wins the newest trade starts, and the trade after it, if
   * any, is not a win.
   */
  method CalculateCurrentWinStreak(trades: seq<Trade>) returns (streak: nat)
    ensures streak == CurrentWinStreakOf(trades)
    ensures IsRun(Newest(trades), IsWin, 0, streak)
    ensures streak < |trades| ==> !IsWin(Newest(trades)[streak])
  {
    var sortedTrades := Newest(trades);
    streak := 0;
    while streak < |sortedTrades|
      invariant IsRun(sortedTrades, IsWin, 0, streak)
    {
      if ProfitLoss(sortedTrades[streak]) > 0.0 {
        streak := streak + 1;
      } else {
        break;
      }
    }
    LeadingRunUnique(sortedTrades, IsWin, streak);
  }

  /** The longest streak fits in the trades, and is 0 exactly when no trade is a win. */
  lemma MaxWinStreakBounds(trades: seq<Trade>)
    ensures MaxWinStreakOf(trades) <= |trades|
    ensures MaxWinStreakOf(trades) == 0 <==> forall i :: 0 <= i < |trades| ==> !IsWin(trades[i])
  {
    var sorted := Oldest(trades);
    LongestRunBounds(sorted, IsWin);
    FilterPermutation(sorted, trades, IsWin);
    FilterNoneIff(sorted, IsWin);
    FilterNoneIff(trades, IsWin);
  }

  /** No element satisfies `p` exactly when filtering by `p` leaves nothing. */
  lemma FilterNoneIff<T>(s: seq<T>, p: T -> bool)
    ensures |Filter(s, p)| == 0 <==> forall i :: 0 <= i < |s| ==> !p(s[i])
  {
    if |Filter(s, p)| != 0 {
      assert Filter(s, p)[0] in s;
    }
  }

  /** The current streak counts winning trades only, so it is at most the number of wins. */
  lemma CurrentWinStreakAtMostWins(trades: seq<Trade>)
    ensures CurrentWinStreakOf(trades) <= |Filter(trades, IsWin)|
  {
    var sorted := Newest(trades);
    LeadingRunAtMostCount(sorted, IsWin);
    FilterPermutation(sorted, trades, IsWin);
  }

  /**
   * When no two trades share a date, the most recent first order is the
   * oldest first order backwards, so the current streak is the run that ends
   * the date order and no longer than the longest streak.
   */
  lemma CurrentAtMostMax(trades: seq<Trade>)
    requires DistinctBy(trades, DateOf)
    ensures CurrentWinStreakOf(trades) <= MaxWinStreakOf(trades)
  {
    var asc := Oldest(trades);
    var desc := Newest(trades);
    NewestIsOldestReversed(trades);
    LeadingIsTrailingReversed(desc, IsWin);
    var t := TrailingRun(asc, IsWin);
    TrailingRunIsRun(asc, IsWin);
    LongestRunIsLongest(asc, IsWin, |asc| - t, t);
  }

  /** With distinct dates, the two sorts are mirror images. */
  lemma NewestIsOldestReversed(trades: seq<Trade>)
    requires DistinctBy(trades, DateOf)
    ensures Reverse(Newest(trades)) == Oldest(trades)
  {
    var asc := Oldest(trades);
    var desc := Newest(trades);
    DistinctByPermutation(trades, asc, DateOf);
    DistinctByPermutation(trades, desc, DateOf);
    ReverseMultiset(desc);
    AscendingIncreasing(asc);
    DescendingReversedIncreasing(desc);
    IncreasingUnique(Reverse(desc), asc, DateOf);
  }

  /** Oldest first with no two dates equal: the dates strictly increase. */
  lemma AscendingIncreasing(asc: seq<Trade>)
    requires SortedBy(asc, DateLe) && DistinctBy(asc, DateOf)
    ensures IncreasingBy(asc, DateOf)
  {
    forall i, j | 0 <= i < j < |asc| ensures asc[i].date < asc[j].date {
      assert DateLe(asc[i], asc[j]) && DateOf(asc[i]) != DateOf(asc[j]);
    }
  }

  /** Most recent first with no two dates equal: read backwards, the dates strictly increase. */
  lemma DescendingReversedIncreasing(desc: seq<Trade>)
    requires SortedBy(desc, DateGe) && DistinctBy(desc, DateOf)
    ensures IncreasingBy(Reverse(desc), DateOf)
  {
    var back := Reverse(desc);
    var n := |desc|;
    forall i, j | 0 <= i < j < |back| ensures back[i].date < back[j].date {
      assert back[i] == desc[n - 1 - i] && back[j] == desc[n - 1 - j];
      assert DateGe(desc[n - 1 - j], desc[n - 1 - i]) && DateOf(desc[n - 1 - j]) != DateOf(desc[n - 1 - i]);
    }
  }

  // ---------------------------------------------------------------------
  // getPatternStats

  /** One strategy's row on the Patterns screen. */
  datatype PatternStatistics = PatternStatistics(
    pattern: string,
    successRate: real,
    totalTrades: nat,
    currentWinStreak: nat,
    maxWinStreak: nat,
    averageProfit: real,
    totalProfitLoss: real)

  function PatternOf(p: PatternStatistics): string { p.pattern }

  function TradesOf(p: PatternStatistics): real { p.totalTrades as real }

  function PatternTotalOf(p: PatternStatistics): real { p.totalProfitLoss }

  /** The statistics of a strategy's group of trades. */
  function PatternRow(trades: seq<Trade>): string -> PatternStatistics {
    (pattern: string) =>
      var group := Bucket(trades, StrategyOf, pattern);
      var totalPL := Reduce(0.0, group, ProfitLoss);
      PatternStatistics(
        pattern,
        Percent(|Filter(group, IsWin)|, |group|),
        |group|,
        CurrentWinStreakOf(group),
        MaxWinStreakOf(group),
        Mean(Reduce(0.0, group, ProfitLoss), |group|),
        totalPL)
  }

  /** `$0.successRate > $1.successRate`, as the order a stable sort respects. */
  predicate SuccessGe(a: PatternStatistics, b: PatternStatistics) { a.successRate >= b.successRate }

  lemma SuccessGeTotalPreorder()
    ensures TotalPreorder(SuccessGe)
  {
  }

  /**
   * `getPatternStats`: one row per strategy among the trades, no strategy
   * twice, from the highest success rate to the lowest.
   */
  function GetPatternStats(trades: seq<Trade>): (r: seq<PatternStatistics>)
    ensures |r| == |Keys(trades, StrategyOf)|
    ensures forall i, j :: 0 <= i < j < |r| ==> r[i].successRate >= r[j].successRate
    ensures forall i, j :: 0 <= i < j < |r| ==> r[i].pattern != r[j].pattern
    ensures forall i :: 0 <= i < |trades| ==> trades[i].strategy in Map(r, PatternOf)
  {
    SuccessGeTotalPreorder();
    SortedEntries(trades, StrategyOf, PatternRow(trades), PatternOf, SuccessGe)
  }

  /**
   * Each row describes the trades of its strategy: there is at least one,
   * the success rate is the percentage of them that won, the totals and the
   * average are over them, and the streaks are theirs.
   */
  lemma PatternStatsRows(trades: seq<Trade>)
    ensures var r := GetPatternStats(trades);
            forall j :: 0 <= j < |r| ==>
              && |Bucket(trades, StrategyOf, r[j].pattern)| >= 1
              && r[j] == PatternRow(trades)(r[j].pattern)
  {
    SuccessGeTotalPreorder();
    var r := SortedEntries(trades, StrategyOf, PatternRow(trades), PatternOf, SuccessGe);
    forall j | 0 <= j < |r|
      ensures |Bucket(trades, StrategyOf, r[j].pattern)| >= 1 && r[j] == PatternRow(trades)(r[j].pattern)
    {
      assert PatternOf(r[j]) == r[j].pattern;
    }
  }

  /**
   * The row of a strategy with at least one trade: its count is the size of
   * the group, its success rate the percentage of the group that won, its
   * total and average the group's, its streaks the group's and within the
   * group's size and wins.
   */
  lemma PatternRowFacts(trades: seq<Trade>, pattern: string)
    requires |Bucket(trades, StrategyOf, pattern)| >= 1
    ensures var group := Bucket(trades, StrategyOf, pattern);
            var row := PatternRow(trades)(pattern);
            && row.pattern == pattern
            && row.totalTrades == |group|
            && row.successRate == |Filter(group, IsWin)| as real / |group| as real * 100.0
            && 0.0 <= row.successRate <= 100.0
            && row.totalProfitLoss == Sum(group, ProfitLoss)
            && row.averageProfit == row.totalProfitLoss / |group| as real
            && row.currentWinStreak == CurrentWinStreakOf(group) <= |Filter(group, IsWin)|
            && row.maxWinStreak == MaxWinStreakOf(group) <= row.totalTrades
  {
    var group := Bucket(trades, StrategyOf, pattern);
    FilterLength(group, IsWin);
    MaxWinStreakBounds(group);
    CurrentWinStreakAtMostWins(group);
  }

  /** The rows' counts add up to the number of trades. */
  lemma PatternCountsSum(trades: seq<Trade>)
    ensures Sum(GetPatternStats(trades), TradesOf) == |trades| as real
  {
    SuccessGeTotalPreorder();
    SortedEntriesCount(trades, StrategyOf, PatternRow(trades), PatternOf, SuccessGe, TradesOf);
  }

  /** The rows' totals add up to the total profit/loss of all the trades. */
  lemma PatternTotalsSum(trades: seq<Trade>)
    ensures Sum(GetPatternStats(trades), PatternTotalOf) == TradeAnalytics.TotalProfitLoss(trades)
  {
    SuccessGeTotalPreorder();
    SortedEntriesSum(trades, StrategyOf, PatternRow(trades), PatternOf, SuccessGe, PatternTotalOf, ProfitLoss);
  }
}
