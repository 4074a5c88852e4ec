# tradeJournal trade analytics, in Dafny

tradeJournal is a SwiftUI journal for crypto trades. Each `Trade` records a
pair, a side, entry and exit prices, quantity, stops, fee rate and leverage,
and some tags. From these the app derives the profit or loss, the risk, the
reward and the risk/reward ratio. The screens then aggregate the journal:
- totals, win rate, profit factor and average risk/reward;
- per-symbol statistics cached by the trade list;
- period, strategy and time-frame filters and breakdowns;
- monthly bars;
- pattern statistics with win streaks;
- maximum drawdown;
- the risk histogram;
- the cumulative equity curve with its drag selection.

Around this sit the new-trade form, the decimal text field and the Core Data
record that stores a trade.

This project models that core. Its modules follow the Swift files:

| module | Swift source |
|---|---|
| `Trades` | the trade record and its computed properties |
| `TradeAnalytics` | the journal's total profit/loss and win rate |
| `TradeList` | the trade list view model: date filter, per-symbol cache, summary statistics |
| `ContentView` | the summary cards |
| `TradeAnalysis` | the analysis screen: period filter, per-strategy and per-time-frame statistics, profit distribution |
| `Analysis`, `Patterns`, `Risk` | the Performance, Patterns and Risk screens |
| `Equity` | the equity curve |
| `DecimalInput` | the decimal text field |
| `AddTrade` | the new-trade form |
| `Storage` | the stored trade record and the replace-or-append load |

Helper modules:
- `Wrappers`: an Option type.
- `Seqs`: filter, sum, stable sort, with their lemmas.
- `Numbers`: absolute value, percentages, rounding.
- `Grouping`: `Dictionary(grouping:)`.
- `Runs`: runs of consecutive matching elements.

Representation:
- `Double` is an exact `real`.
- A `Date` is an `int` count of seconds.
- A `UUID` is a `nat`.

Foreign calls become parameters:
- The calendar's period starts and day cutoffs.
- The date formatter's month labels.
- The current date and a fresh id.
- `Double(String)`.
- The fetch's result.

Objects whose methods change their fields are classes:
- the trade list view model;
- the form;
- the stored record;
- the storage manager;
- the equity curve's selection state.

The loops of the streak, drawdown, symbol-statistics and equity-curve code are
methods with loop invariants. Each is proved equal to a specification
function, and the function's properties are proved as lemmas.

## Model

| member | source | states |
|---|---|---|
| Trades.TradeSideFromRaw | journalApp/journalApp/Core/Models/Trade.swift:103-106 | the side whose raw string is the input and none for any other string; each side is found from its own raw string |
| Trades.TimeFrameFromRaw | journalApp/journalApp/Core/Models/Trade.swift:108-117 | the time frame whose raw string ("1m" … "1w") is the input, none otherwise; each time frame is found from its raw string |
| Trades.ConfidenceFromRaw | journalApp/journalApp/Core/Models/Trade.swift:119-123 | the confidence level whose raw string is the input, none otherwise |
| Trades.SetupQualityFromRaw | journalApp/journalApp/Core/Models/Trade.swift:125-129 | the setup quality whose raw string is the input, none otherwise |
| Trades.MarketConditionFromRaw | journalApp/journalApp/Core/Models/Trade.swift:131-135 | the market condition whose raw string is the input, none otherwise |
| Trades.RawValueRoundTrip | journalApp/journalApp/Core/Models/Trade.swift:103-135 | the raw strings of each enumeration are distinct: every case read back from its raw string is that case |
| Trades.NewTrade | journalApp/journalApp/Core/Models/Trade.swift:63-99 | the initializer keeps every argument and fills in its defaults: one-hour time frame, fee rate 0.1, leverage 1, medium confidence, good setup, neutral market, empty emotions |
| Trades.RawProfitLoss | journalApp/journalApp/Core/Models/Trade.swift:52-55 | the raw result is non-negative for a long whose exit is at or above its entry and for a short whose exit is at or below it |
| Trades.ShortMirrorsLong | journalApp/journalApp/Core/Models/Trade.swift:52-55 | on the same prices and quantity a short's raw result is the negation of a long's |
| Trades.TotalFees | journalApp/journalApp/Core/Models/Trade.swift:57-60 | fees are non-negative for a non-negative rate, prices and quantity |
| Trades.ProfitLoss | journalApp/journalApp/Core/Models/Trade.swift:33-37 | without fees the result is the leveraged raw result; with a non-negative fee rate, prices and quantity the fees only lower it |
| Trades.SidesShareFees | journalApp/journalApp/Core/Models/Trade.swift:33-60 | the fees do not depend on the side: the long and the short version of a trade together lose exactly twice its fees |
| Trades.RiskAmount | journalApp/journalApp/Core/Models/Trade.swift:39-41 | the risk is non-negative for non-negative quantity and leverage, and 0 when the stop loss is at the entry |
| Trades.RewardAmount | journalApp/journalApp/Core/Models/Trade.swift:43-45 | the reward is non-negative for non-negative quantity and leverage, and 0 when the take profit is at the entry |
| Trades.RiskRewardRatio | journalApp/journalApp/Core/Models/Trade.swift:47-49 | the ratio is 0 when the risk is 0 and is never negative, whatever the signs of quantity and leverage |
| Trades.RiskRewardRatioScales | journalApp/journalApp/Core/Models/Trade.swift:47-49 | away from the zero guard the ratio times the risk is the reward |
| Trades.SampleTrades | journalApp/journalApp/Core/ViewModels/TradeListViewModel.swift:136-156 | the two seeded trades, each with its own id and date: a long BTC/USDT trend-following trade and a short ETH/USDT price-action trade, both with the default fee and leverage |
| Trades.SampleTradesProfit | journalApp/journalApp/Core/ViewModels/TradeListViewModel.swift:136-156 | the seeded trades make 141.45 and 45.65 and both have a risk/reward ratio of 2 |
| TradeAnalytics.TotalProfitLoss | journalApp/journalApp/Core/ViewModels/TradeAnalytics.swift:14-16 | the left fold from 0 is the sum of the trades' profit/loss: 0 for no trades, non-negative when no trade loses |
| TradeAnalytics.TotalProfitLossPermutation | journalApp/journalApp/Core/ViewModels/TradeAnalytics.swift:14-16 | the total does not depend on the order of the trades |
| TradeAnalytics.TotalProfitLossAppend | journalApp/journalApp/Core/ViewModels/TradeAnalytics.swift:14-16 | the total of two lists one after the other is the sum of their totals |
| TradeAnalytics.WinRate | journalApp/journalApp/Core/ViewModels/TradeAnalytics.swift:18-21 | a percentage between 0 and 100; 0 for no trades; 100 exactly when every trade wins; 0 exactly when none does |
| TradeAnalytics.WinRatePermutation | journalApp/journalApp/Core/ViewModels/TradeAnalytics.swift:18-21 | the win rate does not depend on the order of the trades |
| TradeAnalytics.SampleJournal | journalApp/journalApp/Core/ViewModels/TradeAnalytics.swift:14-21 | the two seeded trades total 187.10 at a 100 % win rate |
| TradeList.DateFilter.DaysBack | journalApp/journalApp/Core/ViewModels/TradeListViewModel.swift:33-42 | 7, 30, 90, 180 and 365 days for the five windows and none exactly for all time |
| TradeList.DaysBackIncreasing | journalApp/journalApp/Core/ViewModels/TradeListViewModel.swift:25-42 | each window in picker order looks strictly further back than the one before |
| TradeList.CutoffWindowsNest | journalApp/journalApp/Core/ViewModels/TradeListViewModel.swift:195-199 | a later cutoff keeps a subset of what an earlier one keeps: filtering the wider window gives the narrower one |
| TradeList.SymbolStatsOf | journalApp/journalApp/Core/ViewModels/TradeListViewModel.swift:164-178 | a symbol's entry counts its trades, holds their summed profit/loss, the same win rate `TradeAnalytics` computes, and an average equal to the total over the count |
| TradeList.SymbolsToUpdate | journalApp/journalApp/Core/ViewModels/TradeListViewModel.swift:162 | the one symbol asked for, or exactly the symbols of the listed trades |
| TradeList.StatsFor | journalApp/journalApp/Core/ViewModels/TradeListViewModel.swift:165-166 | the empty-list guard: an entry exactly when storage returns trades for the symbol, and then a valid one |
| TradeList.RecomputedValid | journalApp/journalApp/Core/ViewModels/TradeListViewModel.swift:164-178 | every entry computed from storage is valid, and one exists exactly when storage has trades for the symbol |
| TradeList.UpdatedStats | journalApp/journalApp/Core/ViewModels/TradeListViewModel.swift:164-179 | after visiting the symbols, a visited symbol with stored trades has its fresh entry and every other entry is unchanged |
| TradeList.UpdateTouchesOnlyItsSymbol | journalApp/journalApp/Core/ViewModels/TradeListViewModel.swift:161-179 | updating one symbol touches that key only; with no stored trades for it the cache is unchanged, so a stale entry survives |
| TradeList.UpdatePreservesValidity | journalApp/journalApp/Core/ViewModels/TradeListViewModel.swift:164-179 | updating a valid cache from storage leaves it valid |
| TradeList.UpdatedStatsStep | journalApp/journalApp/Core/ViewModels/TradeListViewModel.swift:164-179 | visiting one more symbol is one more map update (or none when storage has nothing for it) |
| TradeList.VisitStep | journalApp/journalApp/Core/ViewModels/TradeListViewModel.swift:164-179 | the loop's step: taking a symbol off those still to visit is one map update |
| TradeList.GrossProfit | journalApp/journalApp/Core/ViewModels/TradeListViewModel.swift:212 | gross profit is non-negative and 0 exactly when no trade wins |
| TradeList.GrossLoss | journalApp/journalApp/Core/ViewModels/TradeListViewModel.swift:213 | gross loss, as a positive amount, is 0 exactly when no trade loses |
| TradeList.ProfitFactorOf | journalApp/journalApp/Core/ViewModels/TradeListViewModel.swift:211-215 | the factor is non-negative, 0 exactly when there is no losing or no winning trade, and otherwise gross profit over gross loss |
| TradeList.AverageRiskRewardOf | journalApp/journalApp/Core/ViewModels/TradeListViewModel.swift:217-219 | the mean ratio over all trades, zero ratios included; 0 for no trades; never negative |
| TradeList.TopEntriesFromCache | journalApp/journalApp/Core/ViewModels/TradeListViewModel.swift:182-188 | every listed entry is an entry of the cache |
| TradeList.TopEntriesBusiest | journalApp/journalApp/Core/ViewModels/TradeListViewModel.swift:182-188 | no cached symbol left out of the first n entries sorted by trade count has more trades than a listed one |
| TradeList.TradeListViewModel.constructor | journalApp/journalApp/Core/ViewModels/TradeListViewModel.swift:54-70 | after loading, the list is what storage loaded and the filter shows all time; the cache holds a valid entry for every symbol of the loaded list that storage returns trades for, and nothing else |
| TradeList.TradeListViewModel.UpdateSymbolStats | journalApp/journalApp/Core/ViewModels/TradeListViewModel.swift:161-180 | the cache becomes the update of the old cache over the visited symbols; the list and the filter are unchanged and every entry stays valid |
| TradeList.TradeListViewModel.AddTrade | journalApp/journalApp/Core/ViewModels/TradeListViewModel.swift:117-121 | the list becomes what storage holds and only the trade's symbol is recomputed |
| TradeList.TradeListViewModel.DeleteTrade | journalApp/journalApp/Core/ViewModels/TradeListViewModel.swift:123-126 | only the trade's symbol is recomputed and the list is not refreshed; with nothing left in storage for the symbol the cache keeps its old entry |
| TradeList.TradeListViewModel.GetSymbolStats | journalApp/journalApp/Core/ViewModels/TradeListViewModel.swift:190-192 | the cached entry exactly when the symbol is cached, and a valid one in a valid cache |
| TradeList.TradeListViewModel.Entries | journalApp/journalApp/Core/ViewModels/TradeListViewModel.swift:183-184 | one entry per cached symbol, each carrying that symbol's statistics, no symbol twice |
| TradeList.TradeListViewModel.GroupTradesBySymbol | journalApp/journalApp/Core/ViewModels/TradeListViewModel.swift:182-188 | at most ten cached entries, no symbol twice, busiest first, and no symbol left out has more trades than one shown |
| TradeList.TradeListViewModel.FilteredTrades | journalApp/journalApp/Core/ViewModels/TradeListViewModel.swift:195-199 | all trades for all time; otherwise, in order, exactly the trades dated at or after the cutoff, each as often as in the list |
| TradeList.TradeListViewModel.TotalProfitLoss | journalApp/journalApp/Core/ViewModels/TradeListViewModel.swift:202-204 | the sum of the list's profit/loss, equal to `TradeAnalytics`' total |
| TradeList.TradeListViewModel.WinRate | journalApp/journalApp/Core/ViewModels/TradeListViewModel.swift:206-209 | a percentage equal to `TradeAnalytics`' win rate; 0 for an empty list |
| TradeList.TradeListViewModel.ProfitFactor | journalApp/journalApp/Core/ViewModels/TradeListViewModel.swift:211-215 | non-negative, 0 when no trade loses, and equal to the profit factor of the list |
| TradeList.TradeListViewModel.AverageRiskRewardRatio | journalApp/journalApp/Core/ViewModels/TradeListViewModel.swift:217-219 | the mean ratio over every trade; 0 for an empty list; never negative |
| TradeList.SeedTrades | journalApp/journalApp/Core/ViewModels/TradeListViewModel.swift:60-66 | the two sample trades are handed to storage exactly when storage loaded nothing |
| ContentView.CalculateTotalPL | journalApp/journalApp/ContentView.swift:96-98 | the card's total is the sum of the list's profit/loss, the view model's total, non-negative when no trade loses |
| ContentView.CalculateWinRate | journalApp/journalApp/ContentView.swift:100-103 | the card's win rate is a percentage, 0 for no trades, equal to the view model's win rate |
| ContentView.CalculateProfitFactor | journalApp/journalApp/ContentView.swift:105-109 | the card's profit factor is non-negative, 0 when no trade loses, and equal to the view model's profit factor |
| ContentView.CalculateAverageRR | journalApp/journalApp/ContentView.swift:111-113 | the card's average ratio is non-negative, 0 for no trades, and equal to the view model's average |
| TradeAnalysis.IsTradeInSelectedPeriod | journalApp/journalApp/Core/Views/Trades/TradeAnalysisView.swift:318-337 | "All Time", like any label without a calendar period, reaches back to the distant past |
| TradeAnalysis.PeriodsNest | journalApp/journalApp/Core/Views/Trades/TradeAnalysisView.swift:318-337 | with a chronological calendar the periods nest: Week within Month within Quarter within Year within All Time |
| TradeAnalysis.FilteredTrades | journalApp/journalApp/Core/Views/Trades/TradeAnalysisView.swift:46-53 | in their original order, exactly the trades of the selected time frame, of the selected strategy (any for "All") and dated at or after the period's start, each as often as in the list |
| TradeAnalysis.OnlyTimeFrameFilters | journalApp/journalApp/Core/Views/Trades/TradeAnalysisView.swift:46-53 | with strategy "All" over all time, only the time frame filters |
| TradeAnalysis.CalculateTotalPL | journalApp/journalApp/Core/Views/Trades/TradeAnalysisView.swift:252-254 | the filtered total equals `TradeAnalytics`' total of the filtered trades |
| TradeAnalysis.CalculateWinRate | journalApp/journalApp/Core/Views/Trades/TradeAnalysisView.swift:256-259 | a percentage, 0 for no trades, equal to `TradeAnalytics`' win rate |
| TradeAnalysis.CalculateAverageTradeAmount | journalApp/journalApp/Core/Views/Trades/TradeAnalysisView.swift:261-263 | 0 for no trades, otherwise the total over the number of trades |
| TradeAnalysis.CalculateLargestWin | journalApp/journalApp/Core/Views/Trades/TradeAnalysisView.swift:265-268 | non-negative; 0 exactly when no trade wins; no trade made more; a positive result is some winning trade's profit |
| TradeAnalysis.CalculateLargestLoss | journalApp/journalApp/Core/Views/Trades/TradeAnalysisView.swift:270-273 | at most 0; 0 exactly when no trade loses; no trade lost more; a negative result is some losing trade's loss |
| TradeAnalysis.CalculateAverageRR | journalApp/journalApp/Core/Views/Trades/TradeAnalysisView.swift:275-278 | non-negative; positive exactly when some trade has a positive ratio; otherwise the mean over those trades |
| TradeAnalysis.AverageRRVariants | journalApp/journalApp/Core/Views/Trades/TradeAnalysisView.swift:275-278 | leaving out zero ratios keeps the sum, so this average is never below the list view model's average over all trades, and equals it when no ratio is zero |
| TradeAnalysis.GroupStats | journalApp/journalApp/Core/Views/Trades/TradeAnalysisView.swift:280-298 | one row per key, each for a non-empty group with a win rate between 0 and 100 |
| TradeAnalysis.GroupStatsCount | journalApp/journalApp/Core/Views/Trades/TradeAnalysisView.swift:280-298 | the rows' counts add up to the number of trades |
| TradeAnalysis.GroupStatsDistinct | journalApp/journalApp/Core/Views/Trades/TradeAnalysisView.swift:280-298 | no two rows share a name when a key can be read back from its name |
| TradeAnalysis.GroupStatsCover | journalApp/journalApp/Core/Views/Trades/TradeAnalysisView.swift:280-298 | every trade's key names some row |
| TradeAnalysis.GroupStatsParsed | journalApp/journalApp/Core/Views/Trades/TradeAnalysisView.swift:280-298 | each row's name leads back to its group, whose size it counts and whose winning share it gives |
| TradeAnalysis.CalculateStrategyStats | journalApp/journalApp/Core/Views/Trades/TradeAnalysisView.swift:280-288 | one row per strategy among the trades, each counting at least one trade with a win rate between 0 and 100 |
| TradeAnalysis.StrategyStatsDistinct | journalApp/journalApp/Core/Views/Trades/TradeAnalysisView.swift:281-287 | no strategy has two rows |
| TradeAnalysis.StrategyStatsCover | journalApp/journalApp/Core/Views/Trades/TradeAnalysisView.swift:281-287 | every trade's strategy has a row |
| TradeAnalysis.StrategyStatsRows | journalApp/journalApp/Core/Views/Trades/TradeAnalysisView.swift:282-287 | each row counts its strategy's trades and gives the percentage of them that win |
| TradeAnalysis.StrategyCountsSum | journalApp/journalApp/Core/Views/Trades/TradeAnalysisView.swift:280-288 | the strategy rows' counts add up to the number of filtered trades |
| TradeAnalysis.CalculateTimeFrameStats | journalApp/journalApp/Core/Views/Trades/TradeAnalysisView.swift:290-298 | one row per time frame among the trades, each counting at least one trade with a win rate between 0 and 100 |
| TradeAnalysis.TimeFrameStatsDistinct | journalApp/journalApp/Core/Views/Trades/TradeAnalysisView.swift:291-297 | no time frame has two rows |
| TradeAnalysis.TimeFrameStatsCover | journalApp/journalApp/Core/Views/Trades/TradeAnalysisView.swift:291-297 | every trade's time frame has a row named by its raw value |
| TradeAnalysis.TimeFrameStatsRows | journalApp/journalApp/Core/Views/Trades/TradeAnalysisView.swift:292-297 | each row's name is a time frame's raw value; the row counts that time frame's trades and gives the percentage of them that win |
| TradeAnalysis.TimeFrameCountsSum | journalApp/journalApp/Core/Views/Trades/TradeAnalysisView.swift:290-298 | the time-frame rows' counts add up to the number of filtered trades |
| TradeAnalysis.BandRank | journalApp/journalApp/Core/Views/Trades/TradeAnalysisView.swift:303-308 | the band names are distinct: each band's name gives back its place in the order |
| TradeAnalysis.BandsDisjoint | journalApp/journalApp/Core/Views/Trades/TradeAnalysisView.swift:304-308 | at most one band holds for a trade, and none for a trade that breaks even |
| TradeAnalysis.BandRows | journalApp/journalApp/Core/Views/Trades/TradeAnalysisView.swift:310-314 | one row per band, in the fixed order, each with its band's count and percentage |
| TradeAnalysis.CalculateTradeDistribution | journalApp/journalApp/Core/Views/Trades/TradeAnalysisView.swift:300-315 | nothing for no trades; otherwise exactly the bands holding a trade, in band order, each with its share of all trades as a percentage |
| TradeAnalysis.BandedCount | journalApp/journalApp/Core/Views/Trades/TradeAnalysisView.swift:303-309 | the four bands together hold every trade except those that break even |
| TradeAnalysis.DistributionCounts | journalApp/journalApp/Core/Views/Trades/TradeAnalysisView.swift:300-315 | the rows' counts add up to the number of trades that do not break even, so never to more than all trades |
| Analysis.TextLeTotal | journalApp/journalApp/Sections/AnalysisSection.swift:176 | the label order is total: of two labels one sorts no later than the other |
| Analysis.TextLeTransitive | journalApp/journalApp/Sections/AnalysisSection.swift:176 | the label order is transitive |
| Analysis.TextLeAntisymmetric | journalApp/journalApp/Sections/AnalysisSection.swift:176 | two labels that each sort no later than the other are equal |
| Analysis.MonthLeTotalPreorder | journalApp/journalApp/Sections/AnalysisSection.swift:176 | comparing bars by label is a total preorder, so sorting by it is well defined |
| Analysis.LabelTotals | journalApp/journalApp/Sections/AnalysisSection.swift:165-176 | one bar per label, no label twice, in strictly ascending label text, every element's label among them |
| Analysis.LabelTotalsBars | journalApp/journalApp/Sections/AnalysisSection.swift:169-175 | each bar stands for at least one element and holds the total over the elements carrying its label |
| Analysis.LabelTotalsSum | journalApp/journalApp/Sections/AnalysisSection.swift:165-176 | the bars' totals add up to the total over all elements |
| Analysis.GroupTradesByMonth | journalApp/journalApp/Sections/AnalysisSection.swift:161-177 | one bar per month label among the trades, no label twice, in ascending label text, each holding the total profit/loss of that month's trades |
| Analysis.MonthTotalsSum | journalApp/journalApp/Sections/AnalysisSection.swift:161-177 | the monthly totals add up to the total profit/loss of all trades |
| Analysis.TwoLabels | journalApp/journalApp/Sections/AnalysisSection.swift:165-168 | two elements with different labels give those labels in order of appearance |
| Analysis.TwoBarsOrdered | journalApp/journalApp/Sections/AnalysisSection.swift:176 | two bars whose labels sort the other way round come out in label order |
| Analysis.MonthOrderIsTextual | journalApp/journalApp/Sections/AnalysisSection.swift:176 | the bars follow the label text, not the calendar: "Feb 2025" comes before "Jan 2025" |
| Patterns.DateOrders | journalApp/journalApp/Sections/AnalysisSection.swift:295-309 | both date comparisons the streak loops sort by are total preorders |
| Patterns.Oldest | journalApp/journalApp/Sections/AnalysisSection.swift:295 | the trades sorted oldest first: the same trades, in date order |
| Patterns.Newest | journalApp/journalApp/Sections/AnalysisSection.swift:309 | the trades sorted most recent first: the same trades, latest date first |
| Patterns.CalculateMaxWinStreak | journalApp/journalApp/Sections/AnalysisSection.swift:291-305 | the result is the length of a run of consecutive wins in date order, and no run of wins is longer |
| Patterns.LongestWinStreak | journalApp/journalApp/Sections/AnalysisSection.swift:292-304 | the loop's count is the longest run of wins in the order walked |
| Patterns.StreakStep | journalApp/journalApp/Sections/AnalysisSection.swift:296-301 | one more trade: the current run grows by one on a win and restarts on anything else, and the largest count keeps up |
| Patterns.CalculateCurrentWinStreak | journalApp/journalApp/Sections/AnalysisSection.swift:307-320 | the result is the run of wins that starts with the most recent trade, and the trade after it, if any, is not a win |
| Patterns.MaxWinStreakBounds | journalApp/journalApp/Sections/AnalysisSection.swift:291-305 | the longest streak fits in the trades and is 0 exactly when no trade wins |
| Patterns.CurrentWinStreakAtMostWins | journalApp/journalApp/Sections/AnalysisSection.swift:307-320 | the current streak is at most the number of winning trades |
| Patterns.CurrentAtMostMax | journalApp/journalApp/Sections/AnalysisSection.swift:291-320 | when no two trades share a date, the current streak is no longer than the longest streak |
| Patterns.NewestIsOldestReversed | journalApp/journalApp/Sections/AnalysisSection.swift:295-309 | with distinct dates the most-recent-first order is the oldest-first order backwards |
| Patterns.SuccessGeTotalPreorder | journalApp/journalApp/Sections/AnalysisSection.swift:288 | comparing rows by success rate is a total preorder |
| Patterns.GetPatternStats | journalApp/journalApp/Sections/AnalysisSection.swift:268-289 | one row per strategy among the trades, no strategy twice, from the highest success rate down |
| Patterns.PatternStatsRows | journalApp/journalApp/Sections/AnalysisSection.swift:271-287 | each row is the statistics of its strategy's group, which holds at least one trade |
| Patterns.PatternRowFacts | journalApp/journalApp/Sections/AnalysisSection.swift:271-287 | a row counts its group, its success rate is the percentage that won, its total and average are the group's, and its streaks are the group's, within its size and its wins |
| Patterns.PatternCountsSum | journalApp/journalApp/Sections/AnalysisSection.swift:268-289 | the rows' counts add up to the number of trades |
| Patterns.PatternTotalsSum | journalApp/journalApp/Sections/AnalysisSection.swift:268-289 | the rows' totals add up to the total profit/loss of all trades |
| Risk.CalculateAverageRR | journalApp/journalApp/Sections/AnalysisSection.swift:404-407 | 0 for no trades, never negative, and the same figure as the trade list's average ratio |
| Risk.CalculateAverageRisk | journalApp/journalApp/Sections/AnalysisSection.swift:425-428 | 0 for no trades, otherwise the total risk over the number of trades |
| Risk.AverageRiskBetween | journalApp/journalApp/Sections/AnalysisSection.swift:425-428 | the average risk lies between the smallest and the largest risk among the trades |
| Risk.AverageRiskNonNegative | journalApp/journalApp/Sections/AnalysisSection.swift:425-428 | with no negative quantity or leverage the average risk is not negative |
| Risk.CalculateProfitableRiskTrades | journalApp/journalApp/Sections/AnalysisSection.swift:430-434 | a percentage, 0 for no trades, equal to the win rate |
| Risk.Peak | journalApp/journalApp/Sections/AnalysisSection.swift:412-417 | the peak is never negative and never below the running total |
| Risk.DrawdownAt | journalApp/journalApp/Sections/AnalysisSection.swift:418 | the drop below the peak in percent: non-negative when the total is at or below the peak, 0 at the peak, 0 while the peak is not positive |
| Risk.MaxDrawdownOf | journalApp/journalApp/Sections/AnalysisSection.swift:409-423 | the largest drawdown is never negative |
| Risk.DrawdownStep | journalApp/journalApp/Sections/AnalysisSection.swift:415-420 | one more trade: the running total, the peak and the largest drawdown follow from their values before it |
| Risk.CalculateMaxDrawdown | journalApp/journalApp/Sections/AnalysisSection.swift:409-423 | the loop, with a zero peak guarded, yields the largest drawdown over the running totals after each trade, never negative |
| Risk.PeakIsHighest | journalApp/journalApp/Sections/AnalysisSection.swift:412-417 | every running total so far is at most the peak |
| Risk.MaxDrawdownIsLargest | journalApp/journalApp/Sections/AnalysisSection.swift:415-420 | the drawdown after every trade is at most the maximum drawdown |
| Risk.NoLossPeakIsTotal | journalApp/journalApp/Sections/AnalysisSection.swift:415-417 | with no losing trade the running total never falls, so the peak is the running total |
| Risk.NoLossNoDrawdown | journalApp/journalApp/Sections/AnalysisSection.swift:409-423 | with no losing trade there is no drawdown |
| Risk.DrawdownAtMostAll | journalApp/journalApp/Sections/AnalysisSection.swift:409-423 | while the running total stays at or above zero no drawdown exceeds 100 percent |
| Risk.PercentOf | journalApp/journalApp/Sections/AnalysisSection.swift:418 | floating-point division: the quotient for a non-zero divisor; for a zero divisor an infinity of the dividend's sign, or not-a-number exactly when the dividend is 0 as well |
| Risk.SwiftMax | journalApp/journalApp/Sections/AnalysisSection.swift:417-419 | Swift's `max` on doubles: a not-a-number second argument leaves the first; positive infinity wins unless the first argument is not-a-number; two numbers give the larger |
| Risk.DrawdownAsWrittenOf | journalApp/journalApp/Sections/AnalysisSection.swift:409-423 | the loop's result as written is never not-a-number |
| Risk.DrawdownAsWrittenStep | journalApp/journalApp/Sections/AnalysisSection.swift:415-420 | one more trade in the loop as written is one more `max` with that trade's drawdown |
| Risk.CalculateMaxDrawdownAsWritten | journalApp/journalApp/Sections/AnalysisSection.swift:409-423 | the loop as written yields the as-written drawdown, dividing by the peak even while it is 0 |
| Risk.AsWrittenAgrees | journalApp/journalApp/Sections/AnalysisSection.swift:409-423 | when the running total never falls below a zero peak, the code as written gives the guarded maximum drawdown |
| Risk.AsWrittenInfinite | journalApp/journalApp/Sections/AnalysisSection.swift:409-423 | once the running total falls below a zero peak, the code as written reports an infinite drawdown |
| Risk.FirstLossIsInfinite | journalApp/journalApp/Sections/AnalysisSection.swift:418 | a journal whose first trade loses: infinite as written, 0 guarded |
| Risk.RiskBucketNearest | journalApp/journalApp/Sections/AnalysisSection.swift:443-446 | a trade's risk level is a whole number of hundreds within 50 of its risk amount |
| Risk.RoundHundreds | journalApp/journalApp/Sections/AnalysisSection.swift:445 | rounding a hundredth and scaling back gives a whole number of hundreds within 50 |
| Risk.RiskLeTotalPreorder | journalApp/journalApp/Sections/AnalysisSection.swift:449 | comparing bars by risk level is a total preorder |
| Risk.GetRiskDistribution | journalApp/journalApp/Sections/AnalysisSection.swift:442-450 | one bar per rounded risk level, in strictly increasing level, every trade's level among the bars |
| Risk.RisksIncreasing | journalApp/journalApp/Sections/AnalysisSection.swift:449 | bars sorted by level with no level twice have strictly increasing levels |
| Risk.RiskBarsCount | journalApp/journalApp/Sections/AnalysisSection.swift:443-448 | each bar counts the trades whose risk rounds to its level, and there is at least one |
| Risk.RiskCountsSum | journalApp/journalApp/Sections/AnalysisSection.swift:442-450 | the bars' counts add up to the number of trades |
| Equity.PointsOf | journalApp/journalApp/Core/Views/Components/EquityCurve.swift:20-30 | one point per trade, in order, with the trade's date; the last point holds the total of all trades |
| Equity.PointsArePrefixTotals | journalApp/journalApp/Core/Views/Components/EquityCurve.swift:25-28 | each point holds the total of the trades up to and including its own |
| Equity.PointsStep | journalApp/journalApp/Core/Views/Components/EquityCurve.swift:25-28 | one more trade appends one point holding the new running total |
| Equity.CumulativeProfitLoss | journalApp/journalApp/Core/Views/Components/EquityCurve.swift:17-31 | as many points as trades, dates never going back, the trades' dates each as often, the last total equal to the journal's total profit/loss |
| Equity.CurveDatesSorted | journalApp/journalApp/Core/Views/Components/EquityCurve.swift:22-28 | the curve's dates never go back |
| Equity.CurveDates | journalApp/journalApp/Core/Views/Components/EquityCurve.swift:22-28 | the curve's dates are the trades' dates, each as often |
| Equity.CurveLastTotal | journalApp/journalApp/Core/Views/Components/EquityCurve.swift:17-31 | the curve ends at the journal's total profit/loss |
| Equity.YAxisRange | journalApp/journalApp/Core/Views/Components/EquityCurve.swift:33-39 | the curve's range runs from the smaller of 0 and the lowest total to the larger of 0 and the highest, padded on both sides; so zero and every point lie inside, and no trades give 0...0 |
| Equity.RangeOf | journalApp/journalApp/Core/Views/Components/EquityCurve.swift:34-38 | from the smaller of 0 and the lowest total to the larger of 0 and the highest, padded; zero and every total lie inside; no points give 0...0 |
| Equity.Padded | journalApp/journalApp/Core/Views/Components/EquityCurve.swift:37-38 | both ends are widened by the same tenth of the larger magnitude |
| Equity.DistanceTo | journalApp/journalApp/Core/Views/Components/EquityCurve.swift:140 | the distance in seconds between a trade's date and the date, in either direction |
| Equity.ClosestTrade | journalApp/journalApp/Core/Views/Components/EquityCurve.swift:136-145 | no trade exactly when the list is empty; otherwise a trade at the smallest distance, the first such in the list |
| Equity.Selection | journalApp/journalApp/Core/Views/Components/EquityCurve.swift:147-152 | the nearest trade is selected exactly when it lies within twelve hours |
| Equity.EquityCurveView.constructor | journalApp/journalApp/Core/Views/Components/EquityCurve.swift:13-15 | a fresh view has its trades and nothing selected |
| Equity.EquityCurveView.DragChanged | journalApp/journalApp/Core/Views/Components/EquityCurve.swift:130-153 | no date changes nothing; otherwise the date is kept and the selection is the first trade in the list at the smallest distance, when that is within twelve hours, and none when every trade is at least twelve hours away |
| Equity.EquityCurveView.DragEnded | journalApp/journalApp/Core/Views/Components/EquityCurve.swift:154-157 | both the date and the trade are cleared |
| DecimalInput.FirstDot | journalApp/journalApp/DecimalField.swift:32 | the position of the first '.', with no '.' before it, or the length exactly when the text holds no '.' |
| DecimalInput.NoDotsBefore | journalApp/journalApp/DecimalField.swift:32 | a text with no '.' before position i and a '.' at i (or ending at i) has its first '.' at i |
| DecimalInput.Collapse | journalApp/journalApp/DecimalField.swift:31-32 | the collapsed text keeps everything before the first '.' and the '.' itself at the same place |
| DecimalInput.CollapseOneDot | journalApp/journalApp/DecimalField.swift:30-33 | collapsing leaves exactly one '.' |
| DecimalInput.CollapseAccepted | journalApp/journalApp/DecimalField.swift:31-32 | collapsing text of digits and '.' leaves text of digits and '.' |
| DecimalInput.CollapseDigits | journalApp/journalApp/DecimalField.swift:31-32 | collapsing keeps every digit, in order |
| DecimalInput.CollapseFirstDot | journalApp/journalApp/DecimalField.swift:31-32 | collapsing keeps the first '.' where it was |
| DecimalInput.Sanitize | journalApp/journalApp/DecimalField.swift:23-34 | the handler leaves only digits and '.', and at most one '.': none when none was typed, one otherwise |
| DecimalInput.CleanUnchanged | journalApp/journalApp/DecimalField.swift:25-30 | text of digits with at most one '.' is left exactly as typed |
| DecimalInput.SanitizedIsClean | journalApp/journalApp/DecimalField.swift:23-34 | whatever is typed, the text the handler leaves is clean |
| DecimalInput.SanitizeIdempotent | journalApp/journalApp/DecimalField.swift:23-34 | the handler's second run, on the text it assigned, changes nothing |
| DecimalInput.DigitsKept | journalApp/journalApp/DecimalField.swift:23-34 | every digit typed survives, in order |
| DecimalInput.FirstDotStays | journalApp/journalApp/DecimalField.swift:30-33 | with several '.', the first one stays where it was among the accepted characters and is the only one left |
| AddTrade.ValidationError | journalApp/journalApp/Core/ViewModels/AddTradeViewModel.swift:67-81 | the first failing check's message, none exactly when the pair, both prices, the quantity and both stops are filled in; fees and leverage are not checked |
| AddTrade.Submit | journalApp/journalApp/Core/ViewModels/AddTradeViewModel.swift:33-65 | a trade exactly when validation passes and all seven numbers parse; the validation message or the numeric message otherwise; the trade carries the parsed numbers and the form's picks |
| AddTrade.EmptyFeesIsNumericError | journalApp/journalApp/Core/ViewModels/AddTradeViewModel.swift:36-45 | an empty fees field passes validation but fails parsing, so the numeric-values message is shown |
| AddTrade.PairReportedFirst | journalApp/journalApp/Core/ViewModels/AddTradeViewModel.swift:67-71 | an empty pair is reported as such, whatever else is wrong |
| AddTrade.AddTradeViewModel.constructor | journalApp/journalApp/Core/ViewModels/AddTradeViewModel.swift:13-30 | a fresh form: every text empty except fees "0" and leverage "1", long, one hour, medium, good, neutral, no error shown |
| AddTrade.AddTradeViewModel.ShowError | journalApp/journalApp/Core/ViewModels/AddTradeViewModel.swift:83-86 | the message is set and the flag raised; the form is unchanged |
| AddTrade.AddTradeViewModel.ValidateInput | journalApp/journalApp/Core/ViewModels/AddTradeViewModel.swift:67-81 | true exactly when no check fails; a failure shows the first failing check's message; success changes nothing |
| AddTrade.AddTradeViewModel.CreateTrade | journalApp/journalApp/Core/ViewModels/AddTradeViewModel.swift:33-65 | the trade `Submit` builds with the error state untouched, or none with the rejection's message shown; the form's fields are unchanged |
| Storage.Load | journalApp/journalApp/Core/ViewModels/TradeStorageManager.swift:227-259 | none exactly when one of id, pair, side, date, time frame, confidence, setup quality or market condition is missing; otherwise the stored numbers unchanged, missing notes, strategy and emotions read as "", unknown raw strings read as long, one hour, medium, good and neutral |
| Storage.Store | journalApp/journalApp/Core/ViewModels/TradeStorageManager.swift:261-280 | every attribute is written, so none of the optional ones is missing afterwards |
| Storage.LoadStore | journalApp/journalApp/Core/ViewModels/TradeStorageManager.swift:239-280 | a stored trade reads back as exactly the trade that was stored |
| Storage.TradeEntity.FromTrade | journalApp/journalApp/Core/ViewModels/TradeStorageManager.swift:261-280 | every attribute is written from the trade, and the record then reads back as that trade |
| Storage.Decoded | journalApp/journalApp/Core/ViewModels/TradeStorageManager.swift:74 | no more trades than rows, every convertible row's trade included, and as many trades as rows exactly when every row converts |
| Storage.DecodedInOrder | journalApp/journalApp/Core/ViewModels/TradeStorageManager.swift:74 | the decoded trades are the rows' conversions with the failed ones dropped, in fetch order; each comes from a row that converts to it |
| Storage.DecodedAppend | journalApp/journalApp/Core/ViewModels/TradeStorageManager.swift:74 | decoding two pages in turn gives the decoding of both together |
| Storage.TradeStorageManager.LoadTrades | journalApp/journalApp/Core/ViewModels/TradeStorageManager.swift:63-86 | a page fetched at offset 0 replaces the list, at any other offset it is appended after the existing trades, and a failed fetch leaves the list alone; the loading flag ends lowered |
| Storage.LoadTwoPages | journalApp/journalApp/Core/ViewModels/TradeStorageManager.swift:63-86 | loading page 0 and then a later page leaves the trades of both fetches in fetch order |

## Left out

- Floating point: amounts are exact reals, so rounding is not modelled.
  - Not-a-number and infinity are not modelled either.
  - The one exception is the drawdown division by a zero peak (see Findings). It is modelled through the `Ieee` values in `Risk`.
- `Calendar`, `DateFormatter`, `Date()`, `UUID()` and `Double(String)` are not modelled. They are foreign calls, so their results are parameters:
  - period starts;
  - day cutoffs;
  - month labels;
  - the current date and the new id;
  - the parse result.
- Swift's `sorted(by:)` is not guaranteed stable. The model sorts with a stable insertion sort, so the order among ties (equal dates, equal success rates) is one legal order of several. The properties proved do not depend on it, except where a lemma names its tie-breaking assumption.
- `Dictionary` iteration order is unspecified. Groups are built in order of first appearance, and the properties are stated without reference to that order.
- `Patterns.CurrentAtMostMax` requires distinct dates. When two trades share a date, the oldest-first and newest-first sorts may order them differently, so the two streaks are computed over different sequences.
- `Risk.CalculateAverageRisk` states the mean but not its sign. The sign needs non-negative quantity and leverage, which the code does not check, so it is stated separately in `Risk.AverageRiskNonNegative`.
- `Storage.TradeEntity` holds its Core Data attributes as one record value. Managed-object identity and contexts are not modelled.
- The fetch request's offset, limit, batch size and date sort descriptor are not modelled. The fetched rows are a parameter of `LoadTrades`.
- `TradeStorageManager`'s initialiser is not modelled; it sets up the persistent container and performs the first load. The model's manager starts empty.
- These storage operations are not modelled, because they run in a background context and hop back to the main queue:
  - `loadMoreTrades`;
  - `saveTrade` and `saveTrades`;
  - `deleteTrade` and `removeTrades`;
  - `getTradesBySymbol`;
  - `loadMore`.
- In `TradeListViewModel`, pagination (`loadMoreTradesIfNeeded`, `loadMoreIfNeeded`, `loadMoreData`, `checkIfNeedsMoreData`) and the loading flags are not modelled, for the same reason. Storage is represented by the trades it holds.
- `TradeListViewModel.removeTrade` is not modelled: it only forwards to the storage manager's `removeTrades`, which is left out above.
- Nothing is modelled of the SwiftUI bodies, chart marks, navigation, animation or the placeholder psychology and pattern cards.
- `TradeAnalysis.FilteredTrades` takes one `now` and one set of calendar dates for the whole filter. In the app, `isTradeInSelectedPeriod` reads `Date()` again for every trade (TradeAnalysisView.swift:318-320), so a trade dated right at the period start may be judged against a start that is slightly later.
- Text is a sequence of Unicode scalar values, while Swift's `String` works on grapheme clusters and compares up to canonical equivalence. So two things differ from the app:
  - `DecimalInput.Sanitize` filters scalar by scalar. For `"1\u{0301}"` (a digit with a combining accent) it keeps `"1"`, while the app drops the whole cluster.
  - Grouping keys (pairs, strategies) and the month-label order treat canonically equal but differently encoded strings as different.
- `DecimalField`'s `onChange` firing again after its own assignment is not modelled as a second event. `DecimalInput.SanitizeIdempotent` shows that second run changes nothing.

## Findings

| source | as written | input that shows it | evidently intended | confidence | as-written member | corrected member |
|---|---|---|---|---|---|---|
| journalApp/journalApp/Sections/AnalysisSection.swift:409-423 | the drawdown divides by the peak while the peak is still 0 | a journal whose first trade is a loss: the running total goes negative under a zero peak, and the result is infinity | no drawdown is measured until the peak is positive, so this journal has a maximum drawdown of 0 | not executed | Risk.CalculateMaxDrawdownAsWritten, Risk.FirstLossIsInfinite | Risk.CalculateMaxDrawdown |
