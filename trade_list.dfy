/**
 * `TradeListViewModel`: the journal's list of trades, its date filter, the
 * portfolio statistics over the list, and a per-symbol statistics cache that
 * `updateSymbolStats` refreshes in place.
 */
module TradeList {
  import opened Wrappers
  import opened Seqs
  import opened Numbers
  import opened Trades
  import TradeAnalytics

  datatype DateFilter = Last7Days | Last30Days | Last3Months | Last6Months | LastYear | AllTime {

    function RawValue(): string {
      match this
      case Last7Days => "Last 7 Days"
      case Last30Days => "Last 30 Days"
      case Last3Months => "Last 3 Months"
      case Last6Months => "Last 6 Months"
      case LastYear => "Last Year"
      case AllTime => "All Time"
    }

    /** `daysBack`: how many days the filter looks back; none for `allTime`. */
    function DaysBack(): (r: Option<nat>)
      ensures r == None <==> this == AllTime
      ensures this == Last7Days ==> r == Some(7)
      ensures this == Last30Days ==> r == Some(30)
      ensures this == Last3Months ==> r == Some(90)
      ensures this == Last6Months ==> r == Some(180)
      ensures this == LastYear ==> r == Some(365)
    {
      match this
      case Last7Days => Some(7)
      case Last30Days => Some(30)
      case Last3Months => Some(90)
      case Last6Months => Some(180)
      case LastYear => Some(365)
      case AllTime => None
    }
  }

  /** Each filter, in the order the picker lists them, looks strictly further back than the one before. */
  lemma DaysBackIncreasing()
    ensures Last7Days.DaysBack().value < Last30Days.DaysBack().value < Last3Months.DaysBack().value
            < Last6Months.DaysBack().value < LastYear.DaysBack().value
  {
  }

  /** The trades dated at or after `cutoff`. */
  function OnOrAfter(cutoff: Timestamp): Trade -> bool {
    (t: Trade) => t.date >= cutoff
  }

  /**
   * The filter's cutoff: `days` days before `now` by the calendar, or `now`
   * itself when the calendar gives no date. `daysAgo` stands for
   * `Calendar.current.date(byAdding: .day, value: -days, to: now)`.
   */
  function Cutoff(days: nat, daysAgo: nat -> Option<Timestamp>, now: Timestamp): Timestamp {
    daysAgo(days).GetOr(now)
  }

  /** A later cutoff keeps a subset of what an earlier one keeps: filtering the wider window gives the narrower one. */
  lemma CutoffWindowsNest(trades: seq<Trade>, early: Timestamp, late: Timestamp)
    requires early <= late
    ensures Filter(Filter(trades, OnOrAfter(early)), OnOrAfter(late)) == Filter(trades, OnOrAfter(late))
    ensures |Filter(trades, OnOrAfter(late))| <= |Filter(trades, OnOrAfter(early))|
  {
    FilterFilter(trades, OnOrAfter(early), OnOrAfter(late));
  }

  datatype SymbolStats = SymbolStats(totalTrades: int, winRate: real, avgProfit: real, totalPL: real)

  /** What every cached entry satisfies: at least one trade, a percentage, and an average consistent with the total. */
  predicate ValidStats(st: SymbolStats) {
    && st.totalTrades >= 1
    && 0.0 <= st.winRate <= 100.0
    && st.avgProfit == st.totalPL / (st.totalTrades as real)
  }

  /** The statistics `updateSymbolStats` computes for one symbol's non-empty list of trades. */
  function SymbolStatsOf(symbolTrades: seq<Trade>): (st: SymbolStats)
    requires symbolTrades != []
    ensures ValidStats(st)
    ensures st.totalTrades == |symbolTrades|
    ensures st.totalPL == Sum(symbolTrades, ProfitLoss)
    ensures st.winRate == TradeAnalytics.WinRate(symbolTrades)
  {
    var wins := |Filter(symbolTrades, IsWin)|;
    var winRate := Percent(wins, |symbolTrades|);
    var avgProfit := Mean(Reduce(0.0, symbolTrades, ProfitLoss), |symbolTrades|);
    var totalPL := Reduce(0.0, symbolTrades, ProfitLoss);
    SymbolStats(|symbolTrades|, winRate, avgProfit, totalPL)
  }

  /** The symbols `updateSymbolStats` visits: the one asked for, or every symbol among the trades. */
  function SymbolsToUpdate(symbol: Option<string>, trades: seq<Trade>): (r: set<string>)
    ensures symbol.Some? ==> r == {symbol.value}
    ensures symbol.None? ==> forall s :: s in r <==> exists i :: 0 <= i < |trades| && trades[i].cryptoPair == s
  {
    match symbol
    case Some(s) => {s}
    case None => set i | 0 <= i < |trades| :: trades[i].cryptoPair
  }

  /** What storage yields for a symbol: fresh statistics, or nothing when it holds no trades for it. */
  function Recompute(fetch: string -> seq<Trade>): string -> Option<SymbolStats> {
    s => StatsFor(fetch(s))
  }

  /** The `if !symbolTrades.isEmpty` guard: statistics for a non-empty list, nothing for an empty one. */
  function StatsFor(symbolTrades: seq<Trade>): (r: Option<SymbolStats>)
    ensures r.Some? <==> symbolTrades != []
    ensures r.Some? ==> ValidStats(r.value)
  {
    if symbolTrades != [] then Some(SymbolStatsOf(symbolTrades)) else None
  }

  /** Every statistics entry storage yields is valid. */
  lemma RecomputedValid(fetch: string -> seq<Trade>)
    ensures forall s :: Recompute(fetch)(s).Some? ==> ValidStats(Recompute(fetch)(s).value)
    ensures forall s :: Recompute(fetch)(s).Some? <==> fetch(s) != []
  {
    forall s ensures Recompute(fetch)(s) == StatsFor(fetch(s)) {
    }
  }

  /**
   * The cache after visiting `symbols`: an entry is rewritten where a visited
   * symbol yields new statistics, and every other entry stays as it was.
   */
  function UpdatedStats<V>(stats: map<string, V>, symbols: set<string>, yielded: string -> Option<V>)
    : (r: map<string, V>)
    ensures forall k :: k in r <==> k in stats || (k in symbols && yielded(k).Some?)
    ensures forall k :: k in symbols && yielded(k).Some? ==> r[k] == yielded(k).value
    ensures forall k :: k in stats && !(k in symbols && yielded(k).Some?) ==> r[k] == stats[k]
  {
    map k | k in stats.Keys + (set s | s in symbols && yielded(s).Some?) ::
      if k in symbols && yielded(k).Some? then yielded(k).value else stats[k]
  }

  /**
   * Updating for one symbol touches that key only; when storage holds no
   * trades for it, nothing changes, so a stale entry survives.
   */
  lemma UpdateTouchesOnlyItsSymbol<V>(stats: map<string, V>, s: string, yielded: string -> Option<V>)
    ensures forall k :: k != s ==> (k in UpdatedStats(stats, {s}, yielded) <==> k in stats)
    ensures forall k :: k != s && k in stats ==> UpdatedStats(stats, {s}, yielded)[k] == stats[k]
    ensures yielded(s).None? ==> UpdatedStats(stats, {s}, yielded) == stats
    ensures yielded(s).Some? ==> UpdatedStats(stats, {s}, yielded) == stats[s := yielded(s).value]
  {
  }

  /** Every entry of the cache is valid. */
  predicate ValidCache(stats: map<string, SymbolStats>) {
    forall k :: k in stats ==> ValidStats(stats[k])
  }

  /** Updating a valid cache from storage leaves it valid. */
  lemma UpdatePreservesValidity(stats: map<string, SymbolStats>, symbols: set<string>, fetch: string -> seq<Trade>)
    requires ValidCache(stats)
    ensures ValidCache(UpdatedStats(stats, symbols, Recompute(fetch)))
  {
    RecomputedValid(fetch);
  }

  /** Visiting one more symbol is one more map update. */
  lemma UpdatedStatsStep<V>(stats: map<string, V>, done: set<string>, s: string, yielded: string -> Option<V>)
    requires s !in done
    ensures UpdatedStats(stats, done + {s}, yielded) ==
      if yielded(s).Some? then UpdatedStats(stats, done, yielded)[s := yielded(s).value]
      else UpdatedStats(stats, done, yielded)
  {
    var a := UpdatedStats(stats, done + {s}, yielded);
    var b := if yielded(s).Some? then UpdatedStats(stats, done, yielded)[s := yielded(s).value]
             else UpdatedStats(stats, done, yielded);
    assert forall k :: k in a <==> k in b;
    assert forall k :: k in a ==> a[k] == b[k];
  }

  /** The loop's step: taking `s` off the symbols still to visit is one more map update. */
  lemma VisitStep<V>(stats: map<string, V>, symbols: set<string>, todo: set<string>, s: string, yielded: string -> Option<V>)
    requires s in todo && todo <= symbols
    ensures UpdatedStats(stats, symbols - (todo - {s}), yielded) ==
      if yielded(s).Some? then UpdatedStats(stats, symbols - todo, yielded)[s := yielded(s).value]
      else UpdatedStats(stats, symbols - todo, yielded)
  {
    UpdatedStatsStep(stats, symbols - todo, s, yielded);
    assert symbols - todo + {s} == symbols - (todo - {s});
  }

  /** The summed profit of the winning trades. */
  function GrossProfit(trades: seq<Trade>): (r: real)
    ensures r >= 0.0
    ensures r == 0.0 <==> forall i :: 0 <= i < |trades| ==> !IsWin(trades[i])
  {
    FilterLength(trades, IsWin);
    SumSigns(Filter(trades, IsWin), ProfitLoss);
    Sum(Filter(trades, IsWin), ProfitLoss)
  }

  /** The summed loss of the losing trades, as a positive amount. */
  function GrossLoss(trades: seq<Trade>): (r: real)
    ensures r >= 0.0
    ensures r == 0.0 <==> forall i :: 0 <= i < |trades| ==> !IsLoss(trades[i])
  {
    FilterLength(trades, IsLoss);
    SumSigns(Filter(trades, IsLoss), ProfitLoss);
    -Sum(Filter(trades, IsLoss), ProfitLoss)
  }

  /**
   * `profitFactor`: gross profit over gross loss behind a zero guard. It is 0
   * exactly when there is no losing or no winning trade; otherwise it is the
   * gross profit over the gross loss.
   */
  function ProfitFactorOf(trades: seq<Trade>): (r: real)
    ensures r >= 0.0
    ensures r == 0.0 <==>
      (forall i :: 0 <= i < |trades| ==> !IsLoss(trades[i])) || (forall i :: 0 <= i < |trades| ==> !IsWin(trades[i]))
    ensures GrossLoss(trades) != 0.0 ==> r == GrossProfit(trades) / GrossLoss(trades)
  {
    var grossProfit := Reduce(0.0, Filter(trades, IsWin), ProfitLoss);
    var grossLoss := Abs(Reduce(0.0, Filter(trades, IsLoss), ProfitLoss));
    assert grossProfit == GrossProfit(trades) && grossLoss == GrossLoss(trades);
    Ratio(grossProfit, grossLoss)
  }

  /** `averageRiskRewardRatio`: the mean ratio over all trades, zero ratios included; 0 for no trades. */
  function AverageRiskRewardOf(trades: seq<Trade>): (r: real)
    ensures r >= 0.0
    ensures trades == [] ==> r == 0.0
    ensures trades != [] ==> r == Sum(trades, RiskRewardRatio) / (|trades| as real)
  {
    Average(trades, RiskRewardRatio)
  }

  /** A symbol and its cached statistics, as `groupTradesBySymbol` lists them. */
  datatype SymbolEntry = SymbolEntry(symbol: string, stats: SymbolStats)

  function SymbolOfEntry(e: SymbolEntry): string { e.symbol }

  /** `$0.stats.totalTrades > $1.stats.totalTrades`, as the total preorder it sorts by: more trades first. */
  function MoreTrades(a: SymbolEntry, b: SymbolEntry): bool {
    a.stats.totalTrades >= b.stats.totalTrades
  }

  lemma MoreTradesIsTotalPreorder()
    ensures TotalPreorder(MoreTrades)
  {
  }

  /** An entry for `k` sits in the sorted list; past the first `n` when none of those is `k`. */
  lemma OmittedIndex(entries: seq<SymbolEntry>, sorted: seq<SymbolEntry>, k: string, n: nat) returns (m: nat)
    requires multiset(sorted) == multiset(entries)
    requires exists e :: 0 <= e < |entries| && entries[e].symbol == k
    requires n <= |sorted| && forall j :: 0 <= j < n ==> sorted[j].symbol != k
    ensures n <= m < |sorted| && sorted[m].symbol == k
    ensures forall e :: 0 <= e < |entries| && entries[e].symbol == k ==> sorted[m] in entries
  {
    var e :| 0 <= e < |entries| && entries[e].symbol == k;
    assert entries[e] in multiset(sorted);
    m :| 0 <= m < |sorted| && sorted[m] == entries[e];
    assert sorted[m] in multiset(entries);
  }

  /** Whether `k` is among the listed entries. */
  predicate Lists(r: seq<SymbolEntry>, k: string) {
    exists j :: 0 <= j < |r| && r[j].symbol == k
  }

  /** Every listed entry is an entry of the cache. */
  lemma TopEntriesFromCache(stats: map<string, SymbolStats>, entries: seq<SymbolEntry>, top: seq<SymbolEntry>)
    requires forall i :: 0 <= i < |entries| ==> entries[i].symbol in stats && stats[entries[i].symbol] == entries[i].stats
    requires multiset(top) <= multiset(entries)
    ensures forall i :: 0 <= i < |top| ==> top[i].symbol in stats && stats[top[i].symbol] == top[i].stats
  {
    forall i | 0 <= i < |top| ensures top[i].symbol in stats && stats[top[i].symbol] == top[i].stats {
      assert top[i] in multiset(entries);
    }
  }

  /** No cached symbol left out of the first `n` sorted entries has more trades than one of them. */
  lemma TopEntriesBusiest(stats: map<string, SymbolStats>, entries: seq<SymbolEntry>, sorted: seq<SymbolEntry>, n: nat)
    requires forall i :: 0 <= i < |entries| ==> entries[i].symbol in stats && stats[entries[i].symbol] == entries[i].stats
    requires forall k :: k in stats ==> exists i :: 0 <= i < |entries| && entries[i].symbol == k
    requires multiset(sorted) == multiset(entries) && n <= |sorted|
    requires SortedBy(sorted, MoreTrades)
    ensures forall k, i :: k in stats && !Lists(sorted[..n], k) && 0 <= i < |sorted[..n]| ==>
              stats[k].totalTrades <= sorted[..n][i].stats.totalTrades
  {
    forall k, i | k in stats && !Lists(sorted[..n], k) && 0 <= i < |sorted[..n]|
      ensures stats[k].totalTrades <= sorted[..n][i].stats.totalTrades
    {
      forall j | 0 <= j < n ensures sorted[j].symbol != k {
        assert sorted[..n][j] == sorted[j];
      }
      var m := OmittedIndex(entries, sorted, k, n);
      assert MoreTrades(sorted[i], sorted[m]);
    }
  }

  /** How many symbols `groupTradesBySymbol` shows at most. */
  const TopSymbols := 10

  class TradeListViewModel {
    var dateFilter: DateFilter
    var symbolStats: map<string, SymbolStats>
    var trades: seq<Trade>

    /** Every cached entry is valid. */
    predicate Valid()
      reads this
    {
      ValidCache(symbolStats)
    }

    /**
     * `init` followed by `loadInitialData`: the list is what storage loaded, the
     * filter shows all time, and the cache holds an entry for every symbol
     * storage has trades for.
     */
    constructor(stored: seq<Trade>, fetch: string -> seq<Trade>)
      ensures trades == stored && dateFilter == AllTime
      ensures symbolStats == UpdatedStats(map[], SymbolsToUpdate(None, stored), Recompute(fetch))
      ensures Valid()
    {
      dateFilter := AllTime;
      symbolStats := map[];
      trades := stored;
      new;
      UpdateSymbolStats(None, fetch);
    }

    /**
     * `updateSymbolStats(for:)`: recomputes the entry of the given symbol, or of
     * every symbol in the list, from what storage returns for it (`fetch`
     * stands for `getTradesBySymbol`); symbols with no stored trades are skipped.
     */
    method UpdateSymbolStats(symbol: Option<string>, fetch: string -> seq<Trade>)
      requires Valid()
      modifies this
      ensures symbolStats == UpdatedStats(old(symbolStats), SymbolsToUpdate(symbol, old(trades)), Recompute(fetch))
      ensures trades == old(trades) && dateFilter == old(dateFilter)
      ensures Valid()
    {
      var symbols := SymbolsToUpdate(symbol, trades);
      var todo := symbols;
      while todo != {}
        invariant todo <= symbols
        invariant symbolStats == UpdatedStats(old(symbolStats), symbols - todo, Recompute(fetch))
        invariant trades == old(trades) && dateFilter == old(dateFilter)
        decreases |todo|
      {
        var s :| s in todo;
        var stats := StatsFor(fetch(s));
        VisitStep(old(symbolStats), symbols, todo, s, Recompute(fetch));
        if stats.Some? {
          symbolStats := symbolStats[s := stats.value];
        }
        todo := todo - {s};
      }
      assert symbols - todo == symbols;
      UpdatePreservesValidity(old(symbolStats), symbols, fetch);
    }

    /**
     * `addTrade`: storage saves the trade, the list becomes what storage now
     * holds (`stored`), and only the trade's symbol is recomputed.
     */
    method AddTrade(trade: Trade, stored: seq<Trade>, fetch: string -> seq<Trade>)
      requires Valid()
      modifies this
      ensures trades == stored && dateFilter == old(dateFilter)
      ensures symbolStats == UpdatedStats(old(symbolStats), {trade.cryptoPair}, Recompute(fetch))
      ensures Valid()
    {
      trades := stored;
      UpdateSymbolStats(Some(trade.cryptoPair), fetch);
    }

    /**
     * `deleteTrade`: storage deletes the trade and only its symbol is
     * recomputed; the list itself is not refreshed, and when storage has no
     * trade left for the symbol its old entry stays in the cache.
     */
    method DeleteTrade(trade: Trade, fetch: string -> seq<Trade>)
      requires Valid()
      modifies this
      ensures trades == old(trades) && dateFilter == old(dateFilter)
      ensures symbolStats == UpdatedStats(old(symbolStats), {trade.cryptoPair}, Recompute(fetch))
      ensures fetch(trade.cryptoPair) == [] ==> symbolStats == old(symbolStats)
      ensures Valid()
    {
      UpdateSymbolStats(Some(trade.cryptoPair), fetch);
      UpdateTouchesOnlyItsSymbol(old(symbolStats), trade.cryptoPair, Recompute(fetch));
    }

    /** `getSymbolStats(for:)`: the cached entry, if there is one. */
    function GetSymbolStats(symbol: string): (r: Option<SymbolStats>)
      reads this
      ensures r.Some? <==> symbol in symbolStats
      ensures r.Some? ==> r.value == symbolStats[symbol]
      ensures Valid() && r.Some? ==> ValidStats(r.value)
    {
      if symbol in symbolStats then Some(symbolStats[symbol]) else None
    }

    /** The cache as a list of entries, one per symbol, in the dictionary's (unspecified) order. */
    method Entries() returns (entries: seq<SymbolEntry>)
      ensures |entries| == |symbolStats|
      ensures forall i :: 0 <= i < |entries| ==>
                entries[i].symbol in symbolStats && symbolStats[entries[i].symbol] == entries[i].stats
      ensures forall k :: k in symbolStats ==> exists i :: 0 <= i < |entries| && entries[i].symbol == k
      ensures DistinctBy(entries, SymbolOfEntry)
    {
      var keys := symbolStats.Keys;
      entries := [];
      while keys != {}
        invariant keys <= symbolStats.Keys
        invariant forall i :: 0 <= i < |entries| ==>
                    entries[i].symbol in symbolStats && entries[i].symbol !in keys && symbolStats[entries[i].symbol] == entries[i].stats
        invariant forall k :: k in symbolStats && k !in keys ==> exists i :: 0 <= i < |entries| && entries[i].symbol == k
        invariant DistinctBy(entries, SymbolOfEntry)
        invariant |entries| + |keys| == |symbolStats|
        decreases |keys|
      {
        var k :| k in keys;
        ghost var before := entries;
        entries := entries + [SymbolEntry(k, symbolStats[k])];
        assert forall i :: 0 <= i < |before| ==> entries[i] == before[i];
        assert entries[|before|].symbol == k;
        keys := keys - {k};
      }
    }

    /**
     * `groupTradesBySymbol`: the cached entries with the most trades, at most
     * ten, busiest first; no symbol left out has more trades than one shown.
     */
    method GroupTradesBySymbol() returns (r: seq<SymbolEntry>)
      ensures |r| == if |symbolStats| < TopSymbols then |symbolStats| else TopSymbols
      ensures forall i :: 0 <= i < |r| ==> r[i].symbol in symbolStats && symbolStats[r[i].symbol] == r[i].stats
      ensures DistinctBy(r, SymbolOfEntry)
      ensures SortedBy(r, MoreTrades)
      ensures forall k, i :: k in symbolStats && !Lists(r, k) && 0 <= i < |r| ==>
                symbolStats[k].totalTrades <= r[i].stats.totalTrades
    {
      var entries := Entries();
      MoreTradesIsTotalPreorder();
      var sorted := Sort(entries, MoreTrades);
      SortDistinctBy(entries, MoreTrades, SymbolOfEntry);
      var n := if |sorted| < TopSymbols then |sorted| else TopSymbols;
      TopEntriesBusiest(symbolStats, entries, sorted, n);
      assert sorted == sorted[..n] + sorted[n..];
      TopEntriesFromCache(symbolStats, entries, sorted[..n]);
      DistinctByPrefix(sorted, n, SymbolOfEntry);
      SortedByPrefix(sorted, n, MoreTrades);
      r := sorted[..n];
    }

    /**
     * `filteredTrades`: every trade for `allTime`; otherwise, in order, exactly
     * the trades dated at or after the cutoff `daysBack` days before `now`,
     * each as often as in the list.
     */
    function FilteredTrades(daysAgo: nat -> Option<Timestamp>, now: Timestamp): (r: seq<Trade>)
      reads this
      ensures dateFilter == AllTime ==> r == trades
      ensures dateFilter != AllTime ==>
        var cutoff := Cutoff(dateFilter.DaysBack().value, daysAgo, now);
        && IsSubsequence(r, trades)
        && (forall i :: 0 <= i < |r| ==> r[i].date >= cutoff)
        && (forall i :: 0 <= i < |trades| && trades[i].date >= cutoff ==> trades[i] in r)
        && (forall x :: multiset(r)[x] == if x.date >= cutoff then multiset(trades)[x] else 0)
    {
      match dateFilter.DaysBack()
      case None => trades
      case Some(days) =>
        FilterIsSubsequence(trades, OnOrAfter(Cutoff(days, daysAgo, now)));
        FilterMultiset(trades, OnOrAfter(Cutoff(days, daysAgo, now)));
        Filter(trades, OnOrAfter(Cutoff(days, daysAgo, now)))
    }

    /** `totalProfitLoss`: the sum of the list's profit/loss. */
    function TotalProfitLoss(): (r: real)
      reads this
      ensures r == Sum(trades, ProfitLoss)
      ensures r == TradeAnalytics.TotalProfitLoss(trades)
    {
      Reduce(0.0, trades, ProfitLoss)
    }

    /** `winRate`: the same percentage `TradeAnalytics` computes. */
    function WinRate(): (r: real)
      reads this
      ensures 0.0 <= r <= 100.0
      ensures trades == [] ==> r == 0.0
      ensures r == TradeAnalytics.WinRate(trades)
    {
      var winningTrades := |Filter(trades, IsWin)|;
      if trades == [] then 0.0 else Percent(winningTrades, |trades|)
    }

    /** `profitFactor`: gross profit over gross loss, 0 when there is no loss. */
    function ProfitFactor(): (r: real)
      reads this
      ensures r >= 0.0
      ensures (forall i :: 0 <= i < |trades| ==> !IsLoss(trades[i])) ==> r == 0.0
      ensures r == ProfitFactorOf(trades)
    {
      ProfitFactorOf(trades)
    }

    /** `averageRiskRewardRatio`: the mean ratio over every trade. */
    function AverageRiskRewardRatio(): (r: real)
      reads this
      ensures r >= 0.0
      ensures trades == [] ==> r == 0.0
      ensures trades != [] ==> r == Sum(trades, RiskRewardRatio) / (|trades| as real)
    {
      AverageRiskRewardOf(trades)
    }
  }

  /**
   * What `loadInitialData` hands to storage: the two sample trades when storage
   * loaded nothing. The view model's own list stays as loaded.
   */
  function SeedTrades(stored: seq<Trade>, btcId: TradeId, ethId: TradeId, btcDate: Timestamp, ethDate: Timestamp): (r: seq<Trade>)
    ensures stored == [] ==> r == SampleTrades(btcId, ethId, btcDate, ethDate)
    ensures stored != [] ==> r == []
  {
    if stored == [] then SampleTrades(btcId, ethId, btcDate, ethDate) else []
  }
}
