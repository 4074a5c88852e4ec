/**
 * `TradeAnalytics`: the two headline figures of a list of trades, total
 * profit/loss and win rate. The view models and views that recompute them
 * are proved to agree with these definitions.
 */
module TradeAnalytics {
  import opened Seqs
  import opened Numbers
  import opened Trades

  /** `totalProfitLoss`: `reduce(0)` over the trades' profit/loss, which is their sum. */
  function TotalProfitLoss(trades: seq<Trade>): (r: real)
    ensures r == Sum(trades, ProfitLoss)
    ensures trades == [] ==> r == 0.0
    ensures (forall i :: 0 <= i < |trades| ==> !IsLoss(trades[i])) ==> r >= 0.0
  {
    SumSigns(trades, ProfitLoss);
    Reduce(0.0, trades, ProfitLoss)
  }

  /** Over exact reals the total does not depend on the order of the trades. */
  lemma TotalProfitLossPermutation(a: seq<Trade>, b: seq<Trade>)
    requires multiset(a) == multiset(b)
    ensures TotalProfitLoss(a) == TotalProfitLoss(b)
  {
    SumPermutation(a, b, ProfitLoss);
  }

  /** The total of a concatenation is the sum of the totals. */
  lemma TotalProfitLossAppend(a: seq<Trade>, b: seq<Trade>)
    ensures TotalProfitLoss(a + b) == TotalProfitLoss(a) + TotalProfitLoss(b)
  {
    SumAppend(a, b, ProfitLoss);
  }

  /**
   * `winRate`: the percentage of trades with a positive profit/loss; 0 for no
   * trades; 100 exactly when every trade wins and 0 exactly when none does.
   */
  function WinRate(trades: seq<Trade>): (r: real)
    ensures 0.0 <= r <= 100.0
    ensures trades == [] ==> r == 0.0
    ensures trades != [] ==> (r == 100.0 <==> forall i :: 0 <= i < |trades| ==> IsWin(trades[i]))
    ensures r == 0.0 <==> forall i :: 0 <= i < |trades| ==> !IsWin(trades[i])
  {
    var winningTrades := |Filter(trades, IsWin)|;
    FilterLength(trades, IsWin);
    if trades == [] then 0.0 else Percent(winningTrades, |trades|)
  }

  /** Reordering the trades leaves the win rate unchanged. */
  lemma WinRatePermutation(a: seq<Trade>, b: seq<Trade>)
    requires multiset(a) == multiset(b)
    ensures WinRate(a) == WinRate(b)
  {
    FilterPermutation(a, b, IsWin);
    assert |a| == |multiset(a)| == |multiset(b)| == |b|;
  }

  /** The two sample trades both win: the seeded journal totals 187.10 at a 100 % win rate. */
  lemma SampleJournal(btcId: TradeId, ethId: TradeId, btcDate: Timestamp, ethDate: Timestamp)
    ensures TotalProfitLoss(SampleTrades(btcId, ethId, btcDate, ethDate)) == 187.10
    ensures WinRate(SampleTrades(btcId, ethId, btcDate, ethDate)) == 100.0
  {
    var s := SampleTrades(btcId, ethId, btcDate, ethDate);
    SampleTradesProfit(btcId, ethId, btcDate, ethDate);
    assert s[1..][1..] == [];
    assert Sum(s[1..], ProfitLoss) == ProfitLoss(s[1]);
    assert Sum(s, ProfitLoss) == ProfitLoss(s[0]) + ProfitLoss(s[1]);
  }
}
