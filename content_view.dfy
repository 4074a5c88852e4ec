/**
 * `ContentView`'s stats card: the four figures it recomputes from the view
 * model's list of trades. Each is written as the view computes it and proved
 * to show the same value as the view model's own statistic.
 */
module ContentView {
  import opened Seqs
  import opened Numbers
  import opened Trades
  import TradeAnalytics
  import opened TradeList

  /** `calculateTotalPL`: the list's total profit/loss, as the view model reports it. */
  function CalculateTotalPL(vm: TradeListViewModel): (r: real)
    reads vm
    ensures r == Sum(vm.trades, ProfitLoss)
    ensures r == vm.TotalProfitLoss()
    ensures (forall i :: 0 <= i < |vm.trades| ==> !IsLoss(vm.trades[i])) ==> r >= 0.0
  {
    Reduce(0.0, vm.trades, ProfitLoss)
  }

  /** `calculateWinRate`: a percentage, 0 for no trades, equal to the view model's win rate. */
  function CalculateWinRate(vm: TradeListViewModel): (r: real)
    reads vm
    ensures 0.0 <= r <= 100.0
    ensures vm.trades == [] ==> r == 0.0
    ensures r == vm.WinRate()
  {
    var winningTrades := |Filter(vm.trades, IsWin)|;
    if vm.trades == [] then 0.0 else Percent(winningTrades, |vm.trades|)
  }

  /**
   * `calculateProfitFactor`: gross profit over the absolute gross loss, 0
   * when there is no loss; the view model's profit factor.
   */
  function CalculateProfitFactor(vm: TradeListViewModel): (r: real)
    reads vm
    ensures r >= 0.0
    ensures (forall i :: 0 <= i < |vm.trades| ==> !IsLoss(vm.trades[i])) ==> r == 0.0
    ensures r == vm.ProfitFactor()
  {
    SumSigns(Filter(vm.trades, IsWin), ProfitLoss);
    SumSigns(Filter(vm.trades, IsLoss), ProfitLoss);
    var profits := Reduce(0.0, Filter(vm.trades, IsWin), ProfitLoss);
    var losses := Abs(Reduce(0.0, Filter(vm.trades, IsLoss), ProfitLoss));
    if losses == 0.0 then 0.0 else profits / losses
  }

  /** `calculateAverageRR`: the mean risk/reward ratio over every trade; the view model's average. */
  function CalculateAverageRR(vm: TradeListViewModel): (r: real)
    reads vm
    ensures r >= 0.0
    ensures vm.trades == [] ==> r == 0.0
    ensures r == vm.AverageRiskRewardRatio()
  {
    SumSigns(vm.trades, RiskRewardRatio);
    if vm.trades == [] then 0.0 else Reduce(0.0, vm.trades, RiskRewardRatio) / (|vm.trades| as real)
  }
}
