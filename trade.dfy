/**
 * The journal's `Trade` record, its enumerations with their raw strings, and
 * the per-trade metrics every statistic is built from.
 */
module Trades {
  import opened Wrappers
  import opened Numbers

  /** Seconds since a fixed epoch: the model's `Date`. */
  type Timestamp = int

  /** The model's `UUID`. */
  type TradeId = nat

  datatype TradeSide = Long | Short {
    function RawValue(): (r: string)
      ensures r == "Long" || r == "Short"
    {
      match this
      case Long => "Long"
      case Short => "Short"
    }
  }

  /** `TradeSide(rawValue:)`: the case whose raw string is `raw`, if any. */
  function TradeSideFromRaw(raw: string): (r: Option<TradeSide>)
    ensures r.Some? ==> r.value.RawValue() == raw
    ensures forall s: TradeSide :: s.RawValue() == raw ==> r == Some(s)
  {
    if raw == "Long" then Some(Long)
    else if raw == "Short" then Some(Short)
    else None
  }

  datatype TimeFrame = M1 | M5 | M15 | M30 | H1 | H4 | D1 | W1 {
    function RawValue(): string {
      match this
      case M1 => "1m"
      case M5 => "5m"
      case M15 => "15m"
      case M30 => "30m"
      case H1 => "1h"
      case H4 => "4h"
      case D1 => "1d"
      case W1 => "1w"
    }
  }

  /** `TimeFrame(rawValue:)`. */
  function TimeFrameFromRaw(raw: string): (r: Option<TimeFrame>)
    ensures r.Some? ==> r.value.RawValue() == raw
    ensures forall f: TimeFrame :: f.RawValue() == raw ==> r == Some(f)
  {
    if raw == "1m" then Some(M1)
    else if raw == "5m" then Some(M5)
    else if raw == "15m" then Some(M15)
    else if raw == "30m" then Some(M30)
    else if raw == "1h" then Some(H1)
    else if raw == "4h" then Some(H4)
    else if raw == "1d" then Some(D1)
    else if raw == "1w" then Some(W1)
    else None
  }

  datatype ConfidenceLevel = Low | Medium | High {
    function RawValue(): string {
      match this
      case Low => "Low"
      case Medium => "Medium"
      case High => "High"
    }
  }

  /** `ConfidenceLevel(rawValue:)`. */
  function ConfidenceFromRaw(raw: string): (r: Option<ConfidenceLevel>)
    ensures r.Some? ==> r.value.RawValue() == raw
    ensures forall c: ConfidenceLevel :: c.RawValue() == raw ==> r == Some(c)
  {
    if raw == "Low" then Some(Low)
    else if raw == "Medium" then Some(Medium)
    else if raw == "High" then Some(High)
    else None
  }

  datatype SetupQuality = Poor | Good | Excellent {
    function RawValue(): string {
      match this
      case Poor => "Poor"
      case Good => "Good"
      case Excellent => "Excellent"
    }
  }

  /** `SetupQuality(rawValue:)`. */
  function SetupQualityFromRaw(raw: string): (r: Option<SetupQuality>)
    ensures r.Some? ==> r.value.RawValue() == raw
    ensures forall q: SetupQuality :: q.RawValue() == raw ==> r == Some(q)
  {
    if raw == "Poor" then Some(Poor)
    else if raw == "Good" then Some(Good)
    else if raw == "Excellent" then Some(Excellent)
    else None
  }

  datatype MarketCondition = Bearish | Neutral | Bullish {
    function RawValue(): string {
      match this
      case Bearish => "Bearish"
      case Neutral => "Neutral"
      case Bullish => "Bullish"
    }
  }

  /** `MarketCondition(rawValue:)`. */
  function MarketConditionFromRaw(raw: string): (r: Option<MarketCondition>)
    ensures r.Some? ==> r.value.RawValue() == raw
    ensures forall m: MarketCondition :: m.RawValue() == raw ==> r == Some(m)
  {
    if raw == "Bearish" then Some(Bearish)
    else if raw == "Neutral" then Some(Neutral)
    else if raw == "Bullish" then Some(Bullish)
    else None
  }

  /** Distinct raw strings: every case survives the trip to its raw value and back. */
  lemma RawValueRoundTrip()
    ensures forall s: TradeSide :: TradeSideFromRaw(s.RawValue()) == Some(s)
    ensures forall f: TimeFrame :: TimeFrameFromRaw(f.RawValue()) == Some(f)
    ensures forall c: ConfidenceLevel :: ConfidenceFromRaw(c.RawValue()) == Some(c)
    ensures forall q: SetupQuality :: SetupQualityFromRaw(q.RawValue()) == Some(q)
    ensures forall m: MarketCondition :: MarketConditionFromRaw(m.RawValue()) == Some(m)
  {
  }

  /** One journal entry. Prices, quantity, fee rate (in percent) and leverage are exact reals. */
  datatype Trade = Trade(
    id: TradeId,
    cryptoPair: string,
    entryPrice: real,
    exitPrice: real,
    quantity: real,
    side: TradeSide,
    date: Timestamp,
    notes: string,
    strategy: string,
    timeFrame: TimeFrame,
    stopLoss: real,
    takeProfit: real,
    fees: real,
    leverage: real,
    confidence: ConfidenceLevel,
    emotions: string,
    setupQuality: SetupQuality,
    marketCondition: MarketCondition)

  /**
   * `Trade.init` with its defaults: empty notes, strategy and emotions, a one-hour
   * time frame, a 0.1 % fee rate, leverage 1, medium confidence, a good setup and a
   * neutral market. The id and the date, which default to `UUID()` and `Date()`,
   * are parameters.
   */
  function NewTrade(id: TradeId, date: Timestamp, cryptoPair: string, entryPrice: real, exitPrice: real,
                    quantity: real, side: TradeSide, notes: string, strategy: string,
                    stopLoss: real, takeProfit: real): (t: Trade)
    ensures t.id == id && t.date == date && t.cryptoPair == cryptoPair && t.side == side
    ensures t.entryPrice == entryPrice && t.exitPrice == exitPrice && t.quantity == quantity
    ensures t.stopLoss == stopLoss && t.takeProfit == takeProfit
    ensures t.notes == notes && t.strategy == strategy
    ensures t.timeFrame == H1 && t.fees == 0.1 && t.leverage == 1.0 && t.emotions == ""
    ensures t.confidence == Medium && t.setupQuality == Good && t.marketCondition == Neutral
  {
    Trade(id, cryptoPair, entryPrice, exitPrice, quantity, side, date, notes, strategy, H1,
          stopLoss, takeProfit, 0.1, 1.0, Medium, "", Good, Neutral)
  }

  /** `calculateRawProfitLoss`: the price move in the trade's favour, times the quantity. */
  function RawProfitLoss(t: Trade): (r: real)
    ensures t.quantity >= 0.0 && t.side == Long && t.exitPrice >= t.entryPrice ==> r >= 0.0
    ensures t.quantity >= 0.0 && t.side == Short && t.exitPrice <= t.entryPrice ==> r >= 0.0
  {
    var priceDifference := if t.side == Long then t.exitPrice - t.entryPrice else t.entryPrice - t.exitPrice;
    priceDifference * t.quantity
  }

  /** `calculateTotalFees`: the fee rate, a percentage, charged on the traded value of both legs. */
  function TotalFees(t: Trade): (r: real)
    ensures t.fees >= 0.0 && t.entryPrice >= 0.0 && t.exitPrice >= 0.0 && t.quantity >= 0.0 ==> r >= 0.0
  {
    var totalValue := (t.entryPrice + t.exitPrice) * t.quantity;
    (t.fees / 100.0) * totalValue
  }

  /**
   * `profitLoss`: leveraged raw profit minus fees. Without fees it is the
   * leveraged raw result; with a non-negative fee rate, prices and quantity
   * the fees only lower it.
   */
  function ProfitLoss(t: Trade): (r: real)
    ensures t.fees == 0.0 ==> r == RawProfitLoss(t) * t.leverage
    ensures t.fees >= 0.0 && t.entryPrice >= 0.0 && t.exitPrice >= 0.0 && t.quantity >= 0.0 ==>
              r <= RawProfitLoss(t) * t.leverage
  {
    RawProfitLoss(t) * t.leverage - TotalFees(t)
  }

  /** A short is the mirror image of a long over the same prices and quantity. */
  lemma ShortMirrorsLong(t: Trade)
    ensures RawProfitLoss(t.(side := Short)) == -RawProfitLoss(t.(side := Long))
  {
  }

  /**
   * The fees do not depend on the side: the long and the short version of a
   * trade together lose exactly twice its fees, whatever the prices.
   */
  lemma SidesShareFees(t: Trade)
    ensures ProfitLoss(t.(side := Short)) + ProfitLoss(t.(side := Long)) == -2.0 * TotalFees(t)
  {
    var long, short := t.(side := Long), t.(side := Short);
    ShortMirrorsLong(t);
    assert RawProfitLoss(short) * t.leverage == -(RawProfitLoss(long) * t.leverage);
    assert TotalFees(short) == TotalFees(t) && TotalFees(long) == TotalFees(t);
  }

  /** The product of a distance and two non-negative factors is non-negative. */
  lemma ScaledDistance(d: real, q: real, l: real)
    ensures q >= 0.0 && l >= 0.0 ==> Abs(d) * q * l >= 0.0
  {
    if q >= 0.0 && l >= 0.0 {
      assert Abs(d) * q >= 0.0;
    }
  }

  /** `riskAmount`: what is lost if the stop loss is hit. */
  function RiskAmount(t: Trade): (r: real)
    ensures t.quantity >= 0.0 && t.leverage >= 0.0 ==> r >= 0.0
    ensures t.stopLoss == t.entryPrice ==> r == 0.0
  {
    ScaledDistance(t.entryPrice - t.stopLoss, t.quantity, t.leverage);
    Abs(t.entryPrice - t.stopLoss) * t.quantity * t.leverage
  }

  /** `rewardAmount`: what is gained if the take profit is hit. */
  function RewardAmount(t: Trade): (r: real)
    ensures t.quantity >= 0.0 && t.leverage >= 0.0 ==> r >= 0.0
    ensures t.takeProfit == t.entryPrice ==> r == 0.0
  {
    ScaledDistance(t.takeProfit - t.entryPrice, t.quantity, t.leverage);
    Abs(t.takeProfit - t.entryPrice) * t.quantity * t.leverage
  }

  /** Dividing two values scaled by the same non-zero factor cancels the factor. */
  lemma CancelFactor(a: real, b: real, k: real)
    requires b != 0.0 && k != 0.0
    ensures (a * k) / (b * k) == a / b
  {
    calc {
      (a * k) / (b * k);
      (a / b) * (b * k) / (b * k);
      a / b;
    }
  }

  /**
   * `riskRewardRatio`: reward over risk, and exactly 0 when the risk is 0. Since
   * both amounts scale the same quantity and leverage, the ratio is never negative.
   */
  function RiskRewardRatio(t: Trade): (r: real)
    ensures RiskAmount(t) == 0.0 ==> r == 0.0
    ensures r >= 0.0
  {
    if RiskAmount(t) == 0.0 then 0.0
    else
      var k := t.quantity * t.leverage;
      assert RiskAmount(t) == Abs(t.entryPrice - t.stopLoss) * k;
      assert RewardAmount(t) == Abs(t.takeProfit - t.entryPrice) * k;
      CancelFactor(Abs(t.takeProfit - t.entryPrice), Abs(t.entryPrice - t.stopLoss), k);
      RewardAmount(t) / RiskAmount(t)
  }

  /** Away from the zero guard the ratio is the quotient: times the risk it gives the reward. */
  lemma RiskRewardRatioScales(t: Trade)
    requires RiskAmount(t) != 0.0
    ensures RiskRewardRatio(t) * RiskAmount(t) == RewardAmount(t)
  {
  }

  /** A winning trade: `profitLoss > 0`, the test every win count in the journal uses. */
  predicate IsWin(t: Trade) {
    ProfitLoss(t) > 0.0
  }

  /** A losing trade: `profitLoss < 0`. A break-even trade is neither. */
  predicate IsLoss(t: Trade) {
    ProfitLoss(t) < 0.0
  }

  function StrategyOf(t: Trade): string { t.strategy }
  function SymbolOf(t: Trade): string { t.cryptoPair }
  function TimeFrameOf(t: Trade): TimeFrame { t.timeFrame }
  function DateOf(t: Trade): Timestamp { t.date }

  /**
   * The two trades the view model seeds an empty journal with. Their ids and
   * dates come from outside: each initializer call reads the clock on its own.
   */
  function SampleTrades(btcId: TradeId, ethId: TradeId, btcDate: Timestamp, ethDate: Timestamp): (r: seq<Trade>)
    ensures |r| == 2
    ensures r[0].cryptoPair == "BTC/USDT" && r[0].side == Long && r[0].strategy == "Trend Following"
    ensures r[1].cryptoPair == "ETH/USDT" && r[1].side == Short && r[1].strategy == "Price Action"
    ensures r[0].id == btcId && r[0].date == btcDate && r[1].id == ethId && r[1].date == ethDate
    ensures forall i :: 0 <= i < |r| ==> r[i].fees == 0.1 && r[i].leverage == 1.0
  {
    [ NewTrade(btcId, btcDate, "BTC/USDT", 42000.0, 43500.0, 0.1, Long, "Strong trend following",
               "Trend Following", 41000.0, 44000.0),
      NewTrade(ethId, ethDate, "ETH/USDT", 2200.0, 2150.0, 1.0, Short, "Resistance rejection",
               "Price Action", 2250.0, 2100.0) ]
  }

  /** With the default 0.1 % fee and no leverage the seeded trades make 141.45 and 45.65. */
  lemma SampleTradesProfit(btcId: TradeId, ethId: TradeId, btcDate: Timestamp, ethDate: Timestamp)
    ensures ProfitLoss(SampleTrades(btcId, ethId, btcDate, ethDate)[0]) == 141.45
    ensures ProfitLoss(SampleTrades(btcId, ethId, btcDate, ethDate)[1]) == 45.65
    ensures RiskRewardRatio(SampleTrades(btcId, ethId, btcDate, ethDate)[0]) == 2.0
    ensures RiskRewardRatio(SampleTrades(btcId, ethId, btcDate, ethDate)[1]) == 2.0
  {
  }
}
