/**
 * `AddTradeViewModel`: the new-trade form. Its text fields are checked for
 * emptiness in a fixed order, parsed as numbers, and turned into a `Trade`;
 * every failure sets the error flag and the message shown to the user.
 */
module AddTrade {
  import opened Wrappers
  import opened Trades

  const CryptoPairMessage: string := "Please enter a crypto pair"
  const DetailsMessage: string := "Please fill in all required trade details"
  const StopsMessage: string := "Stop Loss and Take Profit are required"
  const NumericMessage: string := "Please enter valid numeric values"

  /** What the user has entered and picked on the form, as a value. */
  datatype Form = Form(
    cryptoPair: string,
    entryPrice: string,
    exitPrice: string,
    quantity: string,
    side: TradeSide,
    notes: string,
    strategy: string,
    stopLoss: string,
    takeProfit: string,
    fees: string,
    leverage: string,
    timeFrame: TimeFrame,
    confidence: ConfidenceLevel,
    emotions: string,
    setupQuality: SetupQuality,
    marketCondition: MarketCondition)

  /**
   * `validateInput`'s verdict: the message of the first check that fails, or
   * none when the pair, the prices, the quantity and both stops are filled in.
   * Fees and leverage are not checked.
   */
  function ValidationError(f: Form): (r: Option<string>)
    ensures r.None? <==>
              && f.cryptoPair != "" && f.entryPrice != "" && f.exitPrice != ""
              && f.quantity != "" && f.stopLoss != "" && f.takeProfit != ""
    ensures r == Some(CryptoPairMessage) <==> f.cryptoPair == ""
    ensures r == Some(DetailsMessage) <==>
              f.cryptoPair != "" && (f.entryPrice == "" || f.exitPrice == "" || f.quantity == "")
    ensures r == Some(StopsMessage) <==>
              && f.cryptoPair != "" && f.entryPrice != "" && f.exitPrice != "" && f.quantity != ""
              && (f.stopLoss == "" || f.takeProfit == "")
  {
    if f.cryptoPair == "" then Some(CryptoPairMessage)
    else if f.entryPrice == "" || f.exitPrice == "" || f.quantity == "" then Some(DetailsMessage)
    else if f.stopLoss == "" || f.takeProfit == "" then Some(StopsMessage)
    else None
  }

  /** `Double(_)` on each of the seven numeric fields succeeds. */
  predicate ParsesAll(f: Form, parse: string -> Option<real>) {
    && parse(f.entryPrice).Some? && parse(f.exitPrice).Some? && parse(f.quantity).Some?
    && parse(f.stopLoss).Some? && parse(f.takeProfit).Some?
    && parse(f.fees).Some? && parse(f.leverage).Some?
  }

  /** The outcome of pressing Save: the message shown, or the new trade. */
  datatype Submission = Rejected(message: string) | Accepted(trade: Trade)

  /**
   * `createTrade` as a value: validation first, then parsing, then the trade
   * with the given id and date (the defaults `UUID()` and `Date()`).
   */
  function Submit(f: Form, parse: string -> Option<real>, id: TradeId, now: Timestamp): (r: Submission)
    ensures r.Accepted? <==> ValidationError(f).None? && ParsesAll(f, parse)
    ensures ValidationError(f).Some? ==> r == Rejected(ValidationError(f).value)
    ensures ValidationError(f).None? && !ParsesAll(f, parse) ==> r == Rejected(NumericMessage)
    ensures r.Accepted? ==>
              && r.trade.id == id && r.trade.date == now
              && r.trade.cryptoPair == f.cryptoPair && r.trade.side == f.side
              && Some(r.trade.entryPrice) == parse(f.entryPrice)
              && Some(r.trade.exitPrice) == parse(f.exitPrice)
              && Some(r.trade.quantity) == parse(f.quantity)
              && Some(r.trade.stopLoss) == parse(f.stopLoss)
              && Some(r.trade.takeProfit) == parse(f.takeProfit)
              && Some(r.trade.fees) == parse(f.fees)
              && Some(r.trade.leverage) == parse(f.leverage)
              && r.trade.notes == f.notes && r.trade.strategy == f.strategy
              && r.trade.timeFrame == f.timeFrame && r.trade.confidence == f.confidence
              && r.trade.emotions == f.emotions && r.trade.setupQuality == f.setupQuality
              && r.trade.marketCondition == f.marketCondition
  {
    if ValidationError(f).Some? then Rejected(ValidationError(f).value)
    else if !ParsesAll(f, parse) then Rejected(NumericMessage)
    else
      Accepted(Trade(id, f.cryptoPair, parse(f.entryPrice).value, parse(f.exitPrice).value,
                     parse(f.quantity).value, f.side, now, f.notes, f.strategy, f.timeFrame,
                     parse(f.stopLoss).value, parse(f.takeProfit).value, parse(f.fees).value,
                     parse(f.leverage).value, f.confidence, f.emotions, f.setupQuality,
                     f.marketCondition))
  }

  /**
   * An empty fees field is not caught by validation: when the parser rejects
   * the empty string, the user sees the numeric-values message.
   */
  lemma EmptyFeesIsNumericError(f: Form, parse: string -> Option<real>, id: TradeId, now: Timestamp)
    requires ValidationError(f).None? && f.fees == "" && parse("") == None
    ensures Submit(f, parse, id, now) == Rejected(NumericMessage)
  {
  }

  /** An empty pair is reported as such, whatever else is missing or unparsable. */
  lemma PairReportedFirst(f: Form, parse: string -> Option<real>, id: TradeId, now: Timestamp)
    requires f.cryptoPair == ""
    ensures Submit(f, parse, id, now) == Rejected(CryptoPairMessage)
  {
  }

  /** The form's state: its fields, the error flag and the error message. */
  class AddTradeViewModel {
    var cryptoPair: string
    var entryPrice: string
    var exitPrice: string
    var quantity: string
    var side: TradeSide
    var notes: string
    var strategy: string
    var stopLoss: string
    var takeProfit: string
    var fees: string
    var leverage: string
    var timeFrame: TimeFrame
    var confidence: ConfidenceLevel
    var emotions: string
    var setupQuality: SetupQuality
    var marketCondition: MarketCondition
    var showError: bool
    var errorMessage: string

    /** The fields the user edits, as a value. */
    function Fields(): Form
      reads this
    {
      Form(cryptoPair, entryPrice, exitPrice, quantity, side, notes, strategy, stopLoss,
           takeProfit, fees, leverage, timeFrame, confidence, emotions, setupQuality,
           marketCondition)
    }

    /**
     * A fresh form: every text empty except fees "0" and leverage "1", a long
     * one-hour trade of medium confidence on a good setup in a neutral market,
     * and no error shown.
     */
    constructor ()
      ensures Fields() == Form("", "", "", "", Long, "", "", "", "", "0", "1", H1, Medium, "", Good, Neutral)
      ensures !showError && errorMessage == ""
    {
      cryptoPair, entryPrice, exitPrice, quantity := "", "", "", "";
      side, notes, strategy, stopLoss, takeProfit := Long, "", "", "", "";
      fees, leverage, timeFrame, confidence := "0", "1", H1, Medium;
      emotions, setupQuality, marketCondition := "", Good, Neutral;
      showError, errorMessage := false, "";
    }

    /** `showError(message:)`: the message is set and the flag raised. */
    method ShowError(message: string)
      modifies this
      ensures Fields() == old(Fields())
      ensures showError && errorMessage == message
    {
      errorMessage := message;
      showError := true;
    }

    /**
     * `validateInput`: true exactly when no check fails; on a failure the
     * first failing check's message is shown, on success nothing changes.
     */
    method ValidateInput() returns (ok: bool)
      modifies this
      ensures Fields() == old(Fields())
      ensures ok <==> ValidationError(Fields()).None?
      ensures !ok ==> showError && errorMessage == ValidationError(Fields()).value
      ensures ok ==> showError == old(showError) && errorMessage == old(errorMessage)
    {
      if cryptoPair == "" {
        ShowError(CryptoPairMessage);
        return false;
      }
      if entryPrice == "" || exitPrice == "" || quantity == "" {
        ShowError(DetailsMessage);
        return false;
      }
      if stopLoss == "" || takeProfit == "" {
        ShowError(StopsMessage);
        return false;
      }
      return true;
    }

    /**
     * `createTrade`: the trade `Submit` builds from the form, or none with
     * its message shown. A successful save leaves every field as it was,
     * including an error shown by an earlier attempt.
     */
    method CreateTrade(parse: string -> Option<real>, id: TradeId, now: Timestamp) returns (trade: Option<Trade>)
      modifies this
      ensures Fields() == old(Fields())
      ensures match Submit(Fields(), parse, id, now)
              case Accepted(t) =>
                trade == Some(t) && showError == old(showError) && errorMessage == old(errorMessage)
              case Rejected(message) =>
                trade.None? && showError && errorMessage == message
    {
      var valid := ValidateInput();
      if !valid {
        return None;
      }
      if !ParsesAll(Fields(), parse) {
        ShowError(NumericMessage);
        return None;
      }
      trade := Some(Trade(id, cryptoPair, parse(entryPrice).value, parse(exitPrice).value,
                          parse(quantity).value, side, now, notes, strategy, timeFrame,
                          parse(stopLoss).value, parse(takeProfit).value, parse(fees).value,
                          parse(leverage).value, confidence, emotions, setupQuality,
                          marketCondition));
    }
  }
}
