/**
 * The Core Data side of `TradeStorageManager`: the stored `TradeEntity`
 * record with its optional attributes, its conversion to and from `Trade`,
 * and the rule by which a fetched page replaces or extends the loaded list.
 */
module Storage {
  import opened Wrappers
  import opened Trades
  import opened Seqs

  /**
   * A stored trade's attributes, as a value. Strings, the id and the date may
   * be missing (`nil`); the numeric attributes are always present.
   * Enumerations are stored as their raw strings.
   */
  datatype StoredTrade = StoredTrade(
    id: Option<TradeId>,
    cryptoPair: Option<string>,
    entryPrice: real,
    exitPrice: real,
    quantity: real,
    side: Option<string>,
    date: Option<Timestamp>,
    notes: Option<string>,
    strategy: Option<string>,
    timeFrame: Option<string>,
    stopLoss: real,
    takeProfit: real,
    fees: real,
    leverage: real,
    confidence: Option<string>,
    emotions: Option<string>,
    setupQuality: Option<string>,
    marketCondition: Option<string>)

  /**
   * `toTrade`: none when the id, pair, side, date, time frame, confidence,
   * setup quality or market condition is missing. Otherwise the trade with
   * the stored numbers; missing notes, strategy and emotions read as empty,
   * and a raw string no case carries reads as long, one hour, medium, good
   * and neutral respectively.
   */
  function Load(s: StoredTrade): (r: Option<Trade>)
    ensures r.None? <==>
              || s.id.None? || s.cryptoPair.None? || s.side.None? || s.date.None?
              || s.timeFrame.None? || s.confidence.None? || s.setupQuality.None? || s.marketCondition.None?
    ensures r.Some? ==>
              && r.value.id == s.id.value && r.value.cryptoPair == s.cryptoPair.value
              && r.value.date == s.date.value
              && r.value.entryPrice == s.entryPrice && r.value.exitPrice == s.exitPrice
              && r.value.quantity == s.quantity && r.value.stopLoss == s.stopLoss
              && r.value.takeProfit == s.takeProfit && r.value.fees == s.fees
              && r.value.leverage == s.leverage
    ensures r.Some? ==>
              && (s.notes.Some? ==> r.value.notes == s.notes.value) && (s.notes.None? ==> r.value.notes == "")
              && (s.strategy.Some? ==> r.value.strategy == s.strategy.value) && (s.strategy.None? ==> r.value.strategy == "")
              && (s.emotions.Some? ==> r.value.emotions == s.emotions.value) && (s.emotions.None? ==> r.value.emotions == "")
    ensures r.Some? ==>
              && (r.value.side.RawValue() == s.side.value || (TradeSideFromRaw(s.side.value).None? && r.value.side == Long))
              && (r.value.timeFrame.RawValue() == s.timeFrame.value || (TimeFrameFromRaw(s.timeFrame.value).None? && r.value.timeFrame == H1))
              && (r.value.confidence.RawValue() == s.confidence.value || (ConfidenceFromRaw(s.confidence.value).None? && r.value.confidence == Medium))
              && (r.value.setupQuality.RawValue() == s.setupQuality.value || (SetupQualityFromRaw(s.setupQuality.value).None? && r.value.setupQuality == Good))
              && (r.value.marketCondition.RawValue() == s.marketCondition.value || (MarketConditionFromRaw(s.marketCondition.value).None? && r.value.marketCondition == Neutral))
  {
    if s.id.None? || s.cryptoPair.None? || s.side.None? || s.date.None? || s.timeFrame.None?
       || s.confidence.None? || s.setupQuality.None? || s.marketCondition.None?
    then None
    else
      Some(Trade(s.id.value, s.cryptoPair.value, s.entryPrice, s.exitPrice, s.quantity,
                 TradeSideFromRaw(s.side.value).GetOr(Long), s.date.value, s.notes.GetOr(""),
                 s.strategy.GetOr(""), TimeFrameFromRaw(s.timeFrame.value).GetOr(H1),
                 s.stopLoss, s.takeProfit, s.fees, s.leverage,
                 ConfidenceFromRaw(s.confidence.value).GetOr(Medium), s.emotions.GetOr(""),
                 SetupQualityFromRaw(s.setupQuality.value).GetOr(Good),
                 MarketConditionFromRaw(s.marketCondition.value).GetOr(Neutral)))
  }

  /**
   * `fromTrade`'s attribute values: every attribute present, the numbers as
   * they are and the enumerations as their raw strings.
   */
  function Store(t: Trade): (s: StoredTrade)
    ensures s.id.Some? && s.cryptoPair.Some? && s.side.Some? && s.date.Some? && s.timeFrame.Some?
    ensures s.confidence.Some? && s.setupQuality.Some? && s.marketCondition.Some?
    ensures s.notes.Some? && s.strategy.Some? && s.emotions.Some?
  {
    StoredTrade(Some(t.id), Some(t.cryptoPair), t.entryPrice, t.exitPrice, t.quantity,
                Some(t.side.RawValue()), Some(t.date), Some(t.notes), Some(t.strategy),
                Some(t.timeFrame.RawValue()), t.stopLoss, t.takeProfit, t.fees, t.leverage,
                Some(t.confidence.RawValue()), Some(t.emotions), Some(t.setupQuality.RawValue()),
                Some(t.marketCondition.RawValue()))
  }

  /** A stored trade reads back as exactly the trade that was stored, field by field. */
  lemma LoadStore(t: Trade)
    ensures Load(Store(t)) == Some(t)
  {
    RawValueRoundTrip();
    var s := Store(t);
    assert TradeSideFromRaw(s.side.value) == Some(t.side);
    assert TimeFrameFromRaw(s.timeFrame.value) == Some(t.timeFrame);
    assert ConfidenceFromRaw(s.confidence.value) == Some(t.confidence);
    assert SetupQualityFromRaw(s.setupQuality.value) == Some(t.setupQuality);
    assert MarketConditionFromRaw(s.marketCondition.value) == Some(t.marketCondition);
  }

  /**
   * A Core Data `TradeEntity` record. Its attributes are held as one
   * `StoredTrade` value, which `fromTrade` updates attribute by attribute.
   */
  class TradeEntity {
    var attributes: StoredTrade

    /** A newly inserted record: every optional attribute missing, every number 0. */
    constructor ()
      ensures attributes == StoredTrade(None, None, 0.0, 0.0, 0.0, None, None, None, None, None,
                                        0.0, 0.0, 0.0, 0.0, None, None, None, None)
    {
      attributes := StoredTrade(None, None, 0.0, 0.0, 0.0, None, None, None, None, None,
                                0.0, 0.0, 0.0, 0.0, None, None, None, None);
    }

    /** `toTrade` on this record. */
    function ToTrade(): Option<Trade>
      reads this
    {
      Load(attributes)
    }

    /**
     * `fromTrade`: every attribute is written from the trade, so the record
     * reads back as exactly that trade.
     */
    method FromTrade(t: Trade)
      modifies this
      ensures attributes == Store(t)
      ensures ToTrade() == Some(t)
    {
      attributes := attributes.(id := Some(t.id), cryptoPair := Some(t.cryptoPair));
      attributes := attributes.(entryPrice := t.entryPrice, exitPrice := t.exitPrice, quantity := t.quantity);
      attributes := attributes.(side := Some(t.side.RawValue()), date := Some(t.date));
      attributes := attributes.(notes := Some(t.notes), strategy := Some(t.strategy));
      attributes := attributes.(timeFrame := Some(t.timeFrame.RawValue()));
      attributes := attributes.(stopLoss := t.stopLoss, takeProfit := t.takeProfit);
      attributes := attributes.(fees := t.fees, leverage := t.leverage);
      attributes := attributes.(confidence := Some(t.confidence.RawValue()), emotions := Some(t.emotions));
      attributes := attributes.(setupQuality := Some(t.setupQuality.RawValue()));
      attributes := attributes.(marketCondition := Some(t.marketCondition.RawValue()));
      LoadStore(t);
    }
  }

  /** What each fetched row converts to, in fetch order. */
  function Conversions(rows: seq<TradeEntity>): (r: seq<Option<Trade>>)
    reads set e | e in rows
    ensures |r| == |rows|
    ensures forall i :: 0 <= i < |rows| ==> r[i] == rows[i].ToTrade()
  {
    if rows == [] then [] else [rows[0].ToTrade()] + Conversions(rows[1..])
  }

  predicate Converts(o: Option<Trade>) { o.Some? }

  function Wrap(t: Trade): Option<Trade> { Some(t) }

  /** `compactMap { $0.toTrade() }`: the trades of the rows that convert, in fetch order. */
  function Decoded(rows: seq<TradeEntity>): (r: seq<Trade>)
    reads set e | e in rows
    ensures |r| <= |rows|
    ensures forall i :: 0 <= i < |rows| && rows[i].ToTrade().Some? ==> rows[i].ToTrade().value in r
    ensures |r| == |rows| <==> forall i :: 0 <= i < |rows| ==> rows[i].ToTrade().Some?
  {
    if rows == [] then []
    else
      var rest := Decoded(rows[1..]);
      assert forall i :: 1 <= i < |rows| ==> rows[i] == rows[1..][i - 1];
      match rows[0].ToTrade()
      case Some(t) => [t] + rest
      case None => rest
  }

  /**
   * The decoded trades are the rows' conversions with the failed ones dropped,
   * in fetch order: put back into an optional, they are the filtered list of
   * conversions. So each trade comes from a row that converts to it.
   */
  lemma {:induction false} DecodedInOrder(rows: seq<TradeEntity>)
    ensures Map(Decoded(rows), Wrap) == Filter(Conversions(rows), Converts)
    ensures forall j :: 0 <= j < |Decoded(rows)| ==>
              exists i :: 0 <= i < |rows| && rows[i].ToTrade() == Some(Decoded(rows)[j])
  {
    if rows != [] {
      DecodedInOrder(rows[1..]);
      assert Conversions(rows)[1..] == Conversions(rows[1..]);
      var r, rest := Decoded(rows), Decoded(rows[1..]);
      if rows[0].ToTrade().Some? {
        assert Map(r, Wrap)[1..] == Map(rest, Wrap);
      }
      forall j | 0 <= j < |r|
        ensures exists i :: 0 <= i < |rows| && rows[i].ToTrade() == Some(r[j])
      {
        assert Map(r, Wrap)[j] == Some(r[j]);
        assert Some(r[j]) in Filter(Conversions(rows), Converts);
        var i :| 0 <= i < |rows| && Conversions(rows)[i] == Some(r[j]);
      }
    }
  }

  /** Decoding two pages one after the other decodes their concatenation. */
  lemma {:induction false} DecodedAppend(a: seq<TradeEntity>, b: seq<TradeEntity>)
    ensures Decoded(a + b) == Decoded(a) + Decoded(b)
  {
    if a == [] {
      assert a + b == b;
    } else {
      assert (a + b)[1..] == a[1..] + b;
      DecodedAppend(a[1..], b);
    }
  }

  /** The loaded list and whether a load is under way. */
  class TradeStorageManager {
    var trades: seq<Trade>
    var loadingState: bool

    constructor ()
      ensures trades == [] && !loadingState
    {
      trades := [];
      loadingState := false;
    }

    /**
     * `loadTrades(offset:)` with the fetch's outcome as a parameter (`None`
     * when it throws): a page at offset 0 replaces the list, a page at any
     * other offset is appended to it, and a failed fetch leaves it as it was.
     * The loading flag ends lowered.
     */
    method LoadTrades(offset: int, fetched: Option<seq<TradeEntity>>)
      modifies this
      ensures !loadingState
      ensures fetched.None? ==> trades == old(trades)
      ensures fetched.Some? && offset == 0 ==> trades == Decoded(fetched.value)
      ensures fetched.Some? && offset != 0 ==> trades == old(trades) + Decoded(fetched.value)
    {
      loadingState := true;
      if fetched.Some? {
        var newTrades := Decoded(fetched.value);
        if offset == 0 {
          trades := newTrades;
        } else {
          trades := trades + newTrades;
        }
      }
      loadingState := false;
    }
  }

  /**
   * Loading page 0 and then a later page leaves the trades of both fetches,
   * in fetch order, as if they had come in one page.
   */
  method LoadTwoPages(manager: TradeStorageManager, first: seq<TradeEntity>, next: seq<TradeEntity>, offset: int)
    requires offset != 0
    modifies manager
    ensures manager.trades == Decoded(first + next)
  {
    manager.LoadTrades(0, Some(first));
    manager.LoadTrades(offset, Some(next));
    DecodedAppend(first, next);
  }
}
