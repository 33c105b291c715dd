/**
 The records the asset-pairs controller reads and produces. Only the fields the
 controller's own logic touches are modelled; everything else a record carries
 passes through untouched and is left abstract.
 */
module Domain {
  import opened Wrappers

  /** A request timestamp; the controller only passes it through to the lookups. */
  datatype DateTime = DateTime(ticks: int)

  /** The candle periods a client may name. */
  datatype Period = Sec | Minute | Hour | Day | Month

  /** The side of the book a price sample belongs to. */
  datatype TradePriceType = Ask | Bid

  /** An entry of the cached asset-pair dictionary. */
  datatype AssetPair = AssetPair(id: string, isDisabled: bool)

  /** A closest-available price sample returned by the feed-history repository. */
  datatype FeedHistory = FeedHistory(assetPairId: string, priceType: TradePriceType, time: DateTime)

  /** An aggregated candle, as the candle-history repository returns it. */
  datatype Candle = Candle(time: DateTime, open: real, close: real, high: real, low: real)

  /** A feed sample converted to a candle tagged with its pair. */
  datatype CandleWithPairId = CandleWithPairId(assetPairId: string, candle: Candle)

  /** One candle side of the client-facing history-rate record. */
  datatype ApiCandle = ApiCandle(open: real, close: real, high: real, low: real)

  /** The client-facing history-rate record for one pair. */
  datatype ApiAssetPairHistoryRate = ApiAssetPairHistoryRate(id: string, ask: Option<ApiCandle>, bid: Option<ApiCandle>)

  /** The record the batch call emits for a pair without data: only `Id` is set. */
  function Placeholder(id: string): ApiAssetPairHistoryRate
  {
    ApiAssetPairHistoryRate(id, None, None)
  }

  /** A current-rate entry of the market profile, keyed by the pair it quotes. */
  datatype FeedData = FeedData(asset: string, bid: real, ask: real, time: DateTime)

  /** The market profile: the current rate of every pair the profile service knows. */
  datatype MarketProfile = MarketProfile(profile: seq<FeedData>)

  /** The body of the batch request: which pairs, at what time, in which period. */
  datatype HistoryRequest = HistoryRequest(period: Period, dateTime: DateTime, assetPairIds: seq<string>)

  /** The body of the single-pair request; the pair comes from the route. */
  datatype PairHistoryRequest = PairHistoryRequest(period: Period, dateTime: DateTime)

  datatype ErrorCode = InvalidInput

  /** The body of a 400 Bad Request answer. */
  datatype ApiError = ApiError(code: ErrorCode, msg: string)

  const PeriodNotSupported := ApiError(InvalidInput, "Sorry, only day candles are available (temporary).")
  const UnknownAssetPair := ApiError(InvalidInput, "Unkown asset pair id present")

  /**
   The calls the controller makes to its collaborators, in the order it makes them:
   reading the asset-pair dictionary, a closest-available feed lookup, a candle lookup.
   */
  datatype Call =
    | ReadAssetPairs
    | ClosestAvailable(assetPairId: string, priceType: TradePriceType, at: DateTime)
    | CandleLookup(assetPairId: string, period: Period, buy: bool, at: DateTime)
}
