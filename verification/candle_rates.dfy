/**
 The single-pair history call (`POST rate/history/{assetPairId}`): the buy and the sell
 candle of one pair for one period and time, converted together. Unlike the batch call
 it neither validates its input nor substitutes a placeholder.
 */
module CandleRates {
  import opened Wrappers
  import opened Domain
  import AssetPairs
  import HistoryRates

  /**
   The candle-history repository's exact-candle lookup (`buy` selects the side) and the
   conversion of one pair's two candles to an API record; both opaque.
   */
  datatype CandleHistory = CandleHistory(
    getCandle: (string, Period, bool, DateTime) -> Option<Candle>,
    toApiModel: (string, Option<Candle>, Option<Candle>) -> ApiAssetPairHistoryRate)

  datatype PairServed = PairServed(rate: ApiAssetPairHistoryRate, calls: seq<Call>)

  /**
   The answer for any pair id and any period: exactly two candle lookups for that id,
   period and time, buy first, and the conversion of what they returned, absent sides
   included. The asset-pair dictionary is never read.
   */
  function PairHistoryRate(assetPairId: string, request: PairHistoryRequest, history: CandleHistory): (s: PairServed)
    ensures s.calls == [CandleLookup(assetPairId, request.period, true, request.dateTime),
                        CandleLookup(assetPairId, request.period, false, request.dateTime)]
    ensures ReadAssetPairs !in s.calls
    ensures s.rate == history.toApiModel(assetPairId,
                                         history.getCandle(assetPairId, request.period, true, request.dateTime),
                                         history.getCandle(assetPairId, request.period, false, request.dateTime))
  {
    var buyCandle := history.getCandle(assetPairId, request.period, true, request.dateTime);
    var sellCandle := history.getCandle(assetPairId, request.period, false, request.dateTime);
    PairServed(history.toApiModel(assetPairId, buyCandle, sellCandle),
               [CandleLookup(assetPairId, request.period, true, request.dateTime),
                CandleLookup(assetPairId, request.period, false, request.dateTime)])
  }

  /**
   Where the batch call refuses one id (a period other than Day, or an id that is not an
   active pair), the single-pair call still looks that id up, buy then sell, and answers
   with the conversion of its candles.
   */
  lemma SinglePairSkipsValidation(assetPairId: string, request: PairHistoryRequest, history: CandleHistory,
                                  pairs: seq<AssetPair>, feeds: HistoryRates.Feeds)
    requires request.period != Day || !AssetPairs.IsActiveId(pairs, assetPairId)
    ensures HistoryRates.HistoryRate(HistoryRequest(request.period, request.dateTime, [assetPairId]), pairs, feeds)
              .response.BadRequest?
    ensures PairHistoryRate(assetPairId, request, history).calls
              == [CandleLookup(assetPairId, request.period, true, request.dateTime),
                  CandleLookup(assetPairId, request.period, false, request.dateTime)]
    ensures PairHistoryRate(assetPairId, request, history).rate
              == history.toApiModel(assetPairId,
                                    history.getCandle(assetPairId, request.period, true, request.dateTime),
                                    history.getCandle(assetPairId, request.period, false, request.dateTime))
  {
    var batch := HistoryRequest(request.period, request.dateTime, [assetPairId]);
    if request.period == Day {
      assert !AssetPairs.IsActiveId(pairs, batch.assetPairIds[0]);
    }
  }
}
