/**
 Concrete requests worked through the model: a one-sided pair, unknown and disabled
 ids, and a mixed batch whose answer is not in request order.
 */
module Scenarios {
  import opened Wrappers
  import opened Domain
  import AssetPairs
  import HistoryRates

  const T := DateTime(0)

  /** A snapshot with three active pairs and the disabled ETHUSD. */
  const Catalog := [AssetPair("BTCUSD", false), AssetPair("ETHUSD", true), AssetPair("AB", false), AssetPair("CD", false)]

  function ToCandle(f: FeedHistory): CandleWithPairId
  {
    CandleWithPairId(f.assetPairId, Candle(f.time, 1.0, 1.0, 1.0, 1.0))
  }

  function ToApiCandle(c: Candle): ApiCandle
  {
    ApiCandle(c.open, c.close, c.high, c.low)
  }

  /** A conversion that turns each Ask-then-Bid candle pair into one record for its pair. */
  function PairRates(candles: seq<CandleWithPairId>): seq<ApiAssetPairHistoryRate>
    decreases |candles|
  {
    if |candles| < 2 then []
    else [ApiAssetPairHistoryRate(candles[0].assetPairId, Some(ToApiCandle(candles[0].candle)), Some(ToApiCandle(candles[1].candle)))]
         + PairRates(candles[2..])
  }

  /** Only an Ask sample exists for BTCUSD; AB has both sides; nothing else has data. */
  function SampleFeeds(): HistoryRates.Feeds
  {
    HistoryRates.Feeds(
      (id: string, side: TradePriceType, at: DateTime) =>
        if (id == "BTCUSD" && side == Ask) || id == "AB" then Some(FeedHistory(id, side, at)) else None,
      ToCandle,
      PairRates)
  }

  /** The dictionary lists BTCUSD, AB and CD; the disabled ETHUSD is not listed. */
  lemma DictionaryDropsDisabled()
    ensures AssetPairs.Dictionary(Catalog) == [AssetPair("BTCUSD", false), AssetPair("AB", false), AssetPair("CD", false)]
  {
    var c := Catalog;
    assert c[1..] == [AssetPair("ETHUSD", true), AssetPair("AB", false), AssetPair("CD", false)];
    assert c[1..][1..] == [AssetPair("AB", false), AssetPair("CD", false)];
    assert c[1..][1..][1..] == [AssetPair("CD", false)];
  }

  /** A pair with only an Ask sample is answered by an empty placeholder, not by its Ask side. */
  lemma OneSidedPairBecomesPlaceholder()
    ensures HistoryRates.HistoryRate(HistoryRequest(Day, T, ["BTCUSD"]), Catalog, SampleFeeds())
            == HistoryRates.Served(HistoryRates.Ok([Placeholder("BTCUSD")], [Placeholder("BTCUSD")], []),
                                   [ReadAssetPairs, ClosestAvailable("BTCUSD", Ask, T), ClosestAvailable("BTCUSD", Bid, T)])
  {
    var ids := ["BTCUSD"];
    assert AssetPairs.IsActiveId(Catalog, ids[0]) by {
      assert Catalog[0] in Catalog;
    }
    var f := SampleFeeds();
    assert !HistoryRates.HasBothSides(f, "BTCUSD", T);
    HistoryRates.AssembleOne(f, "BTCUSD", T);
    assert ids[1..] == [];
  }

  /** An id no pair carries, and the id of a disabled pair, are both refused before any lookup. */
  lemma UnknownAndDisabledIdsRefused()
    ensures HistoryRates.HistoryRate(HistoryRequest(Day, T, ["XRPUSD"]), Catalog, SampleFeeds())
            == HistoryRates.Served(HistoryRates.BadRequest(UnknownAssetPair), [ReadAssetPairs])
    ensures HistoryRates.HistoryRate(HistoryRequest(Day, T, ["BTCUSD", "ETHUSD"]), Catalog, SampleFeeds())
            == HistoryRates.Served(HistoryRates.BadRequest(UnknownAssetPair), [ReadAssetPairs])
  {
    var xrp := ["XRPUSD"];
    assert !AssetPairs.IsActiveId(Catalog, xrp[0]);
    var mixed := ["BTCUSD", "ETHUSD"];
    assert !AssetPairs.IsActiveId(Catalog, mixed[1]);
  }

  /** Both ids of the mixed batch belong to active pairs. */
  lemma MixedBatchKnown()
    ensures forall i | 0 <= i < 2 :: AssetPairs.IsActiveId(Catalog, ["AB", "CD"][i])
  {
    assert Catalog[2] in Catalog && Catalog[3] in Catalog;
  }

  /** AB has both sides and CD has none, so CD becomes the only placeholder. */
  lemma MixedBatchAssembly()
    ensures HistoryRates.Assemble(SampleFeeds(), ["AB", "CD"], T)
            == HistoryRates.Assembly([Placeholder("CD")], [ToCandle(FeedHistory("AB", Ask, T)), ToCandle(FeedHistory("AB", Bid, T))])
  {
    var f := SampleFeeds();
    assert HistoryRates.HasBothSides(f, "AB", T);
    assert !HistoryRates.HasBothSides(f, "CD", T);
    HistoryRates.AssembleOne(f, "AB", T);
    HistoryRates.AssembleOne(f, "CD", T);
    HistoryRates.AssembleAppend(f, ["AB"], ["CD"], T);
    assert ["AB"] + ["CD"] == ["AB", "CD"];
  }

  /** AB's record: its Ask and Bid candles side by side. */
  const ABRate := ApiAssetPairHistoryRate("AB", Some(ApiCandle(1.0, 1.0, 1.0, 1.0)), Some(ApiCandle(1.0, 1.0, 1.0, 1.0)))

  /** The sample conversion turns AB's two candles into AB's one record. */
  lemma MixedBatchConversion()
    ensures PairRates([ToCandle(FeedHistory("AB", Ask, T)), ToCandle(FeedHistory("AB", Bid, T))]) == [ABRate]
  {
    var cs := [ToCandle(FeedHistory("AB", Ask, T)), ToCandle(FeedHistory("AB", Bid, T))];
    assert cs[2..] == [];
  }

  /**
   Requesting AB then CD answers with CD's placeholder first and AB's converted record
   after it, although AB was requested first.
   */
  lemma PlaceholderBeforePopulated()
    ensures var s := HistoryRates.HistoryRate(HistoryRequest(Day, T, ["AB", "CD"]), Catalog, SampleFeeds());
            && s.response.Ok?
            && s.response.placeholders == [Placeholder("CD")]
            && s.response.candles == [ToCandle(FeedHistory("AB", Ask, T)), ToCandle(FeedHistory("AB", Bid, T))]
            && s.response.rates == [Placeholder("CD"), ABRate]
  {
    MixedBatchKnown();
    MixedBatchAssembly();
    MixedBatchConversion();
  }

  /** A period other than Day is refused first, even when the ids are unknown too. */
  lemma PeriodCheckedBeforeIds()
    ensures HistoryRates.HistoryRate(HistoryRequest(Hour, T, ["XRPUSD"]), Catalog, SampleFeeds())
            == HistoryRates.Served(HistoryRates.BadRequest(PeriodNotSupported), [])
  {
  }
}
