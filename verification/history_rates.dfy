/**
 The batch history-rate call (`POST rate/history`): validation of the period and of
 the requested ids, then, per requested id, a closest-available Ask and Bid lookup
 whose outcome is either a pair of candles or an id-only placeholder.
 */
module HistoryRates {
  import opened Wrappers
  import opened Domain
  import Seqs
  import AssetPairs

  /**
   The collaborators of the batch call: the feed-history repository's closest-available
   lookup, the conversion of a feed sample to a pair-tagged candle, and the conversion
   of the candle list to API records. All three are opaque.
   */
  datatype Feeds = Feeds(
    closestAvailable: (string, TradePriceType, DateTime) -> Option<FeedHistory>,
    toCandleWithPairId: FeedHistory -> CandleWithPairId,
    toApiModel: seq<CandleWithPairId> -> seq<ApiAssetPairHistoryRate>)

  /** What the controller hands back: the HTTP answer and the calls it made on the way. */
  datatype HistoryResponse =
    | BadRequest(error: ApiError)
      /** `placeholders` and `candles` are the two lists built before the final concatenation. */
    | Ok(rates: seq<ApiAssetPairHistoryRate>, placeholders: seq<ApiAssetPairHistoryRate>, candles: seq<CandleWithPairId>)

  datatype Served = Served(response: HistoryResponse, calls: seq<Call>)

  /** Both a closest Ask and a closest Bid sample exist for `id` at `at`. */
  predicate HasBothSides(feeds: Feeds, id: string, at: DateTime)
  {
    feeds.closestAvailable(id, Ask, at).Some? && feeds.closestAvailable(id, Bid, at).Some?
  }

  function Populated(feeds: Feeds, at: DateTime): string -> bool
  {
    id => HasBothSides(feeds, id, at)
  }

  function Unpopulated(feeds: Feeds, at: DateTime): string -> bool
  {
    id => !HasBothSides(feeds, id, at)
  }

  /** `(await feed)?.ToCandleWithPairId()`: the closest sample of one side as a candle, if any. */
  function SideCandle(feeds: Feeds, id: string, side: TradePriceType, at: DateTime): (r: Option<CandleWithPairId>)
    ensures r.Some? <==> feeds.closestAvailable(id, side, at).Some?
    ensures r.Some? ==> r.value == feeds.toCandleWithPairId(feeds.closestAvailable(id, side, at).value)
  {
    match feeds.closestAvailable(id, side, at)
    case Some(sample) => Some(feeds.toCandleWithPairId(sample))
    case None => None
  }

  /** The candles of fully populated ids: for each id in turn, its Ask candle then its Bid candle. */
  function PairCandles(feeds: Feeds, ids: seq<string>, at: DateTime): (r: seq<CandleWithPairId>)
    requires forall k | 0 <= k < |ids| :: HasBothSides(feeds, ids[k], at)
    ensures |r| == 2 * |ids|
    ensures forall k | 0 <= k < |ids| ::
              SideCandle(feeds, ids[k], Ask, at) == Some(r[2 * k]) && SideCandle(feeds, ids[k], Bid, at) == Some(r[2 * k + 1])
  {
    if ids == [] then []
    else
      var id := ids[0];
      assert HasBothSides(feeds, id, at);
      [SideCandle(feeds, id, Ask, at).value, SideCandle(feeds, id, Bid, at).value] + PairCandles(feeds, ids[1..], at)
  }

  /** The lookups issued for `ids`: for each id in turn, its Ask lookup then its Bid lookup. */
  function ClosestCalls(ids: seq<string>, at: DateTime): (r: seq<Call>)
    ensures |r| == 2 * |ids|
    ensures forall k | 0 <= k < |ids| ::
              r[2 * k] == ClosestAvailable(ids[k], Ask, at) && r[2 * k + 1] == ClosestAvailable(ids[k], Bid, at)
  {
    if ids == [] then []
    else [ClosestAvailable(ids[0], Ask, at), ClosestAvailable(ids[0], Bid, at)] + ClosestCalls(ids[1..], at)
  }

  function Placeholders(ids: seq<string>): (r: seq<ApiAssetPairHistoryRate>)
  {
    seq(|ids|, k requires 0 <= k < |ids| => Placeholder(ids[k]))
  }

  /** The two lists the loop builds, before the candles are converted. */
  datatype Assembly = Assembly(placeholders: seq<ApiAssetPairHistoryRate>, candles: seq<CandleWithPairId>)
  {
    function Then(next: Assembly): Assembly
    {
      Assembly(placeholders + next.placeholders, candles + next.candles)
    }
  }

  /**
   Reference description of the assembly: the ids lacking a side become placeholders,
   the others contribute their candle pairs, each group in request order.
   */
  function Assemble(feeds: Feeds, ids: seq<string>, at: DateTime): (a: Assembly)
    ensures |a.candles| % 2 == 0
    ensures |a.placeholders| + |a.candles| / 2 == |ids|
  {
    var missing := Seqs.Filter(ids, Unpopulated(feeds, at));
    var populated := Seqs.Filter(ids, Populated(feeds, at));
    Seqs.FilterPartition(ids, Populated(feeds, at), Unpopulated(feeds, at));
    Assembly(Placeholders(missing), PairCandles(feeds, populated, at))
  }

  /** One id yields exactly one outcome: its two candles, or one placeholder, never both. */
  lemma AssembleOne(feeds: Feeds, id: string, at: DateTime)
    ensures HasBothSides(feeds, id, at) ==>
              Assemble(feeds, [id], at) == Assembly([], [SideCandle(feeds, id, Ask, at).value, SideCandle(feeds, id, Bid, at).value])
    ensures !HasBothSides(feeds, id, at) ==> Assemble(feeds, [id], at) == Assembly([Placeholder(id)], [])
  {
    assert [id][1..] == [];
  }

  lemma {:induction false} PairCandlesAppend(feeds: Feeds, a: seq<string>, b: seq<string>, at: DateTime)
    requires forall k | 0 <= k < |a| :: HasBothSides(feeds, a[k], at)
    requires forall k | 0 <= k < |b| :: HasBothSides(feeds, b[k], at)
    ensures forall k | 0 <= k < |a + b| :: HasBothSides(feeds, (a + b)[k], at)
    ensures PairCandles(feeds, a + b, at) == PairCandles(feeds, a, at) + PairCandles(feeds, b, at)
  {
    if a == [] {
      assert a + b == b;
    } else {
      assert (a + b)[1..] == a[1..] + b;
      PairCandlesAppend(feeds, a[1..], b, at);
    }
  }

  lemma {:induction false} ClosestCallsAppend(a: seq<string>, b: seq<string>, at: DateTime)
    ensures ClosestCalls(a + b, at) == ClosestCalls(a, at) + ClosestCalls(b, at)
  {
    if a == [] {
      assert a + b == b;
    } else {
      assert (a + b)[1..] == a[1..] + b;
      ClosestCallsAppend(a[1..], b, at);
    }
  }

  /**
   Ids are handled independently and in request order: the assembly of a concatenated
   request is the assembly of its first part followed by that of its second part.
   */
  lemma AssembleAppend(feeds: Feeds, a: seq<string>, b: seq<string>, at: DateTime)
    ensures Assemble(feeds, a + b, at) == Assemble(feeds, a, at).Then(Assemble(feeds, b, at))
  {
    var missing, populated := Unpopulated(feeds, at), Populated(feeds, at);
    Seqs.FilterAppend(a, b, missing);
    Seqs.FilterAppend(a, b, populated);
    var pa, pb := Seqs.Filter(a, populated), Seqs.Filter(b, populated);
    PairCandlesAppend(feeds, pa, pb, at);
    var ma, mb := Seqs.Filter(a, missing), Seqs.Filter(b, missing);
    assert Placeholders(ma + mb) == Placeholders(ma) + Placeholders(mb);
  }

  /** One more loop iteration: the assembly and the calls of `done + [id]`. */
  lemma AssembleStep(feeds: Feeds, done: seq<string>, id: string, at: DateTime)
    ensures HasBothSides(feeds, id, at) ==>
              Assemble(feeds, done + [id], at)
                == Assembly(Assemble(feeds, done, at).placeholders,
                            Assemble(feeds, done, at).candles + [SideCandle(feeds, id, Ask, at).value, SideCandle(feeds, id, Bid, at).value])
    ensures !HasBothSides(feeds, id, at) ==>
              Assemble(feeds, done + [id], at)
                == Assembly(Assemble(feeds, done, at).placeholders + [Placeholder(id)], Assemble(feeds, done, at).candles)
    ensures ClosestCalls(done + [id], at) == ClosestCalls(done, at) + [ClosestAvailable(id, Ask, at), ClosestAvailable(id, Bid, at)]
  {
    AssembleOne(feeds, id, at);
    AssembleAppend(feeds, done, [id], at);
    ClosestCallsAppend(done, [id], at);
    assert ClosestCalls([id], at) == [ClosestAvailable(id, Ask, at), ClosestAvailable(id, Bid, at)];
  }

  /**
   A placeholder for an id is present exactly when that id was requested and lacks a
   side, once per occurrence of the id in the request.
   */
  lemma AssemblePlaceholders(feeds: Feeds, ids: seq<string>, at: DateTime)
    ensures forall id :: Placeholder(id) in Assemble(feeds, ids, at).placeholders <==> id in ids && !HasBothSides(feeds, id, at)
    ensures forall id :: multiset(Assemble(feeds, ids, at).placeholders)[Placeholder(id)] ==
              if HasBothSides(feeds, id, at) then 0 else multiset(ids)[id]
  {
    var missing := Seqs.Filter(ids, Unpopulated(feeds, at));
    Seqs.FilterContents(ids, Unpopulated(feeds, at));
    PlaceholdersCount(missing);
  }

  /** Every candle pair is the Ask and the Bid candle of a requested id that has both sides. */
  lemma AssembleCandles(feeds: Feeds, ids: seq<string>, at: DateTime)
    ensures forall k | 0 <= k < |Assemble(feeds, ids, at).candles| / 2 ::
              exists id | id in ids && HasBothSides(feeds, id, at) ::
                SideCandle(feeds, id, Ask, at) == Some(Assemble(feeds, ids, at).candles[2 * k])
                && SideCandle(feeds, id, Bid, at) == Some(Assemble(feeds, ids, at).candles[2 * k + 1])
  {
    var candles := Assemble(feeds, ids, at).candles;
    var populated := Seqs.Filter(ids, Populated(feeds, at));
    Seqs.FilterContents(ids, Populated(feeds, at));
    forall k | 0 <= k < |candles| / 2
      ensures exists id | id in ids && HasBothSides(feeds, id, at) ::
                SideCandle(feeds, id, Ask, at) == Some(candles[2 * k]) && SideCandle(feeds, id, Bid, at) == Some(candles[2 * k + 1])
    {
      var id := populated[k];
      assert id in populated;
      assert SideCandle(feeds, id, Ask, at) == Some(candles[2 * k]) && SideCandle(feeds, id, Bid, at) == Some(candles[2 * k + 1]);
    }
  }

  /** Placeholders are determined by their id, so they count like the ids they come from. */
  lemma PlaceholdersCount(ids: seq<string>)
    ensures forall id :: Placeholder(id) in Placeholders(ids) <==> id in ids
    ensures forall id :: multiset(Placeholders(ids))[Placeholder(id)] == multiset(ids)[id]
  {
    if ids != [] {
      PlaceholdersCount(ids[1..]);
      assert ids == [ids[0]] + ids[1..];
      assert Placeholders(ids) == [Placeholder(ids[0])] + Placeholders(ids[1..]);
    }
  }

  /**
   The batch call as the controller answers it. The period is checked first, then the
   ids against the active pairs; either failure answers InvalidInput before any lookup.
   Otherwise every id is looked up, Ask then Bid, and the answer lists all placeholders
   followed by the converted candles.
   */
  function HistoryRate(request: HistoryRequest, pairs: seq<AssetPair>, feeds: Feeds): (s: Served)
    ensures request.period != Day ==> s == Served(BadRequest(PeriodNotSupported), [])
    ensures request.period == Day ==>
              (s.response.BadRequest? <==>
                 exists i | 0 <= i < |request.assetPairIds| :: !AssetPairs.IsActiveId(pairs, request.assetPairIds[i]))
    ensures request.period == Day && s.response.BadRequest? ==> s == Served(BadRequest(UnknownAssetPair), [ReadAssetPairs])
    ensures s.response.BadRequest? ==> s.response.error.code == InvalidInput
    ensures s.response.BadRequest? ==> forall c | c in s.calls :: c == ReadAssetPairs
    ensures s.response.Ok? ==>
              && s.calls == [ReadAssetPairs] + ClosestCalls(request.assetPairIds, request.dateTime)
              && |s.response.placeholders| + |s.response.candles| / 2 == |request.assetPairIds|
              && |s.response.candles| % 2 == 0
              && s.response.rates == s.response.placeholders + feeds.toApiModel(s.response.candles)
    ensures s.response.Ok? ==>
              Assembly(s.response.placeholders, s.response.candles) == Assemble(feeds, request.assetPairIds, request.dateTime)
  {
    var ids, at := request.assetPairIds, request.dateTime;
    if request.period != Day then
      Served(BadRequest(PeriodNotSupported), [])
    else if exists i | 0 <= i < |ids| :: !AssetPairs.IsActiveId(pairs, ids[i]) then
      Served(BadRequest(UnknownAssetPair), [ReadAssetPairs])
    else
      var a := Assemble(feeds, ids, at);
      Served(Ok(a.placeholders + feeds.toApiModel(a.candles), a.placeholders, a.candles),
             [ReadAssetPairs] + ClosestCalls(ids, at))
  }

  /** LINQ's `Any(x => !known.Contains(x))`. */
  function AnyUnknown(ids: seq<string>, known: seq<string>): (r: bool)
    ensures r <==> exists i | 0 <= i < |ids| :: ids[i] !in known
  {
    if ids == [] then false
    else if ids[0] !in known then true
    else
      var r := AnyUnknown(ids[1..], known);
      assert forall i | 1 <= i < |ids| :: ids[i] == ids[1..][i - 1];
      r
  }

  /**
   The loop of the batch action (one iteration per requested id, duplicates included):
   both lookups, then either the two candles or one placeholder.
   */
  method AssembleHistory(ids: seq<string>, at: DateTime, feeds: Feeds)
    returns (result: seq<ApiAssetPairHistoryRate>, candles: seq<CandleWithPairId>, lookups: seq<Call>)
    ensures Assembly(result, candles) == Assemble(feeds, ids, at)
    ensures lookups == ClosestCalls(ids, at)
  {
    candles, result, lookups := [], [], [];
    var i := 0;
    while i < |ids|
      invariant 0 <= i <= |ids|
      invariant Assembly(result, candles) == Assemble(feeds, ids[..i], at)
      invariant lookups == ClosestCalls(ids[..i], at)
    {
      var pairId := ids[i];
      var askFeed := feeds.closestAvailable(pairId, Ask, at);
      var bidFeed := feeds.closestAvailable(pairId, Bid, at);
      lookups := lookups + [ClosestAvailable(pairId, Ask, at), ClosestAvailable(pairId, Bid, at)];
      var askCandle := if askFeed.Some? then Some(feeds.toCandleWithPairId(askFeed.value)) else None;
      var bidCandle := if bidFeed.Some? then Some(feeds.toCandleWithPairId(bidFeed.value)) else None;
      if askCandle.Some? && bidCandle.Some? {
        candles := candles + [askCandle.value, bidCandle.value];
      } else {
        result := result + [Placeholder(pairId)];
      }
      assert ids[..i + 1] == ids[..i] + [pairId];
      AssembleStep(feeds, ids[..i], pairId, at);
      i := i + 1;
    }
    assert ids[..i] == ids;
  }

  /**
   The batch action step by step, as the controller runs it: the same answer and the
   same calls as the reference description above.
   */
  method GetHistoryRate(request: HistoryRequest, pairs: seq<AssetPair>, feeds: Feeds)
    returns (response: HistoryResponse, calls: seq<Call>)
    ensures Served(response, calls) == HistoryRate(request, pairs, feeds)
  {
    var ids, at := request.assetPairIds, request.dateTime;
    if request.period != Day {
      return BadRequest(PeriodNotSupported), [];
    }
    var activeIds := AssetPairs.ActiveIds(pairs);
    if AnyUnknown(ids, activeIds) {
      return BadRequest(UnknownAssetPair), [ReadAssetPairs];
    }
    var result, candles, lookups := AssembleHistory(ids, at, feeds);
    response := Ok(result + feeds.toApiModel(candles), result, candles);
    calls := [ReadAssetPairs] + lookups;
  }
}
