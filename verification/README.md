# Asset-pairs controller of the Lykke public API, in Dafny

This project models the request-level logic of `AssetPairsController`, the part of the
Lykke public market-data API that lists asset pairs and answers rate-history queries:

- the **dictionary** listing (`GET api/AssetPairs/dictionary`): the cached asset-pair
  snapshot with disabled pairs filtered out at read time;
- the **all-pairs rate list** (`GET api/AssetPairs/rate`): the market profile restricted to
  entries whose asset is an active pair's id;
- the **batch history rate** (`POST api/AssetPairs/rate/history`): the period must be `Day`,
  then every requested id must be an active pair's id; either failure answers 400 with
  `InvalidInput` before any lookup. Otherwise each requested id (duplicates included) gets a
  closest-available Ask and Bid lookup; an id with both samples contributes its Ask candle then
  its Bid candle to a candle list, any other id contributes one placeholder carrying only its
  `Id`. The answer is all placeholders followed by the converted candle list;
- the **single-pair history rate** (`POST api/AssetPairs/rate/history/{assetPairId}`): the buy
  and the sell candle of one pair for the requested period and time, converted together, with
  no validation and no placeholder.

Modules, one file each: `Wrappers` (Option), `Seqs` (LINQ's `Where` as `Filter`, and
order-preserving selection), `Domain` (records, error constants, the call trace),
`AssetPairs` (dictionary and rate-profile filters), `HistoryRates` (the batch call),
`CandleRates` (the single-pair call), `Scenarios` (concrete requests worked through).

Collaborators are parameters: the asset-pair snapshot is a sequence of pairs; the
closest-available lookup, the candle lookup and the conversions of history candles to API
records are function-valued fields of the `Feeds` and `CandleHistory` records, never
interpreted. The dictionary listing and the all-pairs rate list are modelled up to the value
handed to their final `ToApiModel` call (lines 43 and 63), which is not represented. To
state which lookups a request triggers, the batch and single-pair calls return the list of
calls they make (`Call`: reading the pair dictionary, a closest-available lookup, a candle
lookup). Because the candle conversion is opaque, the batch answer also carries the two
lists built before the final concatenation (`placeholders`, `candles`), and the properties
are stated on those.

Two consequences of the code are worth stating plainly. The batch answer is not in request
order: every placeholder comes before every populated pair (lines 119 and 139). And a pair
lacking one side becomes an id-only placeholder, even when the other side has a sample
(lines 111-120). `Scenarios.OneSidedPairBecomesPlaceholder` and
`Scenarios.PlaceholderBeforePopulated` show both on concrete requests.

## Model

| member | source | states |
|---|---|---|
| AssetPairs.Dictionary | src/LykkePublicAPI/Controllers/AssetPairsController.cs:59-63 | the listing holds exactly the snapshot pairs that are not disabled, each with its snapshot multiplicity: no disabled pair, no active pair dropped |
| AssetPairs.DictionaryKeepsOrder | src/LykkePublicAPI/Controllers/AssetPairsController.cs:61 | the listing is a subsequence of the snapshot, so it keeps the snapshot's order |
| AssetPairs.ActiveIds | src/LykkePublicAPI/Controllers/AssetPairsController.cs:39 | an id is among the projected ids iff some non-disabled pair of the snapshot carries it |
| AssetPairs.RateProfile | src/LykkePublicAPI/Controllers/AssetPairsController.cs:39-43 | a market-profile entry is kept iff its asset is an active pair's id, with its full multiplicity; every other entry is dropped |
| AssetPairs.RateProfileKeepsOrder | src/LykkePublicAPI/Controllers/AssetPairsController.cs:42 | the kept entries keep their relative order (subsequence of the profile) |
| HistoryRates.HistoryRate | src/LykkePublicAPI/Controllers/AssetPairsController.cs:82-142 | period other than Day answers the period InvalidInput error with no call at all, whatever the ids; with Day the answer is an error iff some requested id is not an active pair's id, and that error is exactly the unknown-id InvalidInput message after the single dictionary read; an error never comes with a lookup; a success makes the dictionary read then Ask and Bid lookups for every id in order, has placeholders plus half the candles equal to the number of ids, an even candle count, and answers the placeholders followed by the converted candles, whose two lists are exactly the reference assembly `Assemble` of the requested ids |
| HistoryRates.GetHistoryRate | src/LykkePublicAPI/Controllers/AssetPairsController.cs:82-142 | the step-by-step action gives the same answer and the same calls as the reference description `HistoryRate` |
| Seqs.Filter | src/LykkePublicAPI/Controllers/AssetPairsController.cs:61 | LINQ's `Where`: the result is no longer than the input and every element it keeps satisfies the predicate (membership, multiplicities and order are `Seqs.FilterContents` and `Seqs.FilterIsSubsequence`) |
| Seqs.FilterContents | src/LykkePublicAPI/Controllers/AssetPairsController.cs:61 | `Where` keeps exactly the elements satisfying the predicate, each as often as in its input |
| Seqs.FilterIsSubsequence | src/LykkePublicAPI/Controllers/AssetPairsController.cs:61 | `Where` keeps the relative order of the elements it keeps |
| HistoryRates.SideCandle | src/LykkePublicAPI/Controllers/AssetPairsController.cs:108-109 | a side's candle is present iff the closest-available lookup of that side returned a sample, and then it is that sample's conversion |
| HistoryRates.AnyUnknown | src/LykkePublicAPI/Controllers/AssetPairsController.cs:94 | the `Any` check is true iff some requested id is missing from the known ids |
| HistoryRates.AssembleHistory | src/LykkePublicAPI/Controllers/AssetPairsController.cs:100-135 | the loop builds exactly the reference assembly (placeholders of ids lacking a side, candle pairs of the others) and issues exactly the Ask-then-Bid lookups of every id in request order |
| HistoryRates.Assemble | src/LykkePublicAPI/Controllers/AssetPairsController.cs:100-120 | placeholders plus half the candles equal the number of requested ids, and the candle list has even length |
| HistoryRates.AssembleOne | src/LykkePublicAPI/Controllers/AssetPairsController.cs:111-120 | one id yields exactly one outcome: its Ask and Bid candles when both samples exist, otherwise one id-only placeholder even when one side exists |
| HistoryRates.AssembleAppend | src/LykkePublicAPI/Controllers/AssetPairsController.cs:103-120 | ids are handled independently and in request order: the assembly of a concatenated request is the assembly of the first part followed by that of the second |
| HistoryRates.AssembleStep | src/LykkePublicAPI/Controllers/AssetPairsController.cs:103-120 | one more id appends its two candles, or its placeholder, to the lists so far, and its Ask then Bid lookup to the calls |
| HistoryRates.AssemblePlaceholders | src/LykkePublicAPI/Controllers/AssetPairsController.cs:111-120 | a placeholder for an id is present iff that id was requested and lacks a side, as many times as it was requested |
| HistoryRates.AssembleCandles | src/LykkePublicAPI/Controllers/AssetPairsController.cs:111-115 | every candle pair is the Ask and the Bid candle of a requested id that has both sides |
| HistoryRates.PairCandles | src/LykkePublicAPI/Controllers/AssetPairsController.cs:111-115 | pair k of the candle list is the Ask then the Bid candle of the k-th populated id |
| HistoryRates.ClosestCalls | src/LykkePublicAPI/Controllers/AssetPairsController.cs:105-106 | lookup pair k is the Ask then the Bid lookup of the k-th requested id at the request time |
| HistoryRates.PlaceholdersCount | src/LykkePublicAPI/Controllers/AssetPairsController.cs:119 | a placeholder occurs exactly as often as its id occurs among the ids it was built from |
| CandleRates.PairHistoryRate | src/LykkePublicAPI/Controllers/AssetPairsController.cs:160-170 | for any id and any period: exactly the buy then the sell candle lookup of that id, period and time, no dictionary read, and the conversion of both lookups' results, absent sides included |
| CandleRates.SinglePairSkipsValidation | src/LykkePublicAPI/Controllers/AssetPairsController.cs:88-96 | a period or id the batch call refuses is still served by the single-pair call: its buy then sell candle lookups for that id, and the conversion of both results |
| Scenarios.DictionaryDropsDisabled | src/LykkePublicAPI/Controllers/AssetPairsController.cs:61 | a concrete snapshot lists its three active pairs in order and not the disabled one |
| Scenarios.OneSidedPairBecomesPlaceholder | src/LykkePublicAPI/Controllers/AssetPairsController.cs:111-120 | a pair with only an Ask sample is answered by an empty placeholder, after the dictionary read and both lookups |
| Scenarios.UnknownAndDisabledIdsRefused | src/LykkePublicAPI/Controllers/AssetPairsController.cs:92-96 | an id no pair carries, and a disabled pair's id, are refused with the unknown-id error and no lookup |
| Scenarios.PeriodCheckedBeforeIds | src/LykkePublicAPI/Controllers/AssetPairsController.cs:88-96 | a period other than Day with an unknown id is answered by the period error with no call at all, so the period check runs before the id check |
| Scenarios.PlaceholderBeforePopulated | src/LykkePublicAPI/Controllers/AssetPairsController.cs:111-139 | requesting a populated pair then an empty one answers the empty one's placeholder first and the populated pair's converted record second |

## Left out

- `CachedDataDictionary` (lazy loading, refresh, single-flight loading): its code is not part of this model; its `Values()` is the sequence of pairs passed in.
- Repository lookups (`GetСlosestAvailableAsync`, `GetCandleAsync`) are Azure table I/O; they are opaque function parameters. The market profile from `GetMarketProfileAsync` (line 41) is passed to `AssetPairs.RateProfile` as an already-awaited value.
- `ToCandleWithPairId`, the candle list's `ToApiModel` and `Convertions.ToApiModel`, and the period's `ToDomainModel` mapping: their code is not part of this model; they are opaque functions, and a candle lookup records the requested `Period` itself.
- `pairs.ToApiModel()` (line 63) and `marketProfile.ToApiModel()` (line 43): not represented; `AssetPairs.Dictionary` and `AssetPairs.RateProfile` state their properties on the values before that conversion.
- HistoryRates.HasBothSides tests the feed samples, while line 111 tests the converted candles; the two agree because the model's `toCandleWithPairId` is total (never null), which assumes `ToCandleWithPairId` returns a candle for every sample.
- Failures of collaborators are not modelled: if `Values()`, `GetСlosestAvailableAsync`, `GetCandleAsync` or `GetMarketProfileAsync` throws, the request aborts without an answer, possibly mid-loop, and a null market profile or a null `Profile` makes line 42 throw; the model's lookups are total functions that always answer and its market profile is always present.
- AssetPairs.RateProfile builds a fresh profile, whereas line 42 writes the filtered sequence back into the object the profile service returned; any sharing of that object with other code is outside the model.
- `GetRate(assetPairId)` (lines 50-53): one repository lookup converted when present, with no logic of the controller's own.
- The commented-out maximum of 10 ids (lines 84-86) and the commented-out candle fan-out (lines 98 and 122-137): not live behaviour.
- Async tasks: the two lookups of an id are started before either is awaited; the model records them as issued Ask then Bid and treats the loop as sequential.
- `DateTime` is an opaque timestamp passed through to the lookups; prices are plain reals carried opaquely.
- A request body whose `AssetPairIds` is null: with period Day the controller throws at line 94 (with any other period lines 88-90 answer the period error first, as the model does); the model's id list is always a sequence, so the throwing case is not represented.
- A null request body (an empty or unreadable POST body, which the plain MVC registration of the host leaves as `null`) makes line 88 (batch) or line 163 (single pair) throw before any check or lookup; the model's request is always present.
- Host and framework wiring (`Startup.cs`, `Program.cs`): configuration, dependency injection, Swagger, CORS and the Kestrel host have no behaviour to state.
