/**
 The read-time view of the cached asset-pair dictionary: a pair is active exactly
 when it is not disabled. The dictionary listing and the all-pairs rate list both
 go through this view.
 */
module AssetPairs {
  import opened Domain
  import Seqs

  predicate IsActive(p: AssetPair)
  {
    !p.isDisabled
  }

  /** Some active pair of the snapshot carries `id`; a disabled pair's id does not count. */
  predicate IsActiveId(pairs: seq<AssetPair>, id: string)
  {
    exists p | p in pairs :: IsActive(p) && p.id == id
  }

  /**
   The dictionary listing before its conversion to API records: the snapshot pairs
   that are not disabled, each as often as in the snapshot, none dropped.
   */
  function Dictionary(pairs: seq<AssetPair>): (r: seq<AssetPair>)
    ensures forall p :: p in r <==> p in pairs && !p.isDisabled
    ensures forall p :: multiset(r)[p] == if p.isDisabled then 0 else multiset(pairs)[p]
  {
    Seqs.FilterContents(pairs, IsActive);
    Seqs.Filter(pairs, IsActive)
  }

  /** The listing keeps the snapshot's order. */
  lemma DictionaryKeepsOrder(pairs: seq<AssetPair>)
    ensures Seqs.IsSubsequence(Dictionary(pairs), pairs)
  {
    Seqs.FilterIsSubsequence(pairs, IsActive);
  }

  /** The ids of the active pairs, as the controller projects them out of the listing. */
  function ActiveIds(pairs: seq<AssetPair>): (r: seq<string>)
    ensures forall id :: id in r <==> IsActiveId(pairs, id)
  {
    var active := Dictionary(pairs);
    var ids := seq(|active|, i requires 0 <= i < |active| => active[i].id);
    assert forall id :: id in ids ==> IsActiveId(pairs, id) by {
      forall id | id in ids ensures IsActiveId(pairs, id) {
        var i :| 0 <= i < |ids| && ids[i] == id;
        assert active[i] in active;
      }
    }
    assert forall id :: IsActiveId(pairs, id) ==> id in ids by {
      forall id | IsActiveId(pairs, id) ensures id in ids {
        var p :| p in pairs && !p.isDisabled && p.id == id;
        assert p in active;
        var i :| 0 <= i < |active| && active[i] == p;
        assert ids[i] == id;
      }
    }
    ids
  }

  predicate QuotesActivePair(activeIds: seq<string>, e: FeedData)
  {
    e.asset in activeIds
  }

  /**
   The all-pairs rate list before its conversion: the market-profile entries whose
   asset is an active pair's id, with their multiplicities; every other entry is dropped.
   */
  function RateProfile(pairs: seq<AssetPair>, profile: MarketProfile): (r: MarketProfile)
    ensures forall e :: e in r.profile <==> e in profile.profile && IsActiveId(pairs, e.asset)
    ensures forall e :: multiset(r.profile)[e] ==
              if IsActiveId(pairs, e.asset) then multiset(profile.profile)[e] else 0
  {
    var ids := ActiveIds(pairs);
    Seqs.FilterContents(profile.profile, e => QuotesActivePair(ids, e));
    MarketProfile(Seqs.Filter(profile.profile, e => QuotesActivePair(ids, e)))
  }

  /** The rate list keeps the relative order of the entries it keeps. */
  lemma RateProfileKeepsOrder(pairs: seq<AssetPair>, profile: MarketProfile)
    ensures Seqs.IsSubsequence(RateProfile(pairs, profile).profile, profile.profile)
  {
    var ids := ActiveIds(pairs);
    Seqs.FilterIsSubsequence(profile.profile, e => QuotesActivePair(ids, e));
  }
}
