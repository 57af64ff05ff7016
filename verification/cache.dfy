/**
 * The read-through promotion cache (PromotionCacheService). Redis holds a list standing for the
 * ACTIVE promotion ids and one serialized copy per promotion; a read that misses
 * loads from the repository and fills the cache. Nothing refreshes a copy when the
 * promotion changes: only the evictions do.
 */
module Cache {
  import opened Wrappers
  import opened JavaInt
  import opened Ids
  import opened Promotions

  /** The ids of some promotions, in order. */
  function IdsOf(ps: seq<Promotion>): (ids: seq<PromotionId>)
    ensures |ids| == |ps|
    ensures forall i :: 0 <= i < |ps| ==> ids[i] == ps[i].id
  {
    if ps == [] then [] else [ps[0].id] + IdsOf(ps[1..])
  }

  /** The ids of the ACTIVE promotions name exactly the promotions stored as ACTIVE. */
  lemma ActiveIdsAreTheActivePromotions(promotions: PromotionRepository)
    requires promotions.Valid()
    ensures var ids := IdsOf(promotions.FindByStatus(Active));
      (forall i :: 0 <= i < |ids| ==> ids[i] in promotions.rows && promotions.rows[ids[i]].status == Active) &&
      (forall k :: k in promotions.rows && promotions.rows[k].status == Active ==> k in ids)
  {
    var active := promotions.FindByStatus(Active);
    var ids := IdsOf(active);
    forall k | k in promotions.rows && promotions.rows[k].status == Active ensures k in ids {
      var i :| 0 <= i < |active| && active[i] == promotions.rows[k];
      assert ids[i] == k;
    }
  }

  /**
   * One element of the list under "promotion:active:list", as the JSON serializer
   * reads it back: the text of one id, or a whole list of id texts pushed as a single
   * value.
   */
  datatype CachedElement = IdText(id: PromotionId) | IdTextList(ids: seq<PromotionId>)

  /** Each id as its own element: the list the cache is meant to hold. */
  function Texts(ids: seq<PromotionId>): (elements: seq<CachedElement>)
    ensures |elements| == |ids|
    ensures forall i :: 0 <= i < |ids| ==> elements[i] == IdText(ids[i])
  {
    if ids == [] then [] else [IdText(ids[0])] + Texts(ids[1..])
  }

  /**
   * `UUID.fromString(obj.toString())` over the cached elements. An id text parses back
   * to itself; a list prints as "[…]", which is no UUID, so the call throws (None).
   */
  function ParseCachedIds(elements: seq<CachedElement>): (r: Option<seq<PromotionId>>)
    ensures r.Some? <==> forall i :: 0 <= i < |elements| ==> elements[i].IdText?
    ensures r.Some? ==> |r.value| == |elements| && forall i :: 0 <= i < |elements| ==> r.value[i] == elements[i].id
  {
    if elements == [] then Some([])
    else if elements[0].IdTextList? then None
    else
      var rest := ParseCachedIds(elements[1..]);
      assert forall i :: 1 <= i < |elements| ==> elements[i] == elements[1..][i - 1];
      if rest.None? then None else Some([elements[0].id] + rest.value)
  }

  /** Ids cached one per element read back as the same ids. */
  lemma {:induction false} ParseTexts(ids: seq<PromotionId>)
    ensures ParseCachedIds(Texts(ids)) == Some(ids)
  {
    if ids != [] {
      ParseTexts(ids[1..]);
      var elements := Texts(ids);
      assert elements[0] == IdText(ids[0]) && elements[1..] == Texts(ids[1..]);
      assert [ids[0]] + ids[1..] == ids;
    }
  }

  class PromotionCacheService {
    const promotions: PromotionRepository
    /** The list under "promotion:active:list"; Redis keeps no empty list, so [] is a missing key. */
    var activeList: seq<CachedElement>
    /** The copies under "promotion:cache:" + id. */
    var entries: map<PromotionId, PromotionSnapshot>

    constructor (promotions: PromotionRepository)
      ensures this.promotions == promotions && activeList == [] && entries == map[]
    {
      this.promotions := promotions;
      activeList := [];
      entries := map[];
    }

    /**
     * The cache says what the repository says: a cached active list is the current
     * list of ACTIVE ids, and every cached copy is the current state of its promotion.
     */
    ghost predicate Coherent()
      reads this, promotions, promotions.rows.Values
    {
      CopiesCoherent() &&
      (activeList != [] ==> activeList == Texts(IdsOf(promotions.FindByStatus(Active))))
    }

    /** Every cached copy is the current state of its promotion. */
    ghost predicate CopiesCoherent()
      reads this, promotions, promotions.rows.Values
    {
      promotions.Valid() &&
      (forall k :: k in entries ==> k in promotions.rows && entries[k] == promotions.rows[k].Snapshot())
    }

    /** Coherent, except possibly for the copy of promotion `id` and the active list. */
    ghost predicate CoherentExcept(id: PromotionId)
      reads this, promotions, promotions.rows.Values
    {
      promotions.Valid() &&
      (forall k :: k in entries && k != id ==> k in promotions.rows && entries[k] == promotions.rows[k].Snapshot())
    }

    /**
     * `getActivePromotionIds` as written: a non-empty cached list is parsed back
     * element by element; otherwise the ids of the ACTIVE promotions are loaded and,
     * when there are any, pushed with `rightPushAll(key, promotionIds)`. The template
     * holds `Object` values and `promotionIds` is a `List<String>`, so Java picks the
     * varargs overload and the whole list becomes ONE element. None is the
     * IllegalArgumentException a later hit then raises.
     */
    method GetActivePromotionIds() returns (r: Option<seq<PromotionId>>)
      requires promotions.Valid()
      modifies this
      ensures entries == old(entries)
      ensures old(activeList) != [] ==> r == ParseCachedIds(old(activeList)) && activeList == old(activeList)
      ensures old(activeList) == [] ==>
        var ids := IdsOf(promotions.FindByStatus(Active));
        r == Some(ids) && activeList == if ids == [] then [] else [IdTextList(ids)]
      ensures (forall i :: 0 <= i < |old(activeList)| ==> old(activeList)[i].IdTextList?) ==>
        forall i :: 0 <= i < |activeList| ==> activeList[i].IdTextList?
      ensures old(CopiesCoherent()) ==> CopiesCoherent()
    {
      if activeList != [] {
        return ParseCachedIds(activeList);
      }
      var activePromotions := promotions.FindByStatus(Active);
      if activePromotions == [] {
        return Some([]);
      }
      var ids := IdsOf(activePromotions);
      activeList := activeList + [IdTextList(ids)];
      r := Some(ids);
    }

    /**
     * `getActivePromotionIds` as evidently intended: the ids are pushed one element
     * each, so a hit reads back the very list a miss loaded, and a coherent cache
     * answers the current ACTIVE ids.
     */
    method GetActivePromotionIdsPerId() returns (r: Option<seq<PromotionId>>)
      requires promotions.Valid()
      modifies this
      ensures entries == old(entries)
      ensures old(activeList) != [] ==> r == ParseCachedIds(old(activeList)) && activeList == old(activeList)
      ensures old(activeList) == [] ==>
        r == Some(IdsOf(promotions.FindByStatus(Active))) && activeList == Texts(r.value)
      ensures old(Coherent()) ==> Coherent() && r == Some(IdsOf(promotions.FindByStatus(Active)))
    {
      if activeList != [] {
        ParseTexts(IdsOf(promotions.FindByStatus(Active)));
        return ParseCachedIds(activeList);
      }
      var activePromotions := promotions.FindByStatus(Active);
      if activePromotions == [] {
        return Some([]);
      }
      var ids := IdsOf(activePromotions);
      activeList := activeList + Texts(ids);
      r := Some(ids);
    }

    /**
     * `getPromotion`: a cached copy is returned without asking the repository; on a
     * miss the repository's promotion is returned and cached, and an unknown id gives
     * None and caches nothing.
     */
    method GetPromotion(id: PromotionId) returns (r: Option<PromotionSnapshot>)
      modifies this
      ensures activeList == old(activeList)
      ensures id in old(entries) ==> r == Some(old(entries)[id]) && entries == old(entries)
      ensures id !in old(entries) && id in promotions.rows ==>
        r == Some(promotions.rows[id].Snapshot()) && entries == old(entries)[id := r.value]
      ensures id !in old(entries) && id !in promotions.rows ==> r == None && entries == old(entries)
      ensures old(Coherent()) ==>
        Coherent() && r == if id in promotions.rows then Some(promotions.rows[id].Snapshot()) else None
    {
      if id in entries {
        return Some(entries[id]);
      }
      var found := promotions.FindById(id);
      if found.None? {
        return None;
      }
      r := Some(found.value.Snapshot());
      entries := entries[id := r.value];
    }

    /** `evictCache`: the copy of `id` and the active list are deleted. */
    method EvictCache(id: PromotionId)
      modifies this
      ensures entries == old(entries) - {id} && activeList == []
      ensures old(CoherentExcept(id)) ==> Coherent()
    {
      entries := entries - {id};
      activeList := [];
    }

    /** `evictAllCache`: only the active list is deleted; the copies stay. */
    method EvictAllCache()
      modifies this
      ensures entries == old(entries) && activeList == []
    {
      activeList := [];
    }
  }

  /**
   * With one ACTIVE promotion, the first listing loads and answers its id, and the
   * second, served from the cache, throws: the one cached element is the whole list.
   */
  method SecondListingThrows() returns (first: Option<seq<PromotionId>>, second: Option<seq<PromotionId>>)
    ensures first == Some(["p"])
    ensures second == None
  {
    var promotions := OneActivePromotion();
    var cache := new PromotionCacheService(promotions);
    first := cache.GetActivePromotionIds();
    second := cache.GetActivePromotionIds();
  }

  /** A repository holding one ACTIVE promotion, "p". */
  method OneActivePromotion() returns (promotions: PromotionRepository)
    ensures fresh(promotions) && promotions.Valid()
    ensures IdsOf(promotions.FindByStatus(Active)) == ["p"]
  {
    promotions := new PromotionRepository();
    var promotion := new Promotion("p", "launch", 0, 100, 5, 1000, None);
    promotion.Start();
    promotions.Save(promotion);
    assert promotions.order == ["p"] && promotions.rows["p"] == promotion;
    assert promotion.status == Active && ["p"][1..] == [];
    assert promotions.Matching(["p"], Active) == [promotion] + promotions.Matching([], Active);
    assert promotions.FindByStatus(Active) == [promotion];
    assert IdsOf([promotion]) == ["p"];
  }

  /**
   * A status change that is not followed by an eviction leaves a stale copy: the
   * cache goes on answering SCHEDULED for a promotion the repository holds as ACTIVE.
   */
  method StaleCopyAfterStart() returns (cached: Option<PromotionSnapshot>, stored: PromotionStatus)
    ensures cached.Some? && cached.value.status == Scheduled
    ensures stored == Active
  {
    var promotions := new PromotionRepository();
    var promotion := new Promotion("p", "launch", 0, 100, 5, 1000, None);
    promotions.Save(promotion);
    var cache := new PromotionCacheService(promotions);
    var first := cache.GetPromotion("p");
    promotion.Start();
    cached := cache.GetPromotion("p");
    stored := promotion.status;
  }
}
