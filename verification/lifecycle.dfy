/**
 * The promotion lifecycle service (PromotionService): create, look up, start and end
 * a promotion, and report its occupancy from the admission store. None of these
 * commands touches the admission store or the promotion cache.
 */
module Lifecycle {
  import opened Wrappers
  import opened JavaInt
  import opened Ids
  import opened Errors
  import opened Promotions
  import opened AdmissionStore
  import opened StatusReport

  class PromotionService {
    const promotions: PromotionRepository
    const store: PromotionQueueService

    constructor (promotions: PromotionRepository, store: PromotionQueueService)
      ensures this.promotions == promotions && this.store == store
    {
      this.promotions := promotions;
      this.store := store;
    }

    /**
     * `createPromotion`: a new SCHEDULED promotion with the request's fields, saved
     * under `id`, the fresh UUID the database assigns.
     */
    method CreatePromotion(id: PromotionId, name: string, startTime: int, endTime: int,
                           totalStock: Int32, pointAmount: Int32) returns (r: PromotionSnapshot)
      requires promotions.Valid() && id !in promotions.rows
      modifies promotions
      ensures promotions.Valid()
      ensures r == PromotionSnapshot(id, name, startTime, endTime, totalStock, pointAmount, Scheduled)
      ensures promotions.rows.Keys == old(promotions.rows.Keys) + {id}
      ensures fresh(promotions.rows[id]) && promotions.rows[id].Snapshot() == r
      ensures forall k :: k in old(promotions.rows) ==> promotions.rows[k] == old(promotions.rows[k])
    {
      var promotion := new Promotion(id, name, startTime, endTime, totalStock, pointAmount, Some(Scheduled));
      promotions.Save(promotion);
      r := promotion.Snapshot();
    }

    /** `getPromotion`: the stored promotion, or PROMOTION_NOT_FOUND. */
    method GetPromotion(id: PromotionId) returns (r: Result<PromotionSnapshot, PromotionError>)
      ensures r.Failure? <==> id !in promotions.rows
      ensures r.Failure? ==> r.error == PromotionNotFound
      ensures r.Success? ==> r.value == promotions.rows[id].Snapshot()
    {
      var found := promotions.FindById(id);
      if found.None? {
        return Failure(PromotionNotFound);
      }
      r := Success(found.value.Snapshot());
    }

    /**
     * `startPromotion`: the stored promotion becomes ACTIVE, whatever its status was;
     * every other promotion keeps its status.
     */
    method StartPromotion(id: PromotionId) returns (r: Result<PromotionSnapshot, PromotionError>)
      requires promotions.Valid()
      modifies promotions.rows.Values
      ensures r.Failure? <==> id !in promotions.rows
      ensures r.Failure? ==> r.error == PromotionNotFound
      ensures r.Success? ==> promotions.rows[id].status == Active && r.value == promotions.rows[id].Snapshot()
      ensures forall k :: k in promotions.rows && k != id ==> promotions.rows[k].status == old(promotions.rows[k].status)
    {
      var found := promotions.FindById(id);
      if found.None? {
        return Failure(PromotionNotFound);
      }
      var promotion := found.value;
      promotion.Start();
      r := Success(promotion.Snapshot());
    }

    /**
     * `endPromotion`: the stored promotion becomes ENDED, whatever its status was;
     * every other promotion keeps its status.
     */
    method EndPromotion(id: PromotionId) returns (r: Result<PromotionSnapshot, PromotionError>)
      requires promotions.Valid()
      modifies promotions.rows.Values
      ensures r.Failure? <==> id !in promotions.rows
      ensures r.Failure? ==> r.error == PromotionNotFound
      ensures r.Success? ==> promotions.rows[id].status == Ended && r.value == promotions.rows[id].Snapshot()
      ensures forall k :: k in promotions.rows && k != id ==> promotions.rows[k].status == old(promotions.rows[k].status)
    {
      var found := promotions.FindById(id);
      if found.None? {
        return Failure(PromotionNotFound);
      }
      var promotion := found.value;
      promotion.End();
      r := Success(promotion.Snapshot());
    }

    /**
     * `getPromotionStatus`: the queue length, the joined-set size and the winner
     * counter read from the admission store, with the promotion's stock, reported
     * through `of` as written. While the counter fits an `int` and the stock is not
     * negative, that is the intended report.
     */
    method GetPromotionStatus(id: PromotionId) returns (r: Result<PromotionStatusResponse, PromotionError>)
      requires store.Valid()
      ensures r.Failure? <==> id !in promotions.rows
      ensures r.Failure? ==> r.error == PromotionNotFound
      ensures r.Success? ==>
        r.value == OfAsWritten(|store.Queue(id)|, |store.Joined(id)|, Some(store.WinnerCount(id)),
                               promotions.rows[id].totalStock)
      ensures r.Success? && store.WinnerCount(id) <= IntMax && promotions.rows[id].totalStock >= 0 ==>
        r.value == Of(|store.Queue(id)|, |store.Joined(id)|, Some(store.WinnerCount(id)), promotions.rows[id].totalStock)
    {
      var found := promotions.FindById(id);
      if found.None? {
        return Failure(PromotionNotFound);
      }
      var promotion := found.value;
      var queueSize := store.GetQueueSize(id);
      var participantCount := store.GetParticipantCount(id);
      var winnerCount := store.GetWinnerCount(id);
      r := Success(OfAsWritten(queueSize, participantCount, Some(winnerCount), promotion.totalStock));
      if winnerCount <= IntMax && promotion.totalStock >= 0 {
        OfAgreesWithinIntRange(queueSize, participantCount, Some(winnerCount), promotion.totalStock);
      }
    }
  }
}
