/**
 * The occupancy report of one promotion (PromotionStatusResponse): the queue length,
 * the size of the joined set and the winner counter, all passed through, with the
 * stock and what is left of it.
 */
module StatusReport {
  import opened Wrappers
  import opened JavaInt

  /**
   * The report. `winnerCount` is a nullable `Long`; the counts are Redis replies and
   * never negative.
   */
  datatype PromotionStatusResponse = PromotionStatusResponse(
    queueSize: nat,
    participantCount: nat,
    winnerCount: Option<nat>,
    totalStock: Int32,
    remainingStock: int)

  function Max(a: int, b: int): int {
    if a >= b then a else b
  }

  /**
   * `of` as written: `winnerCount.intValue()` keeps the low 32 bits of the count, and
   * `totalStock - ...` is an `int` subtraction, which wraps as well.
   */
  function OfAsWritten(queueSize: nat, participantCount: nat, winnerCount: Option<nat>, totalStock: Int32): (r: PromotionStatusResponse)
    ensures r.queueSize == queueSize && r.participantCount == participantCount
    ensures r.winnerCount == winnerCount && r.totalStock == totalStock
    ensures r.remainingStock >= 0
  {
    var taken := if winnerCount.Some? then Wrap32(winnerCount.value) else 0;
    PromotionStatusResponse(queueSize, participantCount, winnerCount, totalStock,
                            Max(0, Wrap32(totalStock - taken)))
  }

  /** A count of 2^32 - 1 reads back as -1, and a stock of 5 is reported with 6 remaining. */
  lemma RemainingExceedsStockAsWritten()
    ensures OfAsWritten(0, 0, Some(4294967295), 5).remainingStock == 6
  {
    assert Wrap32(4294967295) == -1;
    assert Wrap32(5 - -1) == 6;
  }

  /** Counts within `int` range and a non-negative stock give the same report both ways. */
  lemma OfAgreesWithinIntRange(queueSize: nat, participantCount: nat, winnerCount: Option<nat>, totalStock: Int32)
    requires totalStock >= 0
    requires winnerCount.Some? ==> winnerCount.value <= IntMax
    ensures OfAsWritten(queueSize, participantCount, winnerCount, totalStock) ==
            Of(queueSize, participantCount, winnerCount, totalStock)
  {
  }

  /**
   * `of` as intended: the stock not yet won, never below zero; a missing count is a
   * count of zero. Everything else is passed through unchanged.
   */
  function Of(queueSize: nat, participantCount: nat, winnerCount: Option<nat>, totalStock: Int32): (r: PromotionStatusResponse)
    ensures r.queueSize == queueSize && r.participantCount == participantCount
    ensures r.winnerCount == winnerCount && r.totalStock == totalStock
    ensures r.remainingStock >= 0
    ensures r.remainingStock <= Max(0, totalStock)
    ensures winnerCount.None? ==> r.remainingStock == Max(0, totalStock)
    ensures winnerCount.Some? && winnerCount.value <= totalStock ==>
      r.remainingStock + winnerCount.value == totalStock
    ensures winnerCount.Some? && winnerCount.value >= totalStock ==> r.remainingStock == 0
  {
    var taken := if winnerCount.Some? then winnerCount.value else 0;
    PromotionStatusResponse(queueSize, participantCount, winnerCount, totalStock, Max(0, totalStock - taken))
  }
}
