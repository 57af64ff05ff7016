/**
 * The read side of participations (ParticipationQueryService): one user's outcome in
 * a promotion, and the winners' list of a promotion by rank.
 */
module Query {
  import opened Wrappers
  import opened Ids
  import opened Errors
  import opened Promotions
  import opened Participations
  import Pipeline

  /**
   * Why a lookup gives no record: a coded error, or more than one row for the user,
   * on which the repository's single-result query throws.
   */
  datatype QueryFailure = Coded(code: PromotionError) | NonUniqueResult

  /** One line of the winners' list (WinnerListResponse). */
  datatype WinnerEntry = WinnerEntry(userId: UserId, queuePosition: Option<int>, participatedAt: int)

  function WinnerEntryOf(r: PromotionParticipation): WinnerEntry {
    WinnerEntry(r.userId, r.queuePosition, r.participatedAt)
  }

  /** The winners' list, one line per record, in the records' order. */
  function WinnerEntries(winners: seq<PromotionParticipation>): (list: seq<WinnerEntry>)
    ensures |list| == |winners|
    ensures forall i :: 0 <= i < |winners| ==>
      list[i].userId == winners[i].userId && list[i].queuePosition == winners[i].queuePosition
  {
    if winners == [] then [] else [WinnerEntryOf(winners[0])] + WinnerEntries(winners[1..])
  }

  /**
   * `getParticipationResult`: PROMOTION_NOT_FOUND for an unknown promotion, then the
   * one record of the user in it, PARTICIPATION_NOT_FOUND when there is none.
   */
  function GetParticipationResult(promotions: PromotionRepository, participations: ParticipationRepository,
                                  p: PromotionId, u: UserId): (r: Result<PromotionParticipation, QueryFailure>)
    reads promotions, participations
    ensures p !in promotions.rows ==> r == Failure(Coded(PromotionNotFound))
    ensures r == Failure(Coded(ParticipationNotFound)) <==>
      p in promotions.rows && forall x :: x in participations.records ==> !(x.promotionId == p && x.userId == u)
    ensures r.Success? ==>
      r.value in participations.records && r.value.promotionId == p && r.value.userId == u
    ensures p in promotions.rows ==>
      var matches := participations.FindByPromotionAndUserId(p, u);
      (|matches| == 1 ==> r == Success(matches[0])) &&
      (r == Failure(NonUniqueResult) <==> |matches| >= 2)
  {
    if p !in promotions.rows then Failure(Coded(PromotionNotFound))
    else
      var matches := participations.FindByPromotionAndUserId(p, u);
      if matches == [] then Failure(Coded(ParticipationNotFound))
      else
        assert matches[0] in participations.records && matches[0].promotionId == p && matches[0].userId == u;
        if |matches| == 1 then Success(matches[0]) else Failure(NonUniqueResult)
  }

  /**
   * `getWinners`: PROMOTION_NOT_FOUND for an unknown promotion; otherwise one line per
   * WON record of the promotion, by ascending queue position.
   */
  function GetWinners(promotions: PromotionRepository, participations: ParticipationRepository,
                      p: PromotionId): (r: Result<seq<WinnerEntry>, PromotionError>)
    reads promotions, participations
    ensures r.Failure? <==> p !in promotions.rows
    ensures r.Failure? ==> r.error == PromotionNotFound
    ensures r.Success? ==>
      r.value == WinnerEntries(participations.FindByPromotionAndStatusOrderByQueuePositionAsc(p, Won))
    ensures r.Success? ==>
      var winners := WithStatus(RecordsOf(participations.records, p), Won);
      |r.value| == |winners| && EntriesSorted(r.value)
  {
    if p !in promotions.rows then Failure(PromotionNotFound)
    else
      var winners := participations.FindByPromotionAndStatusOrderByQueuePositionAsc(p, Won);
      var all := WithStatus(RecordsOf(participations.records, p), Won);
      assert |winners| == |all| by {
        assert |multiset(winners)| == |multiset(all)|;
      }
      WinnerEntriesSorted(winners);
      Success(WinnerEntries(winners))
  }

  /** The position a line sorts by; a line without one sorts as 0, as PositionKey does. */
  function EntryKey(e: WinnerEntry): int {
    if e.queuePosition.Some? then e.queuePosition.value else 0
  }

  predicate EntriesSorted(list: seq<WinnerEntry>) {
    forall i, j :: 0 <= i < j < |list| ==> EntryKey(list[i]) <= EntryKey(list[j])
  }

  lemma WinnerEntriesSorted(winners: seq<PromotionParticipation>)
    requires SortedByPosition(winners)
    ensures EntriesSorted(WinnerEntries(winners))
  {
    var list := WinnerEntries(winners);
    forall i, j | 0 <= i < j < |list| ensures EntryKey(list[i]) <= EntryKey(list[j]) {
      assert EntryKey(list[i]) == PositionKey(winners[i]) && EntryKey(list[j]) == PositionKey(winners[j]);
    }
  }

  /**
   * In a state the pipeline keeps consistent, the winners' list of a known promotion
   * is its first records, as many as the stock allows, in saving order, and line `i`
   * holds position `i + 1`.
   */
  lemma WinnersListIsFirstRanks(promotions: PromotionRepository, participations: ParticipationRepository,
                                s: Pipeline.State, stocks: Pipeline.Stocks, p: PromotionId)
    requires Pipeline.Consistent(s, stocks) && participations.records == s.records
    requires p in promotions.rows
    ensures var records := RecordsOf(s.records, p);
      var r := GetWinners(promotions, participations, p);
      r.Success? &&
      r.value == WinnerEntries(records[..Pipeline.Clamp(Pipeline.StockOf(stocks, p), |records|)]) &&
      forall i :: 0 <= i < |r.value| ==> r.value[i].queuePosition == Some(i + 1)
  {
    Pipeline.WinnersWithinStock(s, stocks, p);
    Pipeline.WinnersSortedByRank(s, stocks, p);
  }
}
