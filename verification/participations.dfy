/**
 * The outcome record of one admitted user (PromotionParticipation), its two
 * factories, and its JPA repository (PromotionParticipationRepository).
 */
module Participations {
  import opened Wrappers
  import opened Ids

  datatype ParticipationStatus = Won | Lost

  /**
   * One saved outcome. The promotion is referred to by its id; `queuePosition` is
   * the rank a winner drew (absent for a loser); `participatedAt` is the clock at
   * resolution time.
   */
  datatype PromotionParticipation = PromotionParticipation(
    promotionId: PromotionId,
    userId: UserId,
    participatedAt: int,
    queuePosition: Option<int>,
    status: ParticipationStatus,
    ipAddress: string,
    userAgent: string)
  {
    predicate IsWinner() {
      status == Won
    }
  }

  /** The record names this promotion, user, address and agent, exactly as given. */
  predicate Copies(r: PromotionParticipation, promotionId: PromotionId, userId: UserId,
                   ipAddress: string, userAgent: string)
  {
    r.promotionId == promotionId && r.userId == userId &&
    r.ipAddress == ipAddress && r.userAgent == userAgent
  }

  /** A winner: status WON, holding the rank it drew as its queue position. */
  function CreateWinner(promotionId: PromotionId, userId: UserId, ipAddress: string,
                        userAgent: string, now: int, position: int): (r: PromotionParticipation)
    ensures r.IsWinner() && r.queuePosition == Some(position)
    ensures Copies(r, promotionId, userId, ipAddress, userAgent) && r.participatedAt == now
  {
    PromotionParticipation(promotionId, userId, now, Some(position), Won, ipAddress, userAgent)
  }

  /** A loser: status LOST and no queue position. */
  function CreateLoser(promotionId: PromotionId, userId: UserId, ipAddress: string,
                       userAgent: string, now: int): (r: PromotionParticipation)
    ensures !r.IsWinner() && r.queuePosition == None
    ensures Copies(r, promotionId, userId, ipAddress, userAgent) && r.participatedAt == now
  {
    PromotionParticipation(promotionId, userId, now, None, Lost, ipAddress, userAgent)
  }

  /** The records of promotion `p`, in saving order. */
  function RecordsOf(records: seq<PromotionParticipation>, p: PromotionId): (r: seq<PromotionParticipation>)
    ensures |r| <= |records|
    ensures forall i :: 0 <= i < |r| ==> r[i].promotionId == p && r[i] in records
    ensures forall x :: x in records && x.promotionId == p ==> x in r
  {
    if records == [] then []
    else
      var rest := RecordsOf(records[1..], p);
      assert forall x :: x in records <==> x == records[0] || x in records[1..];
      if records[0].promotionId == p then [records[0]] + rest else rest
  }

  /** Saving more records adds their part to each promotion's list and touches nothing else. */
  lemma {:induction false} RecordsOfAppend(a: seq<PromotionParticipation>, b: seq<PromotionParticipation>, p: PromotionId)
    ensures RecordsOf(a + b, p) == RecordsOf(a, p) + RecordsOf(b, p)
  {
    if a == [] {
      assert a + b == b;
    } else {
      assert (a + b)[1..] == a[1..] + b;
      RecordsOfAppend(a[1..], b, p);
    }
  }

  /** A batch that belongs to one promotion is all of that promotion's part and none of another's. */
  lemma {:induction false} RecordsOfOwnBatch(batch: seq<PromotionParticipation>, p: PromotionId, q: PromotionId)
    requires forall i :: 0 <= i < |batch| ==> batch[i].promotionId == p
    ensures RecordsOf(batch, q) == if q == p then batch else []
  {
    if batch != [] {
      RecordsOfOwnBatch(batch[1..], p, q);
      assert [batch[0]] + batch[1..] == batch;
    }
  }

  /** The user ids of some records, in order. */
  function UsersOf(records: seq<PromotionParticipation>): (users: seq<string>)
    ensures |users| == |records|
    ensures forall i :: 0 <= i < |records| ==> users[i] == records[i].userId
  {
    if records == [] then [] else [records[0].userId] + UsersOf(records[1..])
  }

  lemma {:induction false} UsersOfAppend(a: seq<PromotionParticipation>, b: seq<PromotionParticipation>)
    ensures UsersOf(a + b) == UsersOf(a) + UsersOf(b)
  {
    if a == [] {
      assert a + b == b;
    } else {
      assert (a + b)[1..] == a[1..] + b;
      UsersOfAppend(a[1..], b);
    }
  }

  /** The sort key of the winners query; a record without a position sorts as 0. */
  function PositionKey(r: PromotionParticipation): int {
    if r.queuePosition.Some? then r.queuePosition.value else 0
  }

  predicate SortedByPosition(s: seq<PromotionParticipation>) {
    forall i, j :: 0 <= i < j < |s| ==> PositionKey(s[i]) <= PositionKey(s[j])
  }

  /** A record no later than the head of a sorted list can go in front of it. */
  lemma ConsSorted(y: PromotionParticipation, t: seq<PromotionParticipation>)
    requires SortedByPosition(t) && (t != [] ==> PositionKey(y) <= PositionKey(t[0]))
    ensures SortedByPosition([y] + t)
  {
    var r := [y] + t;
    forall i, j | 0 <= i < j < |r| ensures PositionKey(r[i]) <= PositionKey(r[j]) {
      if i == 0 {
        assert r[j] == t[j - 1];
      } else {
        assert r[i] == t[i - 1] && r[j] == t[j - 1];
      }
    }
  }

  /** Puts `x` in front of the first record with a larger position. */
  function InsertByPosition(x: PromotionParticipation, s: seq<PromotionParticipation>): (r: seq<PromotionParticipation>)
    requires SortedByPosition(s)
    ensures |r| == |s| + 1 && (r[0] == x || (s != [] && r[0] == s[0]))
    ensures SortedByPosition(r)
  {
    if s == [] || PositionKey(x) <= PositionKey(s[0]) then
      ConsSorted(x, s);
      [x] + s
    else
      var rest := InsertByPosition(x, s[1..]);
      ConsSorted(s[0], rest);
      [s[0]] + rest
  }

  /** Inserting adds `x` and loses nothing. */
  lemma {:induction false} InsertByPositionPermutes(x: PromotionParticipation, s: seq<PromotionParticipation>)
    requires SortedByPosition(s)
    ensures multiset(InsertByPosition(x, s)) == multiset(s) + multiset{x}
  {
    if s != [] && PositionKey(x) > PositionKey(s[0]) {
      InsertByPositionPermutes(x, s[1..]);
      assert s == [s[0]] + s[1..];
    }
  }

  /** `ORDER BY queuePosition ASC`, stable: records with equal keys keep their saving order. */
  function SortByPosition(s: seq<PromotionParticipation>): (r: seq<PromotionParticipation>)
    ensures |r| == |s|
    ensures SortedByPosition(r)
  {
    if s == [] then []
    else InsertByPosition(s[0], SortByPosition(s[1..]))
  }

  /** The sort is a permutation: the same records, each as often. */
  lemma {:induction false} SortByPositionPermutes(s: seq<PromotionParticipation>)
    ensures multiset(SortByPosition(s)) == multiset(s)
  {
    if s != [] {
      SortByPositionPermutes(s[1..]);
      InsertByPositionPermutes(s[0], SortByPosition(s[1..]));
      assert s == [s[0]] + s[1..];
    }
  }

  /** Records that are already in position order come back from the sort unchanged. */
  lemma {:induction false} SortKeepsSorted(s: seq<PromotionParticipation>)
    requires SortedByPosition(s)
    ensures SortByPosition(s) == s
  {
    if s != [] {
      SortKeepsSorted(s[1..]);
    }
  }

  class ParticipationRepository {
    /** Every saved record, in saving order. */
    var records: seq<PromotionParticipation>

    constructor ()
      ensures records == []
    {
      records := [];
    }

    /** `saveAll`: the batch is stored after everything saved before, in its own order. */
    method SaveAll(batch: seq<PromotionParticipation>)
      modifies this
      ensures records == old(records) + batch
    {
      records := records + batch;
    }

    /** Every record of user `u` in promotion `p` (the derived query expects at most one). */
    function FindByPromotionAndUserId(p: PromotionId, u: UserId): (r: seq<PromotionParticipation>)
      reads this
      ensures forall i :: 0 <= i < |r| ==> r[i] in records && r[i].promotionId == p && r[i].userId == u
      ensures forall x :: x in records && x.promotionId == p && x.userId == u ==> x in r
    {
      OfUser(RecordsOf(records, p), u)
    }

    /** The records of `p` with the given status, by ascending queue position. */
    function FindByPromotionAndStatusOrderByQueuePositionAsc(p: PromotionId, status: ParticipationStatus): (r: seq<PromotionParticipation>)
      reads this
      ensures SortedByPosition(r)
      ensures multiset(r) == multiset(WithStatus(RecordsOf(records, p), status))
    {
      SortByPositionPermutes(WithStatus(RecordsOf(records, p), status));
      SortByPosition(WithStatus(RecordsOf(records, p), status))
    }
  }

  function OfUser(s: seq<PromotionParticipation>, u: UserId): (r: seq<PromotionParticipation>)
    ensures forall i :: 0 <= i < |r| ==> r[i] in s && r[i].userId == u
    ensures forall x :: x in s && x.userId == u ==> x in r
  {
    if s == [] then []
    else
      var rest := OfUser(s[1..], u);
      assert forall x :: x in s <==> x == s[0] || x in s[1..];
      if s[0].userId == u then [s[0]] + rest else rest
  }

  function WithStatus(s: seq<PromotionParticipation>, status: ParticipationStatus): (r: seq<PromotionParticipation>)
    ensures |r| <= |s|
    ensures forall i :: 0 <= i < |r| ==> r[i] in s && r[i].status == status
    ensures forall x :: x in s && x.status == status ==> x in r
  {
    if s == [] then []
    else
      var rest := WithStatus(s[1..], status);
      assert forall x :: x in s <==> x == s[0] || x in s[1..];
      if s[0].status == status then [s[0]] + rest else rest
  }
}
