/**
 * The admission step (PromotionParticipationService): a join request is checked
 * against the promotion, deduplicated through the joined set, turned away when the
 * queue is full, and otherwise appended to the promotion's queue as one text entry.
 */
module Admission {
  import opened Wrappers
  import opened JavaInt
  import opened JavaText
  import opened Ids
  import opened RedisKeys
  import opened Errors
  import opened Promotions
  import opened AdmissionStore

  /** One header line of a request, as received. */
  datatype HeaderField = HeaderField(name: string, value: string)

  /** The parts of an HTTP request the join reads: its header lines in order and the peer address. */
  datatype HttpRequest = HttpRequest(headers: seq<HeaderField>, remoteAddr: string)

  /** A character with ASCII upper-case letters folded to lower case. */
  function AsciiLower(c: char): (l: char)
    ensures 'A' <= c <= 'Z' ==> l as int == c as int + 32
    ensures !('A' <= c <= 'Z') ==> l == c
  {
    if 'A' <= c <= 'Z' then (c as int + 32) as char else c
  }

  /** Header names compare without regard to ASCII case. */
  predicate SameHeaderName(a: string, b: string) {
    |a| == |b| && forall i :: 0 <= i < |a| ==> AsciiLower(a[i]) == AsciiLower(b[i])
  }

  /** The value of the first line in `fields` whose name is `name` up to case, if any. */
  function FirstValue(fields: seq<HeaderField>, name: string): (r: Option<string>)
    ensures r.None? <==> forall i :: 0 <= i < |fields| ==> !SameHeaderName(fields[i].name, name)
    ensures r.Some? ==> exists i :: 0 <= i < |fields| && SameHeaderName(fields[i].name, name) &&
                          fields[i].value == r.value &&
                          forall j :: 0 <= j < i ==> !SameHeaderName(fields[j].name, name)
  {
    if fields == [] then None
    else if SameHeaderName(fields[0].name, name) then Some(fields[0].value)
    else
      var r := FirstValue(fields[1..], name);
      assert forall i :: 1 <= i < |fields| ==> fields[i] == fields[1..][i - 1];
      assert r.Some? ==> exists i :: 0 <= i < |fields| && SameHeaderName(fields[i].name, name) &&
                          fields[i].value == r.value &&
                          forall j :: 0 <= j < i ==> !SameHeaderName(fields[j].name, name) by {
        if r.Some? {
          var i :| 0 <= i < |fields[1..]| && SameHeaderName(fields[1..][i].name, name) &&
                   fields[1..][i].value == r.value &&
                   forall j :: 0 <= j < i ==> !SameHeaderName(fields[1..][j].name, name);
          assert fields[i + 1] == fields[1..][i];
          assert forall j :: 0 <= j < i + 1 ==> !SameHeaderName(fields[j].name, name);
        }
      }
      r
  }

  /**
   * `getHeader(name)`: the value of the first header line with that name, the name
   * compared without regard to case; None (Java's null) when there is none.
   */
  function Header(request: HttpRequest, name: string): Option<string> {
    FirstValue(request.headers, name)
  }

  /** A header value the address lookup accepts: present, non-empty and not "unknown" in any case. */
  predicate Usable(v: Option<string>) {
    v.Some? && v.value != [] && !EqualsIgnoreCase(v.value, "unknown")
  }

  /** The proxy headers consulted for the client address, in the order they are tried. */
  const IpHeaders: seq<string> :=
    ["X-Forwarded-For", "Proxy-Client-IP", "WL-Proxy-Client-IP", "HTTP_CLIENT_IP", "HTTP_X_FORWARDED_FOR"]

  /** The address the chain of fallbacks settles on, written as the chain of reassignments it is. */
  function ChosenIp(request: HttpRequest): string {
    var ip1 := Header(request, "X-Forwarded-For");
    var ip2 := if Usable(ip1) then ip1 else Header(request, "Proxy-Client-IP");
    var ip3 := if Usable(ip2) then ip2 else Header(request, "WL-Proxy-Client-IP");
    var ip4 := if Usable(ip3) then ip3 else Header(request, "HTTP_CLIENT_IP");
    var ip5 := if Usable(ip4) then ip4 else Header(request, "HTTP_X_FORWARDED_FOR");
    if Usable(ip5) then ip5.value else request.remoteAddr
  }

  /** The reference reading: the first header in `names` whose value is usable, if any. */
  function FirstUsable(request: HttpRequest, names: seq<string>): (r: Option<string>)
    ensures r.Some? ==> Usable(r)
    ensures r.Some? ==> exists i :: 0 <= i < |names| && Header(request, names[i]) == r &&
                          forall j :: 0 <= j < i ==> !Usable(Header(request, names[j]))
    ensures r.None? ==> forall i :: 0 <= i < |names| ==> !Usable(Header(request, names[i]))
  {
    if names == [] then None
    else if Usable(Header(request, names[0])) then Header(request, names[0])
    else
      var r := FirstUsable(request, names[1..]);
      assert forall i :: 1 <= i < |names| ==> names[i] == names[1..][i - 1];
      r
  }

  /**
   * The fallback chain picks the first usable proxy header, in the order of
   * IpHeaders, and the peer address when there is none.
   */
  lemma ChosenIpIsFirstUsable(request: HttpRequest)
    ensures ChosenIp(request) ==
      (var f := FirstUsable(request, IpHeaders); if f.Some? then f.value else request.remoteAddr)
  {
    var n0 := IpHeaders;
    var n1, n2, n3, n4 := n0[1..], n0[2..], n0[3..], n0[4..];
    assert n1[1..] == n2 && n2[1..] == n3 && n3[1..] == n4 && n4[1..] == [];
    assert FirstUsable(request, n4[1..]) == None;
    assert n4[0] == "HTTP_X_FORWARDED_FOR" && n3[0] == "HTTP_CLIENT_IP" && n2[0] == "WL-Proxy-Client-IP";
    assert n1[0] == "Proxy-Client-IP" && n0[0] == "X-Forwarded-For";
  }

  /**
   * `getClientIp` exactly as written: when the chosen value has a comma, the trimmed
   * first element of `split(",")`. For a value made of commas only, `split` returns an
   * empty array and the indexing throws; that outcome is None here.
   */
  function GetClientIpAsWritten(request: HttpRequest): Option<string> {
    var ip := ChosenIp(request);
    if ',' in ip then
      var parts := JavaSplit(ip, ',');
      if |parts| == 0 then None else Some(Trim(parts[0]))
    else Some(ip)
  }

  /**
   * The client address as evidently intended: the chosen value, cut at its first comma
   * and trimmed when it has one. It never throws.
   */
  function GetClientIp(request: HttpRequest): (ip: string)
    ensures ',' !in ip
    ensures ',' !in ChosenIp(request) ==> ip == ChosenIp(request)
    ensures ',' in ChosenIp(request) ==> ip == Trim(TextBefore(ChosenIp(request), ','))
  {
    var chosen := ChosenIp(request);
    if ',' in chosen then
      var before := TextBefore(chosen, ',');
      assert ',' !in before;
      TrimKeepsOut(before, ',');
      Trim(before)
    else chosen
  }

  /**
   * The written code throws exactly for a chosen value that is non-empty and made of
   * commas only; for every other request it returns the intended address.
   */
  lemma GetClientIpAsWrittenAgrees(request: HttpRequest)
    ensures var ip := ChosenIp(request);
      GetClientIpAsWritten(request) ==
        if ip != [] && forall i :: 0 <= i < |ip| ==> ip[i] == ',' then None
        else Some(GetClientIp(request))
  {
    var ip := ChosenIp(request);
    if ',' in ip {
      var all := SplitAll(ip, ',');
      SplitAllOnlySeparators(ip, ',');
      var parts := DropTrailingEmpty(all);
      if parts == [] {
        assert forall i :: 0 <= i < |all| ==> all[i] == [];
      } else {
        assert parts[|parts| - 1] == all[|parts| - 1];
        assert parts[0] == all[0] == TextBefore(ip, ',');
      }
    }
  }

  /** A request whose X-Forwarded-For header is a lone comma makes the written code throw. */
  lemma LoneCommaHeaderThrows()
    ensures GetClientIpAsWritten(HttpRequest([HeaderField("X-Forwarded-For", ",")], "10.0.0.1")) == None
  {
    var request := HttpRequest([HeaderField("X-Forwarded-For", ",")], "10.0.0.1");
    assert !EqualsIgnoreCase(",", "unknown");
    assert ChosenIp(request) == ",";
    GetClientIpAsWrittenAgrees(request);
  }

  /** A proxy header sent with a lower-case name (as HTTP/2 clients send them) is still found. */
  lemma LowerCaseHeaderIsFound()
    ensures GetClientIpAsWritten(HttpRequest([HeaderField("x-forwarded-for", "1.2.3.4")], "10.0.0.1")) == Some("1.2.3.4")
  {
    var request := HttpRequest([HeaderField("x-forwarded-for", "1.2.3.4")], "10.0.0.1");
    assert SameHeaderName("x-forwarded-for", "X-Forwarded-For");
    assert !SameLetterIgnoringCase("1.2.3.4"[0], "unknown"[0]);
    assert !EqualsIgnoreCase("1.2.3.4", "unknown");
    assert ChosenIp(request) == "1.2.3.4";
  }

  /** The text of a `LocalDateTime`: never empty, and it ends with a digit. */
  predicate IsTimestampText(s: string) {
    s != [] && '0' <= s[|s| - 1] <= '9'
  }

  type Timestamp = s: string | IsTimestampText(s) witness "0"

  /** `String.format("%s", userAgent)`: a missing User-Agent header prints as "null". */
  function AgentText(userAgent: Option<string>): string {
    if userAgent.Some? then userAgent.value else "null"
  }

  /** The queue entry `userId:ip:userAgent:timestamp`. */
  function QueueEntry(u: UserId, ip: string, userAgent: Option<string>, timestamp: Timestamp): string {
    u + ":" + ip + ":" + AgentText(userAgent) + ":" + timestamp
  }

  /**
   * Whatever the address and agent hold (an IPv6 address brings more colons), an entry
   * splits on ':' into at least four parts, and the first part is the user id.
   */
  lemma {:induction false} QueueEntryShape(u: UserId, ip: string, userAgent: Option<string>, timestamp: Timestamp)
    ensures var parts := JavaSplit(QueueEntry(u, ip, userAgent, timestamp), ':');
      |parts| >= 4 && parts[0] == u
    ensures TextBefore(QueueEntry(u, ip, userAgent, timestamp), ':') == u
  {
    var ua := AgentText(userAgent);
    var e := QueueEntry(u, ip, userAgent, timestamp);
    SplitAllAppend(u, ':', ip);
    SplitAllAppend(u + ":" + ip, ':', ua);
    SplitAllAppend(u + ":" + ip + ":" + ua, ':', timestamp);
    assert u + ":" + ip == u + [':'] + ip;
    assert u + ":" + ip + ":" + ua == (u + ":" + ip) + [':'] + ua;
    assert e == (u + ":" + ip + ":" + ua) + [':'] + timestamp;
    var all := SplitAll(e, ':');
    assert all == SplitAll(u, ':') + SplitAll(ip, ':') + SplitAll(ua, ':') + SplitAll(timestamp, ':');
    SplitAllLastPiece(timestamp, ':');
    assert all[|all| - 1] != [];
    assert ':' in e by { assert e[|u|] == ':'; }
    assert DropTrailingEmpty(all) == all;
  }

  /** QUEUE_SIZE_MULTIPLIER: the queue may hold five entries per unit of stock. */
  const QueueSizeMultiplier: int := 5

  /** `totalStock * QUEUE_SIZE_MULTIPLIER` as written: a Java `int` product, which wraps. */
  function MaxQueueSizeAsWritten(totalStock: Int32): (cap: Int32)
    ensures 0 <= totalStock <= IntMax / QueueSizeMultiplier ==> cap == totalStock * QueueSizeMultiplier
  {
    Wrap32(totalStock * QueueSizeMultiplier)
  }

  /** With a stock of 429496730 the product wraps below zero, so every join is turned away as QUEUE_FULL. */
  lemma QueueCapWrapsNegative()
    ensures MaxQueueSizeAsWritten(429496730) < 0
  {
    assert 429496730 * QueueSizeMultiplier == 2147483650;
  }

  /** The intended cap, five entries per unit of stock, computed without overflow. */
  function MaxQueueSize(totalStock: Int32): (cap: int)
    ensures totalStock > 0 ==> cap >= totalStock && cap > 0
    ensures cap == QueueSizeMultiplier * totalStock
  {
    totalStock * QueueSizeMultiplier
  }

  /**
   * Why a join fails: one of the service's error codes, or the index exception that
   * `getClientIp` throws on an X-Forwarded-For value made of commas only.
   */
  datatype JoinFailure = Rejected(code: PromotionError) | ClientIpOutOfBounds

  class PromotionParticipationService {
    const promotions: PromotionRepository
    const store: PromotionQueueService

    constructor (promotions: PromotionRepository, store: PromotionQueueService)
      ensures this.promotions == promotions && this.store == store
    {
      this.promotions := promotions;
      this.store := store;
    }

    /**
     * `joinPromotion`, as written. The client address is read first, and a header
     * made of commas only throws there, before anything else. Then the checks run in
     * order: the promotion exists, it can be joined at `now`, the user is new to the
     * joined set, and the queue is below the `int` cap `totalStock * 5`; the first
     * that fails decides the error. A full queue rolls the set entry back. On success
     * one entry is appended and the answer is the position it was given.
     */
    method JoinPromotion(promotionId: PromotionId, userId: UserId, request: HttpRequest,
                         now: int, timestamp: Timestamp) returns (r: Result<int, JoinFailure>)
      requires store.Valid()
      modifies store
      ensures store.Valid()
      ensures GetClientIpAsWritten(request).None? ==>
        r == Failure(ClientIpOutOfBounds) && store.Contents() == old(store.Contents())
      ensures GetClientIpAsWritten(request).Some? && promotionId !in promotions.rows ==>
        r == Failure(Rejected(PromotionNotFound)) && store.Contents() == old(store.Contents())
      ensures GetClientIpAsWritten(request).Some? && promotionId in promotions.rows &&
              !promotions.rows[promotionId].CanParticipate(now) ==>
        r == Failure(Rejected(PromotionNotAvailable)) && store.Contents() == old(store.Contents())
      ensures GetClientIpAsWritten(request).Some? && promotionId in promotions.rows &&
              promotions.rows[promotionId].CanParticipate(now) && userId in old(store.Joined(promotionId)) ==>
        r == Failure(Rejected(PromotionAlreadyJoined)) && store.Contents() == old(store.Contents())
      ensures GetClientIpAsWritten(request).Some? && promotionId in promotions.rows &&
              promotions.rows[promotionId].CanParticipate(now) && userId !in old(store.Joined(promotionId)) &&
              |old(store.Queue(promotionId))| >= MaxQueueSizeAsWritten(promotions.rows[promotionId].totalStock) ==>
        r == Failure(Rejected(PromotionQueueFull)) && store.Contents() == old(store.Contents())
      ensures GetClientIpAsWritten(request).Some? && promotionId in promotions.rows &&
              promotions.rows[promotionId].CanParticipate(now) && userId !in old(store.Joined(promotionId)) &&
              |old(store.Queue(promotionId))| < MaxQueueSizeAsWritten(promotions.rows[promotionId].totalStock) ==>
        r == Success(|old(store.Queue(promotionId))| + 1) &&
        store.lists == WithQueue(old(store.lists), promotionId, old(store.Queue(promotionId)) +
          [QueueEntry(userId, GetClientIpAsWritten(request).value, Header(request, "User-Agent"), timestamp)]) &&
        store.sets == WithJoined(old(store.sets), promotionId, old(store.Joined(promotionId)) + {userId}) &&
        store.counters == old(store.counters)
    {
      var ip := GetClientIpAsWritten(request);
      if ip.None? {
        return Failure(ClientIpOutOfBounds);
      }
      var ipAddress := ip.value;
      var userAgent := Header(request, "User-Agent");

      var found := promotions.FindById(promotionId);
      if found.None? {
        return Failure(Rejected(PromotionNotFound));
      }
      var promotion := found.value;
      if !promotion.CanParticipate(now) {
        return Failure(Rejected(PromotionNotAvailable));
      }

      var admitted := Admit(promotionId, userId, MaxQueueSizeAsWritten(promotion.totalStock),
                            QueueEntry(userId, ipAddress, userAgent, timestamp));
      r := if admitted.Success? then Success(admitted.value) else Failure(Rejected(admitted.error));
    }

    /**
     * The store half of `joinPromotion`: the user is added to the joined set, taken
     * out again when the queue already holds `maxQueueSize` entries, and otherwise
     * `queueData` is appended to the queue.
     */
    method Admit(promotionId: PromotionId, userId: UserId, maxQueueSize: int, queueData: string)
      returns (r: Result<int, PromotionError>)
      requires store.Valid()
      modifies store
      ensures store.Valid()
      ensures userId in old(store.Joined(promotionId)) ==>
        r == Failure(PromotionAlreadyJoined) && store.Contents() == old(store.Contents())
      ensures userId !in old(store.Joined(promotionId)) && |old(store.Queue(promotionId))| >= maxQueueSize ==>
        r == Failure(PromotionQueueFull) && store.Contents() == old(store.Contents())
      ensures userId !in old(store.Joined(promotionId)) && |old(store.Queue(promotionId))| < maxQueueSize ==>
        r == Success(|old(store.Queue(promotionId))| + 1) &&
        store.lists == WithQueue(old(store.lists), promotionId, old(store.Queue(promotionId)) + [queueData]) &&
        store.sets == WithJoined(old(store.sets), promotionId, old(store.Joined(promotionId)) + {userId}) &&
        store.counters == old(store.counters)
    {
      ghost var sets0 := store.sets;
      var isNewParticipant := store.AddToJoinedSet(promotionId, userId);
      if !isNewParticipant {
        AddMemberRestores(sets0, promotionId, userId);
        return Failure(PromotionAlreadyJoined);
      }

      var queueSize := store.GetQueueSize(promotionId);
      if queueSize >= maxQueueSize {
        store.RemoveFromJoinedSet(promotionId, userId);
        AddThenRemoveRestores(sets0, promotionId, userId);
        return Failure(PromotionQueueFull);
      }

      store.Enqueue(promotionId, queueData);
      return Success(queueSize + 1);
    }
  }

  /** The user id of the `k`-th joiner of the run below: k + 1 letters, so no two are alike. */
  function Joiner(k: nat): (u: UserId)
    ensures |u| == k + 1
  {
    var s := seq(k + 1, i => 'u');
    assert forall i :: 0 <= i < |s| ==> s[i] == 'u';
    s
  }

  /**
   * Users `Joiner(0)`, …, `Joiner(n - 1)` join promotion `p` in turn, each with
   * PlainRequest, into an empty queue whose cap is at least `n`: each is new and
   * finds room, so all are queued.
   */
  method JoinInTurn(service: PromotionParticipationService, p: PromotionId,
                    now: int, timestamp: Timestamp, n: nat)
    requires service.store.Valid() && service.store.Queue(p) == [] && service.store.Joined(p) == {}
    requires p in service.promotions.rows && service.promotions.rows[p].CanParticipate(now)
    requires var stock := service.promotions.rows[p].totalStock;
      stock <= IntMax / QueueSizeMultiplier && n <= stock * QueueSizeMultiplier
    modifies service.store
    ensures service.store.Valid() && |service.store.Queue(p)| == n
    ensures forall x :: x in service.store.Joined(p) ==> |x| <= n
  {
    var store := service.store;
    PlainRequestIp();
    var k := 0;
    while k < n
      invariant 0 <= k <= n
      invariant store.Valid()
      invariant |store.Queue(p)| == k
      invariant forall x :: x in store.Joined(p) ==> |x| <= k
      modifies store
    {
      var u := Joiner(k);
      assert u !in store.Joined(p);
      ghost var joined0 := store.Joined(p);
      var position := service.JoinPromotion(p, u, PlainRequest, now, timestamp);
      assert store.Joined(p) == joined0 + {u};
      k := k + 1;
    }
  }

  /** A new user (from PlainRequest) who finds the queue at its cap is turned away as QUEUE_FULL, and the store is left alone. */
  method JoinWhenFull(service: PromotionParticipationService, p: PromotionId, u: UserId,
                      now: int, timestamp: Timestamp) returns (r: Result<int, JoinFailure>)
    requires service.store.Valid() && u !in service.store.Joined(p)
    requires p in service.promotions.rows && service.promotions.rows[p].CanParticipate(now)
    requires |service.store.Queue(p)| >= MaxQueueSizeAsWritten(service.promotions.rows[p].totalStock)
    modifies service.store
    ensures r == Failure(Rejected(PromotionQueueFull))
    ensures service.store.Contents() == old(service.store.Contents())
  {
    PlainRequestIp();
    r := service.JoinPromotion(p, u, PlainRequest, now, timestamp);
  }

  /** A request with no proxy header, from 10.0.0.1. */
  const PlainRequest: HttpRequest := HttpRequest([], "10.0.0.1")

  lemma PlainRequestIp()
    ensures GetClientIpAsWritten(PlainRequest) == Some("10.0.0.1")
  {
    assert forall h :: Header(PlainRequest, h) == None;
    assert ',' !in "10.0.0.1";
  }

  /**
   * A promotion with a stock of 5 holds at most 25 waiting entries: from an empty
   * store, 25 different users join promotion `p` in turn and are queued; the 26th
   * is turned away as QUEUE_FULL and is not left in the joined set.
   */
  method TwentySixthJoinerIsTurnedAway(p: PromotionId)
    returns (r: Result<int, JoinFailure>, joined: bool, queued: nat)
    ensures r == Failure(Rejected(PromotionQueueFull)) && !joined && queued == 25
  {
    var service := FillToCap(p, 50, "0");
    var store := service.store;
    var last := Joiner(25);
    assert last !in store.Joined(p);
    assert MaxQueueSizeAsWritten(5) == 25;
    r := JoinWhenFull(service, p, last, 50, "0");
    joined := last in store.Joined(p);
    queued := |store.Queue(p)|;
  }

  /** A new promotion `p` with a stock of 5, open at `now`, and 25 joiners queued in turn. */
  method FillToCap(p: PromotionId, now: int, timestamp: Timestamp)
    returns (service: PromotionParticipationService)
    requires 0 < now < 100
    ensures fresh(service) && fresh(service.store)
    ensures service.store.Valid() && |service.store.Queue(p)| == 25
    ensures forall x :: x in service.store.Joined(p) ==> |x| <= 25
    ensures p in service.promotions.rows && service.promotions.rows[p].CanParticipate(now)
    ensures service.promotions.rows[p].totalStock == 5
  {
    var promotions := new PromotionRepository();
    var promotion := new Promotion(p, "launch", 0, 100, 5, 1000, Some(Active));
    promotions.Save(promotion);
    var store := new PromotionQueueService();
    service := new PromotionParticipationService(promotions, store);
    JoinInTurn(service, p, now, timestamp, 25);
  }
}
