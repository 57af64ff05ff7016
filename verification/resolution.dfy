/**
 * The resolution worker (PromotionWorker). Once per tick it takes every ACTIVE
 * promotion with a non-empty queue and drains up to BatchSize entries from it. Each
 * entry that splits into at least three ':'-separated parts draws the next value of
 * the promotion's counter as its rank: a rank within the stock wins, with the rank as
 * its position, and a later one loses. The batch of records is saved at the end.
 *
 * Reading the user id out of an entry is the parameter `parse`; when it fails, the
 * source throws: the records built so far are never saved, while the entries taken
 * and the ranks drawn stay consumed, and the tick goes on with the next promotion.
 */
module Resolution {
  import opened Wrappers
  import opened JavaText
  import opened Ids
  import opened Promotions
  import opened Participations
  import opened AdmissionStore

  /** BATCH_SIZE: the most entries one promotion gives up per tick. */
  const BatchSize: nat := 100

  /** An entry the worker does not drop: at least three ':'-separated parts. */
  predicate WellFormedEntry(e: string) {
    |JavaSplit(e, ':')| >= 3
  }

  /** The number of well-formed entries in a run of entries. */
  function WellFormedCount(entries: seq<string>): (n: nat)
    ensures n <= |entries|
  {
    if entries == [] then 0
    else (if WellFormedEntry(entries[0]) then 1 else 0) + WellFormedCount(entries[1..])
  }

  /** The record an entry with rank `rank` turns into: a winner within the stock, a loser beyond it. */
  predicate Ranked(r: PromotionParticipation, rank: int, stock: int) {
    if rank <= stock then r.status == Won && r.queuePosition == Some(rank)
    else r.status == Lost && r.queuePosition == None
  }

  function Min(a: int, b: int): int {
    if a <= b then a else b
  }

  /**
   * The effect of draining one queue: how many entries were taken off, the records
   * built in order, the counter afterwards, and whether a failed parse cut it short.
   */
  datatype DrainResult = DrainResult(consumed: nat, batch: seq<PromotionParticipation>, counter: int, aborted: bool)

  /** `d` after a prefix of `consumed` entries that built `batch`. */
  function Prepend(batch: seq<PromotionParticipation>, consumed: nat, d: DrainResult): DrainResult {
    DrainResult(consumed + d.consumed, batch + d.batch, d.counter, d.aborted)
  }

  /** The records that reach the repository: none when the drain was cut short. */
  function Saved(d: DrainResult): seq<PromotionParticipation> {
    if d.aborted then [] else d.batch
  }

  /** What one tick of the worker works with for one promotion. */
  datatype Job = Job(p: PromotionId, stock: int, now: int, parse: string -> Option<UserId>)

  /** A well-formed entry whose user id does not parse: the source throws on it. */
  predicate ParseFails(e: string, parse: string -> Option<UserId>) {
    WellFormedEntry(e) && parse(JavaSplit(e, ':')[0]).None?
  }

  /** What one dequeued entry turns into. */
  datatype Outcome = Dropped | Failed | Admitted(record: PromotionParticipation)

  /**
   * Records that drew consecutive ranks from `counter + 1` on: each is for the job's
   * promotion, stamped with its time, a winner at its rank within the stock and a
   * loser beyond it.
   */
  predicate RankedFrom(batch: seq<PromotionParticipation>, counter: int, job: Job) {
    forall j :: 0 <= j < |batch| ==>
      batch[j].promotionId == job.p && batch[j].participatedAt == job.now &&
      Ranked(batch[j], counter + 1 + j, job.stock)
  }

  /**
   * One pass of the batch loop on entry `e`, whose rank would be `rank`: a malformed
   * entry is dropped, an entry whose user id does not parse fails, and any other entry
   * becomes the record of its user, address and agent, a winner at position `rank`
   * within the stock and a loser beyond it.
   */
  function Resolve(e: string, rank: int, job: Job): (o: Outcome)
    ensures o.Dropped? <==> !WellFormedEntry(e)
    ensures o.Failed? <==> ParseFails(e, job.parse)
    ensures o.Admitted? ==> RankedFrom([o.record], rank - 1, job)
  {
    var parts := JavaSplit(e, ':');
    if |parts| < 3 then Dropped
    else
      match job.parse(parts[0])
      case None => Failed
      case Some(u) =>
        Admitted(if rank <= job.stock then CreateWinner(job.p, u, parts[1], parts[2], job.now, rank)
                 else CreateLoser(job.p, u, parts[1], parts[2], job.now))
  }

  /** An admitted entry's record names the user its first part parses to, and the entry's address and agent. */
  lemma ResolveCopiesEntry(e: string, rank: int, job: Job)
    requires Resolve(e, rank, job).Admitted?
    ensures var r := Resolve(e, rank, job).record;
      var parts := JavaSplit(e, ':');
      job.parse(parts[0]) == Some(r.userId) && Copies(r, job.p, r.userId, parts[1], parts[2])
  {
  }

  /**
   * The batch loop of `processPromotionQueue` over `window`, the entries within reach
   * of this tick (the first BatchSize of the queue), with the counter at `counter`.
   */
  function Drain(window: seq<string>, counter: int, job: Job): (d: DrainResult)
    ensures d.consumed <= |window|
    ensures d.counter == counter + |d.batch|
  {
    if window == [] then DrainResult(0, [], counter, false)
    else
      match Resolve(window[0], counter + 1, job)
      case Dropped => Prepend([], 1, Drain(window[1..], counter, job))
      case Failed => DrainResult(1, [], counter, true)
      case Admitted(r) => Prepend([r], 1, Drain(window[1..], counter + 1, job))
  }

  /**
   * A drain takes every entry in reach unless an entry's user id does not parse; that
   * entry is then the last one taken.
   */
  lemma {:induction false} DrainStops(window: seq<string>, counter: int, job: Job)
    ensures var d := Drain(window, counter, job);
      (!d.aborted ==> d.consumed == |window|) &&
      (d.aborted ==> 0 < d.consumed && ParseFails(window[d.consumed - 1], job.parse))
  {
    if window != [] {
      var c := if Resolve(window[0], counter + 1, job).Admitted? then counter + 1 else counter;
      var rest := Drain(window[1..], c, job);
      DrainStops(window[1..], c, job);
      if rest.aborted {
        assert window[1 + rest.consumed - 1] == window[1..][rest.consumed - 1];
      }
    }
  }

  /** The records a drain builds drew consecutive ranks, in dequeue order. */
  lemma {:induction false} DrainRanks(window: seq<string>, counter: int, job: Job)
    ensures RankedFrom(Drain(window, counter, job).batch, counter, job)
  {
    if window != [] {
      match Resolve(window[0], counter + 1, job)
      case Dropped =>
        DrainRanks(window[1..], counter, job);
      case Failed =>
      case Admitted(r) =>
        var rest := Drain(window[1..], counter + 1, job);
        DrainRanks(window[1..], counter + 1, job);
        var batch := [r] + rest.batch;
        assert forall j :: 1 <= j < |batch| ==> batch[j] == rest.batch[j - 1];
    }
  }

  /**
   * One record for every well-formed entry taken off, except the entry whose parse
   * failed: malformed entries are dropped without drawing a rank.
   */
  lemma {:induction false} DrainCounts(window: seq<string>, counter: int, job: Job)
    ensures var d := Drain(window, counter, job);
      |d.batch| == WellFormedCount(window[..d.consumed]) - (if d.aborted then 1 else 0)
  {
    if window != [] {
      var o := Resolve(window[0], counter + 1, job);
      var d := Drain(window, counter, job);
      if o.Failed? {
        assert d == DrainResult(1, [], counter, true);
        WellFormedCountFront(window, 0);
        assert window[1..][..0] == [];
        assert WellFormedCount(window[..1]) == 1;
      } else {
        var admitted := if o.Admitted? then 1 else 0;
        var c := counter + admitted;
        var rest := Drain(window[1..], c, job);
        assert d == Prepend(if o.Admitted? then [o.record] else [], 1, rest);
        assert d.consumed == 1 + rest.consumed && |d.batch| == admitted + |rest.batch| && d.aborted == rest.aborted;
        DrainCounts(window[1..], c, job);
        WellFormedCountFront(window, rest.consumed);
        assert (if WellFormedEntry(window[0]) then 1 else 0) == admitted;
        assert window[..d.consumed] == window[..1 + rest.consumed];
      }
    } else {
      assert window[..0] == [];
    }
  }

  lemma WellFormedCountFront(entries: seq<string>, k: nat)
    requires k < |entries|
    ensures WellFormedCount(entries[..1 + k]) ==
      (if WellFormedEntry(entries[0]) then 1 else 0) + WellFormedCount(entries[1..][..k])
  {
    assert entries[..1 + k][1..] == entries[1..][..k];
  }

  /** How a drain from position `i` of the window begins, by what entry `i` turns into. */
  lemma DrainFrom(w: seq<string>, i: nat, counter: int, job: Job)
    requires i < |w|
    ensures var o := Resolve(w[i], counter + 1, job);
      Drain(w[i..], counter, job) ==
        match o
        case Dropped => Prepend([], 1, Drain(w[i + 1..], counter, job))
        case Failed => DrainResult(1, [], counter, true)
        case Admitted(r) => Prepend([r], 1, Drain(w[i + 1..], counter + 1, job))
  {
    assert w[i..][0] == w[i] && w[i..][1..] == w[i + 1..];
  }

  /** One more entry of the window taken, as the batch loop takes it. */
  lemma Advance(d0: DrainResult, batch: seq<PromotionParticipation>, i: nat, w: seq<string>, c: int,
                job: Job, o: Outcome)
    requires i < |w| && d0 == Prepend(batch, i, Drain(w[i..], c, job))
    requires o == Resolve(w[i], c + 1, job)
    ensures o.Failed? ==> d0 == DrainResult(i + 1, batch, c, true)
    ensures o.Dropped? ==> d0 == Prepend(batch, i + 1, Drain(w[i + 1..], c, job))
    ensures o.Admitted? ==> d0 == Prepend(batch + [o.record], i + 1, Drain(w[i + 1..], c + 1, job))
  {
    DrainFrom(w, i, c, job);
    match o {
      case Dropped =>
        PrependTwice(batch, i, [], 1, Drain(w[i + 1..], c, job));
        assert batch + [] == batch;
      case Failed =>
        assert batch + [] == batch;
      case Admitted(r) =>
        PrependTwice(batch, i, [r], 1, Drain(w[i + 1..], c + 1, job));
    }
  }

  lemma PrependTwice(a: seq<PromotionParticipation>, m: nat, b: seq<PromotionParticipation>, n: nat, d: DrainResult)
    ensures Prepend(a, m, Prepend(b, n, d)) == Prepend(a + b, m + n, d)
  {
    assert a + (b + d.batch) == (a + b) + d.batch;
  }

  /** The entries one tick can reach: the first BatchSize of the queue. */
  function Window(q: seq<string>): (w: seq<string>)
    ensures |w| <= BatchSize && |w| <= |q| && w == q[..|w|]
    ensures |w| == Min(BatchSize, |q|)
    ensures |q| <= BatchSize ==> w == q
  {
    q[..Min(BatchSize, |q|)]
  }

  /** The counters after promotion `p`'s counter moved from `c0` to `c` by INCRs (untouched when it did not move). */
  function Bumped(counters: Counters, p: PromotionId, c0: int, c: int): Counters {
    if c == c0 then counters else WithCounter(counters, p, c)
  }

  /** One more INCR on a counter that has only gone up. */
  lemma BumpedStep(counters: Counters, p: PromotionId, c0: int, c: int)
    requires c0 == WinnerCountOf(counters, p) && c0 <= c
    ensures WinnerCountOf(Bumped(counters, p, c0, c), p) == c
    ensures WithCounter(Bumped(counters, p, c0, c), p, c + 1) == Bumped(counters, p, c0, c + 1)
  {
    if c != c0 {
      WithCounterTwice(counters, p, c, c + 1);
    }
  }

  /**
   * The batch loop's result: the batch is the drain's records, it completed unless a
   * parse failed, the consumed entries are off the queue and the counter moved by the
   * ranks drawn.
   */
  ghost predicate Drained(job: Job, lists0: Lists, counters0: Counters, lists: Lists, counters: Counters,
                          batch: seq<PromotionParticipation>, completed: bool)
  {
    var q0 := QueueOf(lists0, job.p);
    var c0 := WinnerCountOf(counters0, job.p);
    var d := Drain(Window(q0), c0, job);
    batch == d.batch && completed == !d.aborted &&
    lists == WithQueue(lists0, job.p, q0[d.consumed..]) &&
    counters == Bumped(counters0, job.p, c0, d.counter)
  }

  /**
   * The batch loop after `i` dequeues that built `batch` and moved the counter to
   * `count`: the rest of the drain is the drain of the rest of the window.
   */
  ghost predicate BatchState(job: Job, lists0: Lists, counters0: Counters, lists: Lists, counters: Counters,
                             i: nat, batch: seq<PromotionParticipation>, count: int)
  {
    var q0 := QueueOf(lists0, job.p);
    var w := Window(q0);
    var c0 := WinnerCountOf(counters0, job.p);
    i <= |w| && c0 <= count &&
    lists == WithQueue(lists0, job.p, q0[i..]) &&
    counters == Bumped(counters0, job.p, c0, count) &&
    Drain(w, c0, job) == Prepend(batch, i, Drain(w[i..], count, job))
  }

  /**
   * One pass of the batch loop as a change of state: nothing from an empty queue;
   * otherwise the front entry is off the queue, resolved with the next rank, and the
   * counter went up exactly when the entry was admitted.
   */
  ghost predicate Dequeued(job: Job, lists: Lists, counters: Counters, lists': Lists, counters': Counters,
                           outcome: Option<Outcome>)
  {
    var q := QueueOf(lists, job.p);
    var c := WinnerCountOf(counters, job.p);
    if q == [] then
      outcome == None && lists' == lists && counters' == counters
    else
      outcome == Some(Resolve(q[0], c + 1, job)) &&
      lists' == WithQueue(lists, job.p, q[1..]) &&
      counters' == if outcome.value.Admitted? then WithCounter(counters, job.p, c + 1) else counters
  }

  lemma BatchStart(job: Job, lists0: Lists, counters0: Counters)
    requires forall k :: k in lists0 ==> lists0[k] != []
    ensures BatchState(job, lists0, counters0, lists0, counters0, 0, [], WinnerCountOf(counters0, job.p))
  {
    WithQueueOwn(lists0, job.p);
    var w := Window(QueueOf(lists0, job.p));
    assert w[0..] == w;
  }

  /** One dequeue that did not run into an empty queue, as NextEntry reports it. */
  lemma BatchNext(job: Job, lists0: Lists, counters0: Counters, lists: Lists, counters: Counters,
                  i: nat, batch: seq<PromotionParticipation>, count: int,
                  lists': Lists, counters': Counters, o: Outcome)
    requires BatchState(job, lists0, counters0, lists, counters, i, batch, count)
    requires i < BatchSize
    requires Dequeued(job, lists, counters, lists', counters', Some(o))
    ensures o.Failed? ==> Drained(job, lists0, counters0, lists', counters', batch, false)
    ensures o.Dropped? ==> BatchState(job, lists0, counters0, lists', counters', i + 1, batch, count)
    ensures o.Admitted? ==>
      BatchState(job, lists0, counters0, lists', counters', i + 1, batch + [o.record], count + 1)
  {
    var q0 := QueueOf(lists0, job.p);
    var w := Window(q0);
    var c0 := WinnerCountOf(counters0, job.p);
    assert QueueOf(lists, job.p) == q0[i..];
    assert q0[i..][1..] == q0[i + 1..];
    assert i < |w| && w[i] == q0[i..][0];
    WithQueueTwice(lists0, job.p, q0[i..], q0[i + 1..]);
    BumpedStep(counters0, job.p, c0, count);
    assert o == Resolve(w[i], count + 1, job);
    Advance(Drain(w, c0, job), batch, i, w, count, job, o);
  }

  /** The loop ran out of window: everything in reach was taken without a failed parse. */
  lemma BatchEnd(job: Job, lists0: Lists, counters0: Counters, lists: Lists, counters: Counters,
                 i: nat, batch: seq<PromotionParticipation>, count: int)
    requires BatchState(job, lists0, counters0, lists, counters, i, batch, count)
    requires i >= BatchSize || QueueOf(lists, job.p) == []
    ensures Drained(job, lists0, counters0, lists, counters, batch, true)
  {
    var w := Window(QueueOf(lists0, job.p));
    assert w[i..] == [];
    assert batch + [] == batch;
  }

  /** The state the worker reads and writes: the queues, the counters and the saved records. */
  datatype Board = Board(lists: Lists, counters: Counters, records: seq<PromotionParticipation>)

  /** One `processPromotionQueue` on promotion `p`, whose stock is `stock`. */
  function Tick(b: Board, p: PromotionId, stock: int, now: int, parse: string -> Option<UserId>): Board {
    var q := QueueOf(b.lists, p);
    var d := Drain(Window(q), WinnerCountOf(b.counters, p), Job(p, stock, now, parse));
    Board(WithQueue(b.lists, p, q[d.consumed..]),
          Bumped(b.counters, p, WinnerCountOf(b.counters, p), d.counter),
          b.records + Saved(d))
  }

  /** What `processQueue` does for one listed promotion (id and stock): nothing when its queue is empty. */
  function Visit(b: Board, target: (PromotionId, int), now: int, parse: string -> Option<UserId>): Board {
    if QueueOf(b.lists, target.0) != [] then Tick(b, target.0, target.1, now, parse) else b
  }

  /** One `processQueue` over the listed promotions, in order. */
  function TickEach(b: Board, targets: seq<(PromotionId, int)>, now: int, parse: string -> Option<UserId>): Board
    decreases |targets|
  {
    if targets == [] then b else TickEach(Visit(b, targets[0], now, parse), targets[1..], now, parse)
  }

  lemma TickEachFrom(b: Board, targets: seq<(PromotionId, int)>, i: nat, now: int, parse: string -> Option<UserId>)
    requires i < |targets|
    ensures TickEach(b, targets[i..], now, parse) == TickEach(Visit(b, targets[i], now, parse), targets[i + 1..], now, parse)
  {
    assert targets[i..][0] == targets[i] && targets[i..][1..] == targets[i + 1..];
  }

  /** The promotions `processQueue` visits: the ACTIVE ones, each with its stock. */
  function Targets(active: seq<Promotion>): (t: seq<(PromotionId, int)>)
    ensures |t| == |active|
    ensures forall i :: 0 <= i < |active| ==> t[i] == (active[i].id, active[i].totalStock as int)
  {
    if active == [] then [] else [(active[0].id, active[0].totalStock as int)] + Targets(active[1..])
  }

  class PromotionWorker {
    const store: PromotionQueueService
    const promotions: PromotionRepository
    const participations: ParticipationRepository

    constructor (store: PromotionQueueService, promotions: PromotionRepository, participations: ParticipationRepository)
      ensures this.store == store && this.promotions == promotions && this.participations == participations
    {
      this.store := store;
      this.promotions := promotions;
      this.participations := participations;
    }

    function Current(): Board
      reads store, participations
    {
      Board(store.lists, store.counters, participations.records)
    }

    /**
     * `processPromotionQueue`: an unknown promotion is left alone before anything is
     * dequeued; otherwise the queue, the counter and the records move as Tick says,
     * and the joined sets are never touched.
     */
    method ProcessPromotionQueue(promotionId: PromotionId, now: int, parse: string -> Option<UserId>)
      requires store.Valid()
      modifies store, participations
      ensures store.Valid() && store.sets == old(store.sets)
      ensures promotionId !in promotions.rows ==> Current() == old(Current())
      ensures promotionId in promotions.rows ==>
        Current() == Tick(old(Current()), promotionId, promotions.rows[promotionId].totalStock, now, parse)
    {
      var found := promotions.FindById(promotionId);
      if found.None? {
        return;
      }
      var promotion := found.value;
      var job := Job(promotionId, promotion.totalStock, now, parse);
      var batch, completed := DrainBatch(job);
      if completed && batch != [] {
        participations.SaveAll(batch);
      }
    }

    /**
     * The batch loop of `processPromotionQueue`: up to BatchSize dequeues, each entry
     * resolved by TakeEntry. `completed` is false when an entry's user id did not
     * parse, which in the source is an exception that skips the save.
     */
    method DrainBatch(job: Job) returns (batch: seq<PromotionParticipation>, completed: bool)
      requires store.Valid()
      modifies store
      ensures store.Valid() && store.sets == old(store.sets)
      ensures Drained(job, old(store.lists), old(store.counters), store.lists, store.counters, batch, completed)
    {
      ghost var lists0, counters0 := store.lists, store.counters;
      BatchStart(job, lists0, counters0);
      batch := [];
      var i := 0;
      ghost var count := WinnerCountOf(counters0, job.p);
      while i < BatchSize
        invariant store.Valid() && store.sets == old(store.sets)
        invariant BatchState(job, lists0, counters0, store.lists, store.counters, i, batch, count)
      {
        ghost var lists, counters := store.lists, store.counters;
        var outcome := NextEntry(job);
        if outcome.None? {
          break;
        }
        BatchNext(job, lists0, counters0, lists, counters, i, batch, count, store.lists, store.counters, outcome.value);
        match outcome.value {
          case Dropped =>
          case Failed =>
            return batch, false;
          case Admitted(participation) =>
            batch := batch + [participation];
            count := count + 1;
        }
        i := i + 1;
      }
      BatchEnd(job, lists0, counters0, store.lists, store.counters, i, batch, count);
      completed := true;
    }

    /**
     * One pass of the batch loop: LPOP the front entry (None from an empty queue, on
     * which the loop stops) and resolve it with TakeEntry.
     */
    method NextEntry(job: Job) returns (outcome: Option<Outcome>)
      requires store.Valid()
      modifies store
      ensures store.Valid() && store.sets == old(store.sets)
      ensures Dequeued(job, old(store.lists), old(store.counters), store.lists, store.counters, outcome)
    {
      var queueData := store.Dequeue(job.p);
      if queueData.None? {
        return None;
      }
      var taken := TakeEntry(queueData.value, job);
      outcome := Some(taken);
    }

    /**
     * One pass of the batch loop on a dequeued entry: split it on ':', drop it when it
     * has fewer than three parts, stop when its user id does not parse, and otherwise
     * draw the next rank with INCR and build the record for that rank.
     */
    method TakeEntry(queueData: string, job: Job) returns (outcome: Outcome)
      requires store.Valid()
      modifies store
      ensures store.Valid() && store.lists == old(store.lists) && store.sets == old(store.sets)
      ensures outcome == Resolve(queueData, WinnerCountOf(old(store.counters), job.p) + 1, job)
      ensures store.counters ==
        if outcome.Admitted? then WithCounter(old(store.counters), job.p, WinnerCountOf(old(store.counters), job.p) + 1)
        else old(store.counters)
    {
      var parts := JavaSplit(queueData, ':');
      if |parts| < 3 {
        return Dropped;
      }

      var parsed := job.parse(parts[0]);
      if parsed.None? {
        return Failed;
      }
      var userId := parsed.value;
      var ipAddress := parts[1];
      var userAgent := parts[2];

      var winnerCount := store.IncrementWinnerCount(job.p);
      var participation;
      if winnerCount <= job.stock {
        participation := CreateWinner(job.p, userId, ipAddress, userAgent, job.now, winnerCount);
      } else {
        participation := CreateLoser(job.p, userId, ipAddress, userAgent, job.now);
      }
      outcome := Admitted(participation);
    }

    /** One promotion of `processQueue`: LLEN, then `processPromotionQueue` when the queue is not empty. */
    method VisitPromotion(promotion: Promotion, now: int, parse: string -> Option<UserId>)
      requires store.Valid() && promotion.id in promotions.rows && promotions.rows[promotion.id] == promotion
      modifies store, participations
      ensures store.Valid() && store.sets == old(store.sets)
      ensures Current() == Visit(old(Current()), (promotion.id, promotion.totalStock as int), now, parse)
    {
      var queueSize := store.GetQueueSize(promotion.id);
      if queueSize > 0 {
        ProcessPromotionQueue(promotion.id, now, parse);
      }
    }

    /**
     * `processQueue`: every ACTIVE promotion, in listing order, whose queue is not
     * empty gets one `processPromotionQueue`; a failure in one does not stop the rest.
     */
    method ProcessQueue(now: int, parse: string -> Option<UserId>)
      requires store.Valid() && promotions.Valid()
      modifies store, participations
      ensures store.Valid() && store.sets == old(store.sets)
      ensures Current() == TickEach(old(Current()), Targets(promotions.FindByStatus(Active)), now, parse)
    {
      var activePromotions := promotions.FindByStatus(Active);
      ghost var targets := Targets(activePromotions);
      if activePromotions == [] {
        return;
      }

      var i := 0;
      while i < |activePromotions|
        invariant 0 <= i <= |activePromotions|
        invariant store.Valid() && store.sets == old(store.sets)
        invariant TickEach(old(Current()), targets, now, parse) == TickEach(Current(), targets[i..], now, parse)
      {
        TickEachFrom(Current(), targets, i, now, parse);
        VisitPromotion(activePromotions[i], now, parse);
        i := i + 1;
      }
    }
  }
}
