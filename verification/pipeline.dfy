/**
 * The admission pipeline end to end: joins fill each promotion's queue, the worker
 * turns queue entries into records, and the whole state keeps one invariant. Per
 * promotion the counter equals the number of records; the records hold ranks 1, 2, …
 * in saving order, WON within the stock and LOST beyond it; the users already
 * resolved followed by the users still waiting form one line without repeats, all
 * of them in the joined set.
 *
 * The invariant needs the worker's parse to read back every user id the join wrote
 * (ReadsBack). Without that, an entry's parse fails, the ranks drawn before it are
 * never saved, and the counter runs ahead of the records. What survives any parse is
 * the weaker Sound: WON records hold strictly increasing positions within the stock
 * and the counter, so no promotion ever has more winners than its stock.
 */
module Pipeline {
  import opened Wrappers
  import opened JavaText
  import opened Ids
  import opened Participations
  import opened AdmissionStore
  import opened Admission
  import opened Resolution

  /** The user an entry belongs to: the text before its first ':'. */
  function EntryUser(e: string): string {
    TextBefore(e, ':')
  }

  /** An entry as joins write it: at least three parts, the first of them a user id. */
  predicate GoodEntry(e: string) {
    WellFormedEntry(e) && IsUserIdText(EntryUser(e))
  }

  /** The users of some entries, in queue order. */
  function EntryUsers(q: seq<string>): (users: seq<string>)
    ensures |users| == |q|
    ensures forall i :: 0 <= i < |q| ==> users[i] == EntryUser(q[i])
  {
    if q == [] then [] else [EntryUser(q[0])] + EntryUsers(q[1..])
  }

  lemma EntryUsersAppend(a: seq<string>, b: seq<string>)
    ensures EntryUsers(a + b) == EntryUsers(a) + EntryUsers(b)
  {
    assert forall i :: 0 <= i < |a + b| ==> EntryUsers(a + b)[i] == (EntryUsers(a) + EntryUsers(b))[i];
  }

  predicate Distinct(xs: seq<string>) {
    forall i, j :: 0 <= i < j < |xs| ==> xs[i] != xs[j]
  }

  /** The worker's parse gives back every user id as it was written. */
  ghost predicate ReadsBack(parse: string -> Option<UserId>) {
    forall u :: IsUserIdText(u) ==> parse(u) == Some(u)
  }

  /** The state the pipeline works on: the admission keyspace and the saved records. */
  datatype State = State(lists: Lists, sets: Sets, counters: Counters, records: seq<PromotionParticipation>)

  function BoardOf(s: State): Board {
    Board(s.lists, s.counters, s.records)
  }

  function WithBoard(s: State, b: Board): State {
    State(b.lists, s.sets, b.counters, b.records)
  }

  /** The stock of every known promotion; the stock never changes once a promotion is built. */
  type Stocks = map<PromotionId, int>

  function StockOf(stocks: Stocks, p: PromotionId): int {
    if p in stocks then stocks[p] else 0
  }

  /** Records that hold ranks 1, 2, … in saving order. */
  predicate RankedInOrder(records: seq<PromotionParticipation>, stock: int) {
    forall i :: 0 <= i < |records| ==> Ranked(records[i], i + 1, stock)
  }

  /** Everyone in line for a promotion: the users already resolved, then those still waiting. */
  function Line(records: seq<PromotionParticipation>, q: seq<string>): seq<string> {
    UsersOf(records) + EntryUsers(q)
  }

  /**
   * The invariant of one promotion, on its queue, its records, its counter and its
   * joined set. A promotion that does not exist (`known` false) has neither queue nor
   * records.
   */
  predicate LineConsistent(q: seq<string>, records: seq<PromotionParticipation>, count: int,
                           joined: set<string>, stock: int, known: bool)
  {
    count == |records| &&
    RankedInOrder(records, stock) &&
    GoodEntries(q) &&
    InLine(Line(records, q), joined) &&
    (!known ==> records == [] && q == [])
  }

  /** Every entry of the queue is as joins write it. */
  predicate GoodEntries(q: seq<string>) {
    forall i :: 0 <= i < |q| ==> GoodEntry(q[i])
  }

  /** A line without repeats, all of it in the joined set. */
  predicate InLine(line: seq<string>, joined: set<string>) {
    Distinct(line) && forall i :: 0 <= i < |line| ==> line[i] in joined
  }

  predicate PromotionConsistent(s: State, stocks: Stocks, p: PromotionId) {
    LineConsistent(QueueOf(s.lists, p), RecordsOf(s.records, p), WinnerCountOf(s.counters, p),
                   JoinedOf(s.sets, p), StockOf(stocks, p), p in stocks)
  }

  ghost predicate Consistent(s: State, stocks: Stocks) {
    forall p :: PromotionConsistent(s, stocks, p)
  }

  /** The empty system, before any promotion exists. */
  lemma InitiallyConsistent()
    ensures Consistent(State(map[], map[], map[], []), map[])
  {
    var s := State(map[], map[], map[], []);
    forall p ensures PromotionConsistent(s, map[], p) {
      assert RecordsOf([], p) == [];
    }
  }

  /** `createPromotion` adds a fresh id with its stock; nothing else changes. */
  lemma CreateKeepsConsistent(s: State, stocks: Stocks, id: PromotionId, stock: int)
    requires Consistent(s, stocks) && id !in stocks
    ensures Consistent(s, stocks[id := stock])
  {
    var stocks' := stocks[id := stock];
    forall p ensures PromotionConsistent(s, stocks', p) {
      assert PromotionConsistent(s, stocks, p);
    }
  }

  // ---- joins ----

  /** The state after a successful join of `u` to `p` with queue entry `entry`. */
  function AfterJoin(s: State, p: PromotionId, u: UserId, entry: string): State {
    State(WithQueue(s.lists, p, QueueOf(s.lists, p) + [entry]),
          WithJoined(s.sets, p, JoinedOf(s.sets, p) + {u}),
          s.counters, s.records)
  }

  /**
   * A successful join keeps the invariant: the user was not in the joined set, so
   * not in line either, and the entry it appends reads back as that user.
   */
  lemma JoinKeepsConsistent(s: State, stocks: Stocks, p: PromotionId, u: UserId,
                            ip: string, userAgent: Option<string>, timestamp: Timestamp)
    requires Consistent(s, stocks) && p in stocks && u !in JoinedOf(s.sets, p)
    ensures Consistent(AfterJoin(s, p, u, QueueEntry(u, ip, userAgent, timestamp)), stocks)
  {
    var entry := QueueEntry(u, ip, userAgent, timestamp);
    var s' := AfterJoin(s, p, u, entry);
    forall o ensures PromotionConsistent(s', stocks, o) {
      assert PromotionConsistent(s, stocks, o);
      if o == p {
        QueueEntryShape(u, ip, userAgent, timestamp);
        JoinKeepsLine(QueueOf(s.lists, p), RecordsOf(s.records, p), WinnerCountOf(s.counters, p),
                      JoinedOf(s.sets, p), stocks[p], u, entry);
      }
    }
  }

  lemma JoinKeepsLine(q: seq<string>, records: seq<PromotionParticipation>, count: int,
                      joined: set<string>, stock: int, u: UserId, entry: string)
    requires LineConsistent(q, records, count, joined, stock, true) && u !in joined
    requires GoodEntry(entry) && EntryUser(entry) == u
    ensures LineConsistent(q + [entry], records, count, joined + {u}, stock, true)
  {
    var line := Line(records, q);
    EntryUsersAppend(q, [entry]);
    var line' := Line(records, q + [entry]);
    assert line' == line + [u];
    assert u !in line by {
      forall i | 0 <= i < |line| ensures line[i] != u {
        assert line[i] in joined;
      }
    }
    assert Distinct(line') by {
      forall i, j | 0 <= i < j < |line'| ensures line'[i] != line'[j] {
        if j < |line| {
          assert line'[i] == line[i] && line'[j] == line[j];
        } else {
          assert line'[i] == line[i];
        }
      }
    }
    forall i | 0 <= i < |line'| ensures line'[i] in joined + {u} {
      if i < |line| {
        assert line'[i] == line[i];
      }
    }
    forall i | 0 <= i < |q + [entry]| ensures GoodEntry((q + [entry])[i]) {
      if i < |q| {
        assert (q + [entry])[i] == q[i];
      }
    }
  }

  // ---- the worker ----

  /**
   * Entries as joins write them, with a parse that reads their users back: a drain
   * admits every entry in reach, and its records are for those users, in order.
   */
  lemma {:induction false} DrainAdmitsEveryone(w: seq<string>, counter: int, job: Job)
    requires GoodEntries(w)
    requires ReadsBack(job.parse)
    ensures var d := Drain(w, counter, job);
      d.consumed == |w| && !d.aborted && UsersOf(d.batch) == EntryUsers(w)
  {
    if w != [] {
      var e := w[0];
      var parts := JavaSplit(e, ':');
      FirstPartIsTextBefore(e, ':');
      assert job.parse(parts[0]) == Some(parts[0]);
      var o := Resolve(e, counter + 1, job);
      ResolveCopiesEntry(e, counter + 1, job);
      assert o.record.userId == EntryUser(e);
      var rest := Drain(w[1..], counter + 1, job);
      DrainAdmitsEveryone(w[1..], counter + 1, job);
      UsersOfAppend([o.record], rest.batch);
    }
  }

  /** Records ranked from `|records| + 1` on, appended, keep ranks 1, 2, … in order. */
  lemma RankedAppend(records: seq<PromotionParticipation>, batch: seq<PromotionParticipation>, job: Job)
    requires RankedInOrder(records, job.stock) && RankedFrom(batch, |records|, job)
    ensures RankedInOrder(records + batch, job.stock)
  {
    var records' := records + batch;
    forall i | 0 <= i < |records'| ensures Ranked(records'[i], i + 1, job.stock) {
      if i >= |records| {
        assert records'[i] == batch[i - |records|];
      }
    }
  }

  /** Moving the users at the head of the queue to the records, in order, leaves the line as it was. */
  lemma LineAfterTake(taken: seq<string>, rest: seq<string>, records: seq<PromotionParticipation>,
                      batch: seq<PromotionParticipation>)
    requires UsersOf(batch) == EntryUsers(taken)
    ensures Line(records + batch, rest) == Line(records, taken + rest)
  {
    UsersOfAppend(records, batch);
    EntryUsersAppend(taken, rest);
    ConcatAssoc(UsersOf(records), UsersOf(batch), EntryUsers(rest));
  }

  lemma TakeDrop(q: seq<string>, n: nat)
    requires n <= |q|
    ensures q == q[..n] + q[n..]
  {
  }

  lemma GoodEntriesPrefix(taken: seq<string>, rest: seq<string>)
    requires GoodEntries(taken + rest)
    ensures GoodEntries(taken)
  {
    forall i | 0 <= i < |taken| ensures GoodEntry(taken[i]) {
      assert taken[i] == (taken + rest)[i];
    }
  }

  lemma GoodEntriesSuffix(taken: seq<string>, rest: seq<string>)
    requires GoodEntries(taken + rest)
    ensures GoodEntries(rest)
  {
    forall i | 0 <= i < |rest| ensures GoodEntry(rest[i]) {
      assert rest[i] == (taken + rest)[|taken| + i];
    }
  }

  /**
   * Taking the entries at the head of the queue and appending their records, ranked
   * from the next rank on, keeps the line and the ranking.
   */
  lemma TakeKeepsLine(taken: seq<string>, rest: seq<string>, records: seq<PromotionParticipation>,
                      joined: set<string>, batch: seq<PromotionParticipation>, job: Job)
    requires LineConsistent(taken + rest, records, |records|, joined, job.stock, true)
    requires UsersOf(batch) == EntryUsers(taken) && RankedFrom(batch, |records|, job)
    ensures LineConsistent(rest, records + batch, |records| + |batch|, joined, job.stock, true)
  {
    RankedAppend(records, batch, job);
    LineAfterTake(taken, rest, records, batch);
    GoodEntriesSuffix(taken, rest);
  }

  /** The worker's tick on `p` in terms of the state. */
  function TickState(s: State, p: PromotionId, stock: int, now: int, parse: string -> Option<UserId>): State {
    WithBoard(s, Tick(BoardOf(s), p, stock, now, parse))
  }

  /** Two states that agree on everything promotion `o` has agree on its invariant. */
  lemma SameViews(s: State, s': State, stocks: Stocks, o: PromotionId)
    requires PromotionConsistent(s, stocks, o)
    requires QueueOf(s'.lists, o) == QueueOf(s.lists, o) && JoinedOf(s'.sets, o) == JoinedOf(s.sets, o)
    requires WinnerCountOf(s'.counters, o) == WinnerCountOf(s.counters, o)
    requires RecordsOf(s'.records, o) == RecordsOf(s.records, o)
    ensures PromotionConsistent(s', stocks, o)
  {
  }

  /** A tick on `p` leaves every other promotion as it was. */
  lemma TickKeepsOther(s: State, stocks: Stocks, p: PromotionId, stock: int, now: int,
                       parse: string -> Option<UserId>, o: PromotionId)
    requires o != p && PromotionConsistent(s, stocks, o)
    ensures PromotionConsistent(TickState(s, p, stock, now, parse), stocks, o)
  {
    var s' := TickState(s, p, stock, now, parse);
    var c := WinnerCountOf(s.counters, p);
    var job := Job(p, stock, now, parse);
    var d := Drain(Window(QueueOf(s.lists, p)), c, job);
    DrainRanks(Window(QueueOf(s.lists, p)), c, job);
    RecordsOfAppend(s.records, Saved(d), o);
    RecordsOfOwnBatch(Saved(d), p, o);
    assert WinnerCountOf(s'.counters, o) == WinnerCountOf(s.counters, o);
    SameViews(s, s', stocks, o);
  }

  /**
   * What a tick that does not abort leaves for its own promotion: the rest of the
   * queue, the records with the batch appended, the counter moved past the batch.
   */
  lemma TickViews(s: State, p: PromotionId, stock: int, now: int, parse: string -> Option<UserId>)
    requires var q := QueueOf(s.lists, p);
      !Drain(Window(q), WinnerCountOf(s.counters, p), Job(p, stock, now, parse)).aborted
    ensures var s' := TickState(s, p, stock, now, parse);
      var q := QueueOf(s.lists, p);
      var c := WinnerCountOf(s.counters, p);
      var d := Drain(Window(q), c, Job(p, stock, now, parse));
      QueueOf(s'.lists, p) == q[d.consumed..] &&
      RecordsOf(s'.records, p) == RecordsOf(s.records, p) + d.batch &&
      WinnerCountOf(s'.counters, p) == c + |d.batch| &&
      JoinedOf(s'.sets, p) == JoinedOf(s.sets, p)
  {
    var q := QueueOf(s.lists, p);
    var c := WinnerCountOf(s.counters, p);
    var job := Job(p, stock, now, parse);
    var d := Drain(Window(q), c, job);
    DrainRanks(Window(q), c, job);
    RecordsOfAppend(s.records, d.batch, p);
    RecordsOfOwnBatch(d.batch, p, p);
    BumpedStep(s.counters, p, c, d.counter);
  }

  /**
   * A tick on a known promotion keeps its invariant: the entries it takes become
   * records with the next ranks, and the line stays the same line.
   */
  lemma TickKeepsOwn(s: State, stocks: Stocks, p: PromotionId, now: int, parse: string -> Option<UserId>)
    requires PromotionConsistent(s, stocks, p) && p in stocks && ReadsBack(parse)
    ensures PromotionConsistent(TickState(s, p, stocks[p], now, parse), stocks, p)
  {
    var q := QueueOf(s.lists, p);
    var records := RecordsOf(s.records, p);
    var c := WinnerCountOf(s.counters, p);
    var job := Job(p, stocks[p], now, parse);
    var w := Window(q);
    var rest := q[|w|..];
    TakeDrop(q, |w|);
    GoodEntriesPrefix(w, rest);
    DrainAdmitsEveryone(w, c, job);
    DrainRanks(w, c, job);
    TickViews(s, p, stocks[p], now, parse);
    TakeKeepsLine(w, rest, records, JoinedOf(s.sets, p), Drain(w, c, job).batch, job);
  }

  /** A tick on a known promotion keeps the invariant of the whole state. */
  lemma TickKeepsConsistent(s: State, stocks: Stocks, p: PromotionId, now: int, parse: string -> Option<UserId>)
    requires Consistent(s, stocks) && p in stocks && ReadsBack(parse)
    ensures Consistent(TickState(s, p, stocks[p], now, parse), stocks)
  {
    var s' := TickState(s, p, stocks[p], now, parse);
    forall o ensures PromotionConsistent(s', stocks, o) {
      assert PromotionConsistent(s, stocks, o);
      if o == p {
        TickKeepsOwn(s, stocks, p, now, parse);
      } else {
        TickKeepsOther(s, stocks, p, stocks[p], now, parse, o);
      }
    }
  }

  /** The targets of one `processQueue` are known promotions, each with its own stock. */
  predicate KnownTargets(stocks: Stocks, targets: seq<(PromotionId, int)>) {
    forall i :: 0 <= i < |targets| ==> targets[i].0 in stocks && stocks[targets[i].0] == targets[i].1
  }

  /** A whole `processQueue` keeps the invariant. */
  lemma {:induction false} TickEachKeepsConsistent(s: State, stocks: Stocks, targets: seq<(PromotionId, int)>,
                                                   now: int, parse: string -> Option<UserId>)
    requires Consistent(s, stocks) && KnownTargets(stocks, targets) && ReadsBack(parse)
    ensures Consistent(WithBoard(s, TickEach(BoardOf(s), targets, now, parse)), stocks)
    decreases |targets|
  {
    if targets != [] {
      var t := targets[0];
      var s1 := WithBoard(s, Visit(BoardOf(s), t, now, parse));
      if QueueOf(s.lists, t.0) != [] {
        TickKeepsConsistent(s, stocks, t.0, now, parse);
      }
      assert BoardOf(s1) == Visit(BoardOf(s), t, now, parse);
      assert KnownTargets(stocks, targets[1..]) by {
        forall i | 0 <= i < |targets[1..]| ensures targets[1..][i] == targets[i + 1] { }
      }
      TickEachKeepsConsistent(s1, stocks, targets[1..], now, parse);
    }
  }

  // ---- what the invariant gives ----

  function Clamp(x: int, n: nat): (r: nat)
    ensures r <= n
  {
    if x < 0 then 0 else if x > n then n else x
  }

  /** Records ranked from `c + 1` on: the winners are a prefix, as long as the stock left allows. */
  lemma {:induction false} RankedWinnersArePrefix(records: seq<PromotionParticipation>, c: int, stock: int)
    requires forall i :: 0 <= i < |records| ==> Ranked(records[i], c + i + 1, stock)
    ensures WithStatus(records, Won) == records[..Clamp(stock - c, |records|)]
  {
    if records != [] {
      var rest := records[1..];
      assert forall i :: 0 <= i < |rest| ==> Ranked(rest[i], (c + 1) + i + 1, stock) by {
        forall i | 0 <= i < |rest| ensures Ranked(rest[i], (c + 1) + i + 1, stock) {
          assert rest[i] == records[i + 1];
        }
      }
      RankedWinnersArePrefix(rest, c + 1, stock);
      assert Ranked(records[0], c + 1, stock);
      if c + 1 <= stock {
        var k := Clamp(stock - c, |records|);
        assert 1 <= k && Clamp(stock - (c + 1), |rest|) == k - 1;
        PrefixCons(records, k);
      }
    }
  }

  lemma PrefixCons(xs: seq<PromotionParticipation>, k: nat)
    requires 1 <= k <= |xs|
    ensures xs[..k] == [xs[0]] + xs[1..][..k - 1]
  {
  }

  /**
   * In a consistent state the winners of a promotion are its first records, as many
   * as the stock allows and never more, and they hold positions 1, 2, … in order:
   * distinct, strictly increasing and without gaps.
   */
  lemma WinnersWithinStock(s: State, stocks: Stocks, p: PromotionId)
    requires Consistent(s, stocks)
    ensures var records := RecordsOf(s.records, p);
      var winners := WithStatus(records, Won);
      winners == records[..Clamp(StockOf(stocks, p), |records|)] &&
      |winners| <= (if StockOf(stocks, p) < 0 then 0 else StockOf(stocks, p)) &&
      forall i :: 0 <= i < |winners| ==> winners[i].queuePosition == Some(i + 1)
  {
    assert PromotionConsistent(s, stocks, p);
    RankedWinners(RecordsOf(s.records, p), StockOf(stocks, p));
  }

  lemma RankedWinners(records: seq<PromotionParticipation>, stock: int)
    requires RankedInOrder(records, stock)
    ensures var winners := WithStatus(records, Won);
      winners == records[..Clamp(stock, |records|)] &&
      |winners| <= (if stock < 0 then 0 else stock) &&
      forall i :: 0 <= i < |winners| ==> winners[i].queuePosition == Some(i + 1)
  {
    assert forall i :: 0 <= i < |records| ==> Ranked(records[i], 0 + i + 1, stock);
    RankedWinnersArePrefix(records, 0, stock);
  }

  /** Positions 1, 2, … are already in order: the winners' query returns them in rank order. */
  lemma WinnersSortedByRank(s: State, stocks: Stocks, p: PromotionId)
    requires Consistent(s, stocks)
    ensures var winners := WithStatus(RecordsOf(s.records, p), Won);
      SortByPosition(winners) == winners
  {
    WinnersWithinStock(s, stocks, p);
    var winners := WithStatus(RecordsOf(s.records, p), Won);
    assert SortedByPosition(winners) by {
      forall i, j | 0 <= i < j < |winners| ensures PositionKey(winners[i]) <= PositionKey(winners[j]) {
        assert PositionKey(winners[i]) == i + 1 && PositionKey(winners[j]) == j + 1;
      }
    }
    SortKeepsSorted(winners);
  }

  /** Records whose users are all different hold at most one record per user. */
  lemma {:induction false} DistinctUsersOneRecord(records: seq<PromotionParticipation>, u: UserId)
    requires Distinct(UsersOf(records))
    ensures |OfUser(records, u)| <= 1
  {
    if records != [] {
      var rest := records[1..];
      assert UsersOf(rest) == UsersOf(records)[1..];
      assert Distinct(UsersOf(rest));
      DistinctUsersOneRecord(rest, u);
      if records[0].userId == u {
        forall x | x in rest ensures x.userId != u {
          var k :| 0 <= k < |rest| && rest[k] == x;
          assert UsersOf(records)[k + 1] == x.userId;
        }
        NoRecordOfUser(rest, u);
      }
    }
  }

  lemma {:induction false} NoRecordOfUser(records: seq<PromotionParticipation>, u: UserId)
    requires forall x :: x in records ==> x.userId != u
    ensures OfUser(records, u) == []
  {
    if records != [] {
      NoRecordOfUser(records[1..], u);
    }
  }

  /** In a consistent state a user has at most one record per promotion. */
  lemma OneRecordPerUser(s: State, stocks: Stocks, p: PromotionId, u: UserId)
    requires Consistent(s, stocks)
    ensures |OfUser(RecordsOf(s.records, p), u)| <= 1
  {
    assert PromotionConsistent(s, stocks, p);
    var records := RecordsOf(s.records, p);
    var line := Line(records, QueueOf(s.lists, p));
    assert Distinct(UsersOf(records)) by {
      forall i, j | 0 <= i < j < |UsersOf(records)| ensures UsersOf(records)[i] != UsersOf(records)[j] {
        assert UsersOf(records)[i] == line[i] && UsersOf(records)[j] == line[j];
      }
    }
    DistinctUsersOneRecord(records, u);
  }

  // ---- under any parse ----

  /**
   * Winners that hold positions between 1 and both the stock and the counter,
   * strictly increasing in saving order.
   */
  predicate WinnersRanked(winners: seq<PromotionParticipation>, count: int, stock: int) {
    (forall i :: 0 <= i < |winners| ==>
      winners[i].queuePosition.Some? && 1 <= PositionKey(winners[i]) <= stock && PositionKey(winners[i]) <= count) &&
    (forall i, j :: 0 <= i < j < |winners| ==> PositionKey(winners[i]) < PositionKey(winners[j]))
  }

  /**
   * What holds of one promotion whatever the worker's parse does: the counter never
   * went below zero, and the promotion's WON records are ranked as above.
   */
  predicate PromotionSound(s: State, stocks: Stocks, p: PromotionId) {
    WinnerCountOf(s.counters, p) >= 0 &&
    WinnersRanked(WithStatus(RecordsOf(s.records, p), Won), WinnerCountOf(s.counters, p), StockOf(stocks, p))
  }

  ghost predicate Sound(s: State, stocks: Stocks) {
    forall p :: PromotionSound(s, stocks, p)
  }

  /** The empty system is sound. */
  lemma InitiallySound()
    ensures Sound(State(map[], map[], map[], []), map[])
  {
    var s := State(map[], map[], map[], []);
    forall p ensures PromotionSound(s, map[], p) {
      assert RecordsOf([], p) == [] && WithStatus([], Won) == [];
    }
  }

  /** The consistent states of a read-back parse are among the sound ones. */
  lemma ConsistentIsSound(s: State, stocks: Stocks)
    requires Consistent(s, stocks)
    ensures Sound(s, stocks)
  {
    forall p ensures PromotionSound(s, stocks, p) {
      assert PromotionConsistent(s, stocks, p);
      WinnersWithinStock(s, stocks, p);
    }
  }

  /** A new promotion had no records, so it has no winners under any stock. */
  lemma CreateKeepsSound(s: State, stocks: Stocks, id: PromotionId, stock: int)
    requires Sound(s, stocks) && id !in stocks
    ensures Sound(s, stocks[id := stock])
  {
    var stocks' := stocks[id := stock];
    forall p ensures PromotionSound(s, stocks', p) {
      assert PromotionSound(s, stocks, p);
    }
  }

  /** A join touches neither the records nor the counters. */
  lemma JoinKeepsSound(s: State, stocks: Stocks, p: PromotionId, u: UserId, entry: string)
    requires Sound(s, stocks)
    ensures Sound(AfterJoin(s, p, u, entry), stocks)
  {
    forall o ensures PromotionSound(AfterJoin(s, p, u, entry), stocks, o) {
      assert PromotionSound(s, stocks, o);
    }
  }

  /** Filtering by status distributes over appending. */
  lemma {:induction false} WithStatusAppend(a: seq<PromotionParticipation>, b: seq<PromotionParticipation>,
                                            status: ParticipationStatus)
    ensures WithStatus(a + b, status) == WithStatus(a, status) + WithStatus(b, status)
  {
    if a == [] {
      assert a + b == b;
    } else {
      assert (a + b)[1..] == a[1..] + b;
      WithStatusAppend(a[1..], b, status);
    }
  }

  /** The winners of records ranked from `count + 1` on hold positions `count + 1`, `count + 2`, … within the stock. */
  lemma BatchWinners(count: int, batch: seq<PromotionParticipation>, job: Job)
    requires RankedFrom(batch, count, job)
    ensures var added := WithStatus(batch, Won);
      |added| <= |batch| &&
      forall i :: 0 <= i < |added| ==> added[i].queuePosition == Some(count + 1 + i) && count + 1 + i <= job.stock
  {
    assert forall i :: 0 <= i < |batch| ==> Ranked(batch[i], count + i + 1, job.stock) by {
      forall i | 0 <= i < |batch| ensures Ranked(batch[i], count + i + 1, job.stock) {
        assert count + 1 + i == count + i + 1;
      }
    }
    RankedWinnersArePrefix(batch, count, job.stock);
    var added := WithStatus(batch, Won);
    forall i | 0 <= i < |added|
      ensures added[i].queuePosition == Some(count + 1 + i) && count + 1 + i <= job.stock
    {
      assert added[i] == batch[i] && added[i].status == Won;
      assert Ranked(batch[i], count + i + 1, job.stock);
    }
  }

  /**
   * Appending the winners of records ranked from `count + 1` on keeps the winners
   * ranked, with the counter moved past the whole batch.
   */
  lemma WinnersRankedAppend(winners: seq<PromotionParticipation>, count: int, batch: seq<PromotionParticipation>, job: Job)
    requires WinnersRanked(winners, count, job.stock) && count >= 0 && RankedFrom(batch, count, job)
    ensures WinnersRanked(winners + WithStatus(batch, Won), count + |batch|, job.stock)
  {
    BatchWinners(count, batch, job);
    var added := WithStatus(batch, Won);
    var all := winners + added;
    forall i | 0 <= i < |all|
      ensures all[i].queuePosition.Some? && 1 <= PositionKey(all[i]) <= job.stock
      ensures PositionKey(all[i]) <= count + |batch|
      ensures i < |winners| ==> PositionKey(all[i]) <= count
      ensures i >= |winners| ==> PositionKey(all[i]) == count + 1 + (i - |winners|)
    {
      if i >= |winners| {
        assert all[i] == added[i - |winners|];
      } else {
        assert all[i] == winners[i];
      }
    }
    forall i, j | 0 <= i < j < |all| ensures PositionKey(all[i]) < PositionKey(all[j]) {
      if j < |winners| {
        assert all[i] == winners[i] && all[j] == winners[j];
      }
    }
  }

  /** Winners ranked under one counter stay ranked under any larger one. */
  lemma WinnersRankedGrow(winners: seq<PromotionParticipation>, count: int, count': int, stock: int)
    requires WinnersRanked(winners, count, stock) && count <= count'
    ensures WinnersRanked(winners, count', stock)
  {
  }

  /**
   * A tick on a known promotion, with any parse: its saved records, if any, are the
   * drain's batch, and the counter ends past every rank drawn, saved or not.
   */
  lemma TickViewsAnyParse(s: State, p: PromotionId, stock: int, now: int, parse: string -> Option<UserId>)
    ensures var s' := TickState(s, p, stock, now, parse);
      var c := WinnerCountOf(s.counters, p);
      var d := Drain(Window(QueueOf(s.lists, p)), c, Job(p, stock, now, parse));
      RecordsOf(s'.records, p) == RecordsOf(s.records, p) + Saved(d) &&
      WinnerCountOf(s'.counters, p) == d.counter &&
      RankedFrom(d.batch, c, Job(p, stock, now, parse))
  {
    var c := WinnerCountOf(s.counters, p);
    var job := Job(p, stock, now, parse);
    var d := Drain(Window(QueueOf(s.lists, p)), c, job);
    DrainRanks(Window(QueueOf(s.lists, p)), c, job);
    RecordsOfAppend(s.records, Saved(d), p);
    RecordsOfOwnBatch(Saved(d), p, p);
    BumpedStep(s.counters, p, c, d.counter);
  }

  /**
   * A tick keeps its own promotion sound under any parse. A batch cut short by a
   * failed parse is never saved, so only its ranks are lost; a saved batch holds the
   * next ranks, the winners among them within the stock.
   */
  lemma TickKeepsOwnSound(s: State, stocks: Stocks, p: PromotionId, now: int, parse: string -> Option<UserId>)
    requires PromotionSound(s, stocks, p) && p in stocks
    ensures PromotionSound(TickState(s, p, stocks[p], now, parse), stocks, p)
  {
    var s' := TickState(s, p, stocks[p], now, parse);
    var c := WinnerCountOf(s.counters, p);
    var job := Job(p, stocks[p], now, parse);
    var d := Drain(Window(QueueOf(s.lists, p)), c, job);
    var records := RecordsOf(s.records, p);
    TickViewsAnyParse(s, p, stocks[p], now, parse);
    WithStatusAppend(records, Saved(d), Won);
    if d.aborted {
      assert WithStatus([], Won) == [];
      assert WithStatus(records + Saved(d), Won) == WithStatus(records, Won);
      WinnersRankedGrow(WithStatus(records, Won), c, d.counter, stocks[p]);
    } else {
      WinnersRankedAppend(WithStatus(records, Won), c, d.batch, job);
    }
  }

  /** A tick on a known promotion keeps the whole state sound, whatever the parse. */
  lemma TickKeepsSound(s: State, stocks: Stocks, p: PromotionId, now: int, parse: string -> Option<UserId>)
    requires Sound(s, stocks) && p in stocks
    ensures Sound(TickState(s, p, stocks[p], now, parse), stocks)
  {
    var s' := TickState(s, p, stocks[p], now, parse);
    forall o ensures PromotionSound(s', stocks, o) {
      assert PromotionSound(s, stocks, o);
      if o == p {
        TickKeepsOwnSound(s, stocks, p, now, parse);
      } else {
        TickKeepsOtherSound(s, stocks, p, stocks[p], now, parse, o);
      }
    }
  }

  /** A tick on `p` leaves every other promotion's records and counter, so its soundness, as they were. */
  lemma TickKeepsOtherSound(s: State, stocks: Stocks, p: PromotionId, stock: int, now: int,
                            parse: string -> Option<UserId>, o: PromotionId)
    requires o != p && PromotionSound(s, stocks, o)
    ensures PromotionSound(TickState(s, p, stock, now, parse), stocks, o)
  {
    var s' := TickState(s, p, stock, now, parse);
    var c := WinnerCountOf(s.counters, p);
    var job := Job(p, stock, now, parse);
    var d := Drain(Window(QueueOf(s.lists, p)), c, job);
    DrainRanks(Window(QueueOf(s.lists, p)), c, job);
    RecordsOfAppend(s.records, Saved(d), o);
    RecordsOfOwnBatch(Saved(d), p, o);
    assert RecordsOf(s'.records, o) == RecordsOf(s.records, o);
    assert WinnerCountOf(s'.counters, o) == WinnerCountOf(s.counters, o);
  }

  /** A whole `processQueue` keeps the state sound, whatever the parse. */
  lemma {:induction false} TickEachKeepsSound(s: State, stocks: Stocks, targets: seq<(PromotionId, int)>,
                                              now: int, parse: string -> Option<UserId>)
    requires Sound(s, stocks) && KnownTargets(stocks, targets)
    ensures Sound(WithBoard(s, TickEach(BoardOf(s), targets, now, parse)), stocks)
    decreases |targets|
  {
    if targets != [] {
      var t := targets[0];
      var s1 := WithBoard(s, Visit(BoardOf(s), t, now, parse));
      if QueueOf(s.lists, t.0) != [] {
        TickKeepsSound(s, stocks, t.0, now, parse);
      }
      assert BoardOf(s1) == Visit(BoardOf(s), t, now, parse);
      assert KnownTargets(stocks, targets[1..]) by {
        forall i | 0 <= i < |targets[1..]| ensures targets[1..][i] == targets[i + 1] { }
      }
      TickEachKeepsSound(s1, stocks, targets[1..], now, parse);
    }
  }

  /** Positions that start at 1 or more and strictly increase are at least 1, 2, … */
  lemma {:induction false} PositionsAtLeastIndex(winners: seq<PromotionParticipation>, count: int, stock: int, i: nat)
    requires WinnersRanked(winners, count, stock) && i < |winners|
    ensures PositionKey(winners[i]) >= i + 1
  {
    if i > 0 {
      PositionsAtLeastIndex(winners, count, stock, i - 1);
    }
  }

  /**
   * No oversell under any parse: in a sound state a promotion has no more WON records
   * than its stock, and no more than ranks were drawn.
   */
  lemma SoundWithinStock(s: State, stocks: Stocks, p: PromotionId)
    requires Sound(s, stocks)
    ensures var winners := WithStatus(RecordsOf(s.records, p), Won);
      |winners| <= (if StockOf(stocks, p) < 0 then 0 else StockOf(stocks, p)) &&
      |winners| <= WinnerCountOf(s.counters, p)
  {
    assert PromotionSound(s, stocks, p);
    var winners := WithStatus(RecordsOf(s.records, p), Won);
    if winners != [] {
      PositionsAtLeastIndex(winners, WinnerCountOf(s.counters, p), StockOf(stocks, p), |winners| - 1);
    }
  }
}
