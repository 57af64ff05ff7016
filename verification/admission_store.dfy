/**
 * The Redis admission state (PromotionQueueService): per promotion a FIFO queue of
 * entry strings, a set of the user ids that joined, and a winner counter, all in one
 * keyspace under the keys of RedisKeys. Redis deletes a list or set that becomes
 * empty and reads a missing key as empty (or 0), and so does the model.
 */
module AdmissionStore {
  import opened Wrappers
  import opened Ids
  import opened RedisKeys

  type Lists = map<string, seq<string>>
  type Sets = map<string, set<string>>
  type Counters = map<string, int>

  function ListAt(lists: Lists, key: string): seq<string> {
    if key in lists then lists[key] else []
  }

  function SetAt(sets: Sets, key: string): set<string> {
    if key in sets then sets[key] else {}
  }

  function CounterAt(counters: Counters, key: string): int {
    if key in counters then counters[key] else 0
  }

  /** The waiting queue of promotion `p`, front first. */
  function QueueOf(lists: Lists, p: PromotionId): seq<string> {
    ListAt(lists, QueueKey(p))
  }

  /** The user ids that joined promotion `p` and were not rolled back. */
  function JoinedOf(sets: Sets, p: PromotionId): set<string> {
    SetAt(sets, JoinedKey(p))
  }

  /** The number of ranks promotion `p` has handed out. */
  function WinnerCountOf(counters: Counters, p: PromotionId): int {
    CounterAt(counters, StockKey(p))
  }

  /** The keyspace after promotion `p`'s queue becomes `q` (the key is deleted when `q` is empty). */
  function WithQueue(lists: Lists, p: PromotionId, q: seq<string>): (r: Lists)
    ensures QueueOf(r, p) == q
    ensures forall o :: o != p ==> QueueOf(r, o) == QueueOf(lists, o)
  {
    assert forall o :: o != p ==> QueueKey(o) != QueueKey(p) by {
      forall o | o != p ensures QueueKey(o) != QueueKey(p) { KeysInjective(o, p); }
    }
    if q == [] then lists - {QueueKey(p)} else lists[QueueKey(p) := q]
  }

  /** The keyspace after promotion `p`'s joined set becomes `s` (deleted when empty). */
  function WithJoined(sets: Sets, p: PromotionId, s: set<string>): (r: Sets)
    ensures JoinedOf(r, p) == s
    ensures forall o :: o != p ==> JoinedOf(r, o) == JoinedOf(sets, o)
  {
    assert forall o :: o != p ==> JoinedKey(o) != JoinedKey(p) by {
      forall o | o != p ensures JoinedKey(o) != JoinedKey(p) { KeysInjective(o, p); }
    }
    if s == {} then sets - {JoinedKey(p)} else sets[JoinedKey(p) := s]
  }

  /** The keyspace after promotion `p`'s counter is set to `n`. */
  function WithCounter(counters: Counters, p: PromotionId, n: int): (r: Counters)
    ensures WinnerCountOf(r, p) == n
    ensures forall o :: o != p ==> WinnerCountOf(r, o) == WinnerCountOf(counters, o)
  {
    assert forall o :: o != p ==> StockKey(o) != StockKey(p) by {
      forall o | o != p ensures StockKey(o) != StockKey(p) { KeysInjective(o, p); }
    }
    counters[StockKey(p) := n]
  }

  /** The whole admission keyspace as one value. */
  datatype StoreState = StoreState(lists: Lists, sets: Sets, counters: Counters)

  /** What the pipelined join reports: whether the user is new, and the queue length before the push. */
  datatype ParticipationResult = ParticipationResult(isNewParticipant: bool, queueSize: int)

  class PromotionQueueService {
    var lists: Lists
    var sets: Sets
    var counters: Counters

    /** Redis keeps no empty list and no empty set, and INCR from nothing never goes below zero. */
    ghost predicate Valid()
      reads this
    {
      (forall k :: k in lists ==> lists[k] != []) &&
      (forall k :: k in sets ==> sets[k] != {}) &&
      (forall k :: k in counters ==> counters[k] >= 0)
    }

    constructor ()
      ensures Valid() && lists == map[] && sets == map[] && counters == map[]
    {
      lists := map[];
      sets := map[];
      counters := map[];
    }

    function Contents(): StoreState
      reads this
    {
      StoreState(lists, sets, counters)
    }

    function Queue(p: PromotionId): seq<string>
      reads this
    {
      QueueOf(lists, p)
    }

    function Joined(p: PromotionId): set<string>
      reads this
    {
      JoinedOf(sets, p)
    }

    function WinnerCount(p: PromotionId): int
      reads this
    {
      WinnerCountOf(counters, p)
    }

    /** RPUSH: `data` goes to the back of the queue. */
    method Enqueue(p: PromotionId, data: string)
      requires Valid()
      modifies this
      ensures Valid()
      ensures lists == WithQueue(old(lists), p, old(Queue(p)) + [data])
      ensures sets == old(sets) && counters == old(counters)
    {
      lists := WithQueue(lists, p, Queue(p) + [data]);
    }

    /** LPOP: the front entry, or None (Java's null) from an empty queue, which is left as it was. */
    method Dequeue(p: PromotionId) returns (value: Option<string>)
      requires Valid()
      modifies this
      ensures Valid()
      ensures old(Queue(p)) == [] ==> value == None && lists == old(lists)
      ensures old(Queue(p)) != [] ==>
        value == Some(old(Queue(p))[0]) && lists == WithQueue(old(lists), p, old(Queue(p))[1..])
      ensures sets == old(sets) && counters == old(counters)
    {
      var q := Queue(p);
      if q == [] {
        value := None;
      } else {
        value := Some(q[0]);
        lists := WithQueue(lists, p, q[1..]);
      }
    }

    /** SADD: true exactly when the user was not yet a member; afterwards the user is one. */
    method AddToJoinedSet(p: PromotionId, u: UserId) returns (added: bool)
      requires Valid()
      modifies this
      ensures Valid()
      ensures added <==> u !in old(Joined(p))
      ensures sets == WithJoined(old(sets), p, old(Joined(p)) + {u})
      ensures lists == old(lists) && counters == old(counters)
    {
      added := u !in Joined(p);
      sets := WithJoined(sets, p, Joined(p) + {u});
    }

    /** SREM: the user is no longer a member; nothing happens when it was not one. */
    method RemoveFromJoinedSet(p: PromotionId, u: UserId)
      requires Valid()
      modifies this
      ensures Valid()
      ensures sets == WithJoined(old(sets), p, old(Joined(p)) - {u})
      ensures lists == old(lists) && counters == old(counters)
    {
      sets := WithJoined(sets, p, Joined(p) - {u});
    }

    /** LLEN: the queue length, 0 when the key is missing. */
    method GetQueueSize(p: PromotionId) returns (size: nat)
      ensures size == |Queue(p)|
      ensures QueueKey(p) !in lists ==> size == 0
    {
      size := |Queue(p)|;
    }

    /** INCR: the counter goes up by one (from 0 when missing) and the new value is returned. */
    method IncrementWinnerCount(p: PromotionId) returns (count: int)
      requires Valid()
      modifies this
      ensures Valid()
      ensures count == old(WinnerCount(p)) + 1
      ensures counters == WithCounter(old(counters), p, count)
      ensures lists == old(lists) && sets == old(sets)
    {
      count := WinnerCount(p) + 1;
      counters := WithCounter(counters, p, count);
    }

    /** GET on the counter: 0 when missing. */
    method GetWinnerCount(p: PromotionId) returns (count: nat)
      requires Valid()
      ensures count == WinnerCount(p)
      ensures StockKey(p) !in counters ==> count == 0
    {
      count := WinnerCount(p);
    }

    /** SCARD: the number of joined users, 0 when the key is missing. */
    method GetParticipantCount(p: PromotionId) returns (count: nat)
      ensures count == |Joined(p)|
      ensures JoinedKey(p) !in sets ==> count == 0
    {
      count := |Joined(p)|;
    }

    /**
     * SADD, LLEN and RPUSH sent as one pipeline: the entry is pushed whether or not
     * the user was new, and the size reported is the length before the push.
     */
    method AddParticipantWithPipeline(p: PromotionId, u: UserId, data: string) returns (result: ParticipationResult)
      requires Valid()
      modifies this
      ensures Valid()
      ensures result == ParticipationResult(u !in old(Joined(p)), |old(Queue(p))|)
      ensures sets == WithJoined(old(sets), p, old(Joined(p)) + {u})
      ensures lists == WithQueue(old(lists), p, old(Queue(p)) + [data])
      ensures counters == old(counters)
    {
      var added := AddToJoinedSet(p, u);
      var size := GetQueueSize(p);
      Enqueue(p, data);
      result := ParticipationResult(added, size);
    }
  }

  /** Writing back a promotion's own queue leaves a keyspace without empty lists as it was. */
  lemma WithQueueOwn(lists: Lists, p: PromotionId)
    requires forall k :: k in lists ==> lists[k] != []
    ensures WithQueue(lists, p, QueueOf(lists, p)) == lists
  {
  }

  /** A second write to the same queue overrides the first. */
  lemma WithQueueTwice(lists: Lists, p: PromotionId, a: seq<string>, b: seq<string>)
    ensures WithQueue(WithQueue(lists, p, a), p, b) == WithQueue(lists, p, b)
  {
  }

  /** A second write to the same counter overrides the first. */
  lemma WithCounterTwice(counters: Counters, p: PromotionId, a: int, b: int)
    ensures WithCounter(WithCounter(counters, p, a), p, b) == WithCounter(counters, p, b)
  {
  }

  /** Adding a user that is already a member leaves the keyspace exactly as it was. */
  lemma {:induction false} AddMemberRestores(sets: Sets, p: PromotionId, u: UserId)
    requires forall k :: k in sets ==> sets[k] != {}
    requires u in JoinedOf(sets, p)
    ensures WithJoined(sets, p, JoinedOf(sets, p) + {u}) == sets
  {
    assert JoinedOf(sets, p) + {u} == JoinedOf(sets, p);
    assert JoinedKey(p) in sets;
  }

  /**
   * Adding a user and removing it again leaves the keyspace exactly as it was when the
   * user was not a member: this is what makes the QUEUE_FULL rollback complete.
   */
  lemma {:induction false} AddThenRemoveRestores(sets: Sets, p: PromotionId, u: UserId)
    requires forall k :: k in sets ==> sets[k] != {}
    requires u !in JoinedOf(sets, p)
    ensures WithJoined(WithJoined(sets, p, JoinedOf(sets, p) + {u}), p, (JoinedOf(sets, p) + {u}) - {u}) == sets
  {
    var s := JoinedOf(sets, p);
    assert (s + {u}) - {u} == s;
    var once := WithJoined(sets, p, s + {u});
    assert once == sets[JoinedKey(p) := s + {u}];
    if JoinedKey(p) in sets {
      assert once[JoinedKey(p) := s] == sets;
    } else {
      assert once - {JoinedKey(p)} == sets;
    }
  }
}
