/**
 * The Redis keys of one promotion's admission state (RedisKeyGenerator): the
 * waiting queue, the set of users who joined and the winner counter.
 */
module RedisKeys {
  import opened Ids

  const Prefix: string := "promotion:"

  function QueueKey(id: PromotionId): string {
    Prefix + id + ":queue"
  }

  function JoinedKey(id: PromotionId): string {
    Prefix + id + ":joined"
  }

  function StockKey(id: PromotionId): string {
    Prefix + id + ":stock"
  }

  lemma KeysStartWithPrefix(id: PromotionId)
    ensures |Prefix| == 10
    ensures QueueKey(id)[..10] == Prefix
    ensures JoinedKey(id)[..10] == Prefix
    ensures StockKey(id)[..10] == Prefix
  {
  }

  /** The id sits between the prefix and the suffix, so it can be read back out of a key. */
  lemma {:induction false} IdInsideKey(id: PromotionId, suffix: string, key: string)
    requires key == Prefix + id + suffix
    ensures key[10..|key| - |suffix|] == id
  {
    assert |Prefix| == 10;
  }

  /** Different promotions never share a queue key, a joined key or a counter key. */
  lemma KeysInjective(a: PromotionId, b: PromotionId)
    ensures QueueKey(a) == QueueKey(b) ==> a == b
    ensures JoinedKey(a) == JoinedKey(b) ==> a == b
    ensures StockKey(a) == StockKey(b) ==> a == b
  {
    IdInsideKey(a, ":queue", QueueKey(a));
    IdInsideKey(b, ":queue", QueueKey(b));
    IdInsideKey(a, ":joined", JoinedKey(a));
    IdInsideKey(b, ":joined", JoinedKey(b));
    IdInsideKey(a, ":stock", StockKey(a));
    IdInsideKey(b, ":stock", StockKey(b));
  }

  /**
   * Keys of different kinds never coincide, whatever the two ids: the last character
   * of a key tells its kind ('e' queue, 'd' joined set, 'k' counter). In particular
   * the three keys of one promotion are pairwise distinct.
   */
  lemma KeyKindsNeverCollide(a: PromotionId, b: PromotionId)
    ensures QueueKey(a) != JoinedKey(b)
    ensures QueueKey(a) != StockKey(b)
    ensures JoinedKey(a) != StockKey(b)
  {
    var q, j, s := QueueKey(a), JoinedKey(b), StockKey(b);
    assert q[|q| - 1] == 'e';
    assert j[|j| - 1] == 'd';
    assert s[|s| - 1] == 'k';
    assert QueueKey(b)[|QueueKey(b)| - 1] == 'e';
    assert JoinedKey(a)[|JoinedKey(a)| - 1] == 'd';
  }
}
