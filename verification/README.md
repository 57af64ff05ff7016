# promotion-service, modelled in Dafny

This project models the first-come-first-served promotion service of the
`promotion-service` repository, together with its monitoring side.

A promotion gives away `totalStock` prizes. Users join it through
`PromotionParticipationService.joinPromotion`:

- the join is checked against the promotion's status, time window and stock;
- a Redis set of joined users deduplicates it;
- a full queue (five entries per unit of stock) turns it away;
- otherwise the user is appended to the promotion's Redis queue as one text entry `userId:ip:userAgent:timestamp`.

Once a second, `PromotionWorker.processQueue` visits every ACTIVE promotion. For each one it pops up to 100 entries. Each entry draws a rank from a Redis counter with INCR. Ranks up to the stock become WON records and the rest LOST records, and the batch is saved.

Around this core sit:

- the promotion lifecycle (`PromotionService`);
- the read-through cache (`PromotionCacheService`);
- the participation queries (`ParticipationQueryService`);
- the occupancy report (`PromotionStatusResponse`).

The monitoring side holds the anomaly detector (`AnomalyDetector`), with its thresholds and alert cooldowns, and the parsing and fallback half of the AI analyzer (`EnhancedAIAnalyzer`).

Modules, one per file:

| file | module | models |
|---|---|---|
| `wrappers.dfy` | `Wrappers` | `Option` (Java's null), `Result` (an exception with its error code) |
| `java_int.dfy` | `JavaInt` | Java `int` range and wrap-around, truncating division |
| `java_text.dfy` | `JavaText` | `contains`, `replace`, `trim`, `split` on one character, `equalsIgnoreCase` |
| `ids.dfy` | `Ids` | promotion ids and user ids as UUID text |
| `keys.dfy` | `RedisKeys` | `RedisKeyGenerator` |
| `errors.dfy` | `Errors` | `PromotionErrorCode` |
| `promotions.dfy` | `Promotions` | `Promotion`, `PromotionRepository` |
| `participations.dfy` | `Participations` | `PromotionParticipation`, `PromotionParticipationRepository` |
| `admission_store.dfy` | `AdmissionStore` | `PromotionQueueService` (the Redis state) |
| `admission.dfy` | `Admission` | `PromotionParticipationService` |
| `resolution.dfy` | `Resolution` | `PromotionWorker` |
| `pipeline.dfy` | `Pipeline` | the invariant that joins and worker ticks keep together |
| `status_report.dfy` | `StatusReport` | `PromotionStatusResponse` |
| `lifecycle.dfy` | `Lifecycle` | `PromotionService` |
| `cache.dfy` | `Cache` | `PromotionCacheService` |
| `query.dfy` | `Query` | `ParticipationQueryService` |
| `metrics.dfy` | `Metrics` | `SystemMetrics` |
| `detector.dfy` | `Detector` | `AnomalyDetector` |
| `analyzer.dfy` | `Analyzer` | `EnhancedAIAnalyzer` (reply parsing, keyword classifier, fallback) |

**How state is modelled.**

- **Redis.** Redis is one keyspace, the class `PromotionQueueService`, with three maps keyed by the strings of `RedisKeys`: lists, sets and counters.
  - A missing key reads as empty or 0.
  - A list or set that becomes empty is deleted, as Redis does.
  - Because the keys are injective, every update to one promotion leaves every other promotion's view alone (`WithQueue`, `WithJoined`, `WithCounter`).
- **Promotions** are objects with a mutable `status`. The repositories are classes holding maps and sequences.
- **The worker's whole effect** on the queues, the counters and the saved records is specified by pure functions: `Resolve`, `Drain`, `Tick` and `TickEach`. The methods are proved to do exactly that.
- **The system-wide invariant** (`Pipeline.Consistent`) is proved to be kept by every join and every worker tick. For each promotion it states:
  - the counter equals the number of saved records;
  - record `i` holds rank `i + 1`, and is WON exactly when `i + 1` is within the stock;
  - the users already resolved, followed by the users still waiting, are all different, and all are in the joined set.

  From it follow two facts: the winners are exactly the first `min(stock, n)` records, at positions 1, 2, …; and no user has two records in a promotion.

Where the code's own comments and the code disagree, the model follows the code:

- **Cache eviction.** The comment on `PromotionCacheService.evictCache` (PromotionCacheService.java:89) says it is called when a promotion's status changes. No caller does so: `PromotionService.startPromotion` and `endPromotion` never touch the cache, so the model does not evict. `Cache.StaleCopyAfterStart` shows the stale copy that results.
- **Parsing the user id.** `PromotionWorker` parses the user id with `Long.parseLong`, while joins write a UUID. The code as given does not type-check at this point: PromotionWorker.java:91, 102 and 106 pass the `Long userId` to `createWinner` and `createLoser`, which take a `UUID` (PromotionParticipation.java:72, 91), and ParticipationQueryService.java:35 passes a `Long userId` to `findByPromotionAndUserId(Promotion, UUID)` (PromotionParticipationRepository.java:15). No single reading of the id is therefore the source's, and the parse is a parameter of the worker (`parse`).
  - With an arbitrary `parse`, the model covers exactly what the code does with a failed parse (see `Resolution`). The weaker invariant `Pipeline.Sound` is proved for every parse: WON records hold strictly increasing positions within the stock and the counter, so no promotion has more winners than its stock.
  - With a `parse` that reads ids back, the full invariant `Pipeline.Consistent` is proved.
- **`PARTICIPATION_NOT_FOUND`.** `ParticipationQueryService` raises `PARTICIPATION_NOT_FOUND`, but `PromotionErrorCode` does not declare it. The model adds it, with status 404.

## Model

Source paths are relative to the repository root.

| member | source | states |
|---|---|---|
| `JavaInt.Wrap32` | src/main/java/org/nextme/promotion_service/promotion/presentation/dto/PromotionStatusResponse.java:17 | Java's narrowing to `int` keeps the value modulo 2^32 inside the `int` range, and leaves values already in range unchanged |
| `JavaInt.JavaDiv` | src/main/java/org/nextme/promotion_service/monitoring/detector/AnomalyDetector.java:115-116 | `Duration.toMinutes` truncates toward zero: the quotient brackets the dividend from below for non-negative and from above for negative values |
| `JavaText.Trim` | src/main/java/org/nextme/promotion_service/promotion/application/PromotionParticipationService.java:102 | `trim` returns the slice of its input left after cutting only characters up to U+0020 from both ends, and the slice neither starts nor ends with one |
| `JavaText.TrimUnique` | src/main/java/org/nextme/promotion_service/promotion/application/PromotionParticipationService.java:102 | any slice with only trimmed characters around it and none at its ends is the trim, so `Trim` is fully determined |
| `JavaText.RemoveAll` | src/main/java/org/nextme/promotion_service/monitoring/analyzer/EnhancedAIAnalyzer.java:121-126 | `replace(tag, "")` never lengthens the text and leaves text without the tag unchanged |
| `JavaText.RemoveAllFirst` | src/main/java/org/nextme/promotion_service/monitoring/analyzer/EnhancedAIAnalyzer.java:121-126 | when the tag first occurs right after `a`, `replace(tag, "")` keeps `a`, drops that occurrence and goes on scanning the rest |
| `JavaText.SplitAll` | src/main/java/org/nextme/promotion_service/promotion/application/PromotionWorker.java:85 | splitting at every separator gives at least one piece, no piece holds the separator, and text without it is one piece |
| `JavaText.JoinSplit` | src/main/java/org/nextme/promotion_service/promotion/application/PromotionWorker.java:85 | the pieces glued back with the separator give the original text (split loses nothing) |
| `JavaText.SplitAllAppend` | src/main/java/org/nextme/promotion_service/promotion/application/PromotionWorker.java:85 | splitting `a + sep + b` is splitting `a` and `b` and concatenating the piece lists |
| `JavaText.SplitAllOnlySeparators` | src/main/java/org/nextme/promotion_service/promotion/application/PromotionParticipationService.java:101-102 | every piece is empty exactly when the text consists of separators only |
| `JavaText.SplitAllLastPiece` | src/main/java/org/nextme/promotion_service/promotion/application/PromotionWorker.java:85 | text that does not end with the separator has a non-empty last piece |
| `JavaText.DropTrailingEmpty` | src/main/java/org/nextme/promotion_service/promotion/application/PromotionWorker.java:85 | the result is a prefix of the pieces ending in a non-empty piece, and only empty pieces were dropped |
| `JavaText.JavaSplit` | src/main/java/org/nextme/promotion_service/promotion/application/PromotionWorker.java:85 | Java's `split` on one character: text without the separator is its own only part, otherwise all pieces minus trailing empties, none holding the separator |
| `JavaText.FirstPartIsTextBefore` | src/main/java/org/nextme/promotion_service/promotion/application/PromotionParticipationService.java:102 | whenever `split` yields a part, the first is the text before the first separator |
| `RedisKeys.KeysStartWithPrefix` | src/main/java/org/nextme/promotion_service/promotion/infrastructure/redis/RedisKeyGenerator.java:11-35 | all three keys start with the 10-character prefix `promotion:` |
| `RedisKeys.IdInsideKey` | src/main/java/org/nextme/promotion_service/promotion/infrastructure/redis/RedisKeyGenerator.java:17-35 | the promotion id can be read back from between the prefix and the suffix of a key |
| `RedisKeys.KeysInjective` | src/main/java/org/nextme/promotion_service/promotion/infrastructure/redis/RedisKeyGenerator.java:17-35 | two promotions share a queue, joined or counter key only if they are the same promotion |
| `RedisKeys.KeyKindsNeverCollide` | src/main/java/org/nextme/promotion_service/promotion/infrastructure/redis/RedisKeyGenerator.java:17-35 | a queue key, a joined key and a counter key never coincide, whatever the ids |
| `Errors.HttpStatus` | src/main/java/org/nextme/promotion_service/global/exception/PromotionErrorCode.java:14-17 | every promotion error is reported with a 4xx client-error status |
| `Promotions.Promotion.constructor` | src/main/java/org/nextme/promotion_service/promotion/domain/Promotion.java:57-65 | the builder copies every field, and a promotion built without a status is SCHEDULED |
| `Promotions.Promotion.Start` | src/main/java/org/nextme/promotion_service/promotion/domain/Promotion.java:68-83 | `start` makes the promotion ACTIVE, with no guard on its former status; from then on it admits joiners exactly strictly inside its window, when it has stock |
| `Promotions.Promotion.End` | src/main/java/org/nextme/promotion_service/promotion/domain/Promotion.java:68-88 | `end` makes the promotion ENDED, with no guard on its former status; from then on no time admits a joiner |
| `Promotions.OnlyActivePromotionsAdmit` | src/main/java/org/nextme/promotion_service/promotion/domain/Promotion.java:68-78 | a SCHEDULED or ENDED promotion is neither active nor open for joining at any time |
| `Promotions.PromotionRepository.FindById` | src/main/java/org/nextme/promotion_service/promotion/infrastructure/persistence/PromotionRepository.java:10 | `findById` finds a row exactly when the id is stored, and returns that row |
| `Promotions.PromotionRepository.FindByStatus` | src/main/java/org/nextme/promotion_service/promotion/infrastructure/persistence/PromotionRepository.java:13 | `findByStatus` lists only stored rows with that status, and every stored row with that status |
| `Promotions.PromotionRepository.Save` | src/main/java/org/nextme/promotion_service/promotion/infrastructure/persistence/PromotionRepository.java:10 | saving a new promotion adds its row under its id and keeps the repository well formed |
| `Participations.CreateWinner` | src/main/java/org/nextme/promotion_service/participation/domain/PromotionParticipation.java:70-86 | a winner is WON, holds the rank it drew as queue position, and copies promotion, user, address, agent and time |
| `Participations.CreateLoser` | src/main/java/org/nextme/promotion_service/participation/domain/PromotionParticipation.java:89-103 | a loser is LOST, has no queue position, and copies promotion, user, address, agent and time |
| `Participations.RecordsOf` | src/main/java/org/nextme/promotion_service/participation/infrastructure/persistence/PromotionParticipationRepository.java:15-19 | the records of one promotion are exactly the saved records that name it |
| `Participations.RecordsOfAppend` | src/main/java/org/nextme/promotion_service/promotion/application/PromotionWorker.java:114-117 | saving a batch appends its part to each promotion's records |
| `Participations.RecordsOfOwnBatch` | src/main/java/org/nextme/promotion_service/promotion/application/PromotionWorker.java:114-117 | a batch built for one promotion is all of that promotion's part and nothing of another's |
| `Participations.SortByPosition` | src/main/java/org/nextme/promotion_service/participation/infrastructure/persistence/PromotionParticipationRepository.java:18-19 | `ORDER BY queuePosition ASC` gives records sorted by position, as many as were given |
| `Participations.SortByPositionPermutes` | src/main/java/org/nextme/promotion_service/participation/infrastructure/persistence/PromotionParticipationRepository.java:18-19 | the ordering is a permutation: the same records, each as often |
| `Participations.SortKeepsSorted` | src/main/java/org/nextme/promotion_service/participation/infrastructure/persistence/PromotionParticipationRepository.java:18-19 | records already in position order come back unchanged |
| `Participations.ParticipationRepository.SaveAll` | src/main/java/org/nextme/promotion_service/promotion/application/PromotionWorker.java:115 | `saveAll` stores the batch after all earlier records, in its own order |
| `Participations.ParticipationRepository.FindByPromotionAndUserId` | src/main/java/org/nextme/promotion_service/participation/infrastructure/persistence/PromotionParticipationRepository.java:15 | the lookup finds exactly the saved records of that user in that promotion |
| `Participations.ParticipationRepository.FindByPromotionAndStatusOrderByQueuePositionAsc` | src/main/java/org/nextme/promotion_service/participation/infrastructure/persistence/PromotionParticipationRepository.java:18-19 | the promotion's records with the status, sorted by position and a permutation of them |
| `AdmissionStore.WithQueue` | src/main/java/org/nextme/promotion_service/promotion/infrastructure/redis/PromotionQueueService.java:24-38 | writing one promotion's queue sets that queue and leaves every other promotion's queue as it was |
| `AdmissionStore.WithJoined` | src/main/java/org/nextme/promotion_service/promotion/infrastructure/redis/PromotionQueueService.java:46-60 | writing one promotion's joined set sets it and leaves every other promotion's set as it was |
| `AdmissionStore.WithCounter` | src/main/java/org/nextme/promotion_service/promotion/infrastructure/redis/PromotionQueueService.java:78-81 | writing one promotion's counter sets it and leaves every other promotion's counter as it was |
| `AdmissionStore.PromotionQueueService.Enqueue` | src/main/java/org/nextme/promotion_service/promotion/infrastructure/redis/PromotionQueueService.java:24-27 | RPUSH appends the entry to the back of the queue; sets and counters unchanged |
| `AdmissionStore.PromotionQueueService.Dequeue` | src/main/java/org/nextme/promotion_service/promotion/infrastructure/redis/PromotionQueueService.java:34-38 | LPOP returns null on an empty queue and otherwise the front entry, which leaves the queue |
| `AdmissionStore.PromotionQueueService.AddToJoinedSet` | src/main/java/org/nextme/promotion_service/promotion/infrastructure/redis/PromotionQueueService.java:46-50 | SADD reports true exactly when the user was not yet in the set; the user is in it afterwards |
| `AdmissionStore.PromotionQueueService.RemoveFromJoinedSet` | src/main/java/org/nextme/promotion_service/promotion/infrastructure/redis/PromotionQueueService.java:57-60 | SREM takes the user out of the set and nothing else changes |
| `AdmissionStore.PromotionQueueService.GetQueueSize` | src/main/java/org/nextme/promotion_service/promotion/infrastructure/redis/PromotionQueueService.java:67-71 | LLEN is the queue length, 0 for a missing key |
| `AdmissionStore.PromotionQueueService.IncrementWinnerCount` | src/main/java/org/nextme/promotion_service/promotion/infrastructure/redis/PromotionQueueService.java:78-81 | INCR returns the counter plus one and stores it; queues and sets unchanged |
| `AdmissionStore.PromotionQueueService.GetWinnerCount` | src/main/java/org/nextme/promotion_service/promotion/infrastructure/redis/PromotionQueueService.java:88-95 | the counter's value, 0 when the key is missing |
| `AdmissionStore.PromotionQueueService.GetParticipantCount` | src/main/java/org/nextme/promotion_service/promotion/infrastructure/redis/PromotionQueueService.java:102-106 | SCARD is the joined-set size, 0 for a missing key |
| `AdmissionStore.PromotionQueueService.AddParticipantWithPipeline` | src/main/java/org/nextme/promotion_service/promotion/infrastructure/redis/PromotionQueueService.java:116-146 | the pipelined SADD, RPUSH and LLEN: reports whether the user was new and the length before the push; the user is in the set and the entry at the back |
| `AdmissionStore.WithQueueTwice` | src/main/java/org/nextme/promotion_service/promotion/infrastructure/redis/PromotionQueueService.java:24-38 | two writes to one queue amount to the last |
| `AdmissionStore.AddMemberRestores` | src/main/java/org/nextme/promotion_service/promotion/infrastructure/redis/PromotionQueueService.java:46-50 | SADD of a member already present leaves the keyspace exactly as it was |
| `AdmissionStore.AddThenRemoveRestores` | src/main/java/org/nextme/promotion_service/promotion/application/PromotionParticipationService.java:55-67 | SADD of a new member followed by its SREM restores the keyspace exactly (the queue-full rollback) |
| `Admission.FirstValue` | src/main/java/org/nextme/promotion_service/promotion/application/PromotionParticipationService.java:82-96 | `getHeader`: the value of the first header line whose name matches up to case, None exactly when no name matches |
| `Admission.LowerCaseHeaderIsFound` | src/main/java/org/nextme/promotion_service/promotion/application/PromotionParticipationService.java:82-103 | a lower-case `x-forwarded-for` line is found, so its address is the one recorded |
| `Admission.FirstUsable` | src/main/java/org/nextme/promotion_service/promotion/application/PromotionParticipationService.java:82-98 | the reference reading of the header chain: the first listed header that is present, non-empty and not "unknown" |
| `Admission.ChosenIpIsFirstUsable` | src/main/java/org/nextme/promotion_service/promotion/application/PromotionParticipationService.java:82-98 | the chain of reassignments settles on the first usable header, or on the peer address when none is usable |
| `Admission.GetClientIp` | src/main/java/org/nextme/promotion_service/promotion/application/PromotionParticipationService.java:81-106 | the intended address: no comma in it; without a comma it is the chosen value; with one it is the trimmed text before the first comma |
| `Admission.GetClientIpAsWrittenAgrees` | src/main/java/org/nextme/promotion_service/promotion/application/PromotionParticipationService.java:101-103 | the code as written throws exactly on a value made only of commas, and agrees with `GetClientIp` otherwise |
| `Admission.LoneCommaHeaderThrows` | src/main/java/org/nextme/promotion_service/promotion/application/PromotionParticipationService.java:101-103 | the header `X-Forwarded-For: ,` makes the address lookup throw |
| `Admission.QueueEntryShape` | src/main/java/org/nextme/promotion_service/promotion/application/PromotionParticipationService.java:71 | a queue entry splits on ':' into at least four parts whatever the address and agent hold, and its first part is the user id |
| `Admission.MaxQueueSizeAsWritten` | src/main/java/org/nextme/promotion_service/promotion/application/PromotionParticipationService.java:62 | the `int` product is five times the stock while it does not overflow |
| `Admission.QueueCapWrapsNegative` | src/main/java/org/nextme/promotion_service/promotion/application/PromotionParticipationService.java:62 | a stock of 429496730 makes the written cap negative, so every join is turned away |
| `Admission.MaxQueueSize` | src/main/java/org/nextme/promotion_service/promotion/application/PromotionParticipationService.java:27-62 | the cap is five entries per unit of stock, at least the stock and positive for positive stock |
| `Admission.PromotionParticipationService.JoinPromotion` | src/main/java/org/nextme/promotion_service/promotion/application/PromotionParticipationService.java:37-106 | as written: an X-Forwarded-For of commas only throws before anything is read; NOT_FOUND, NOT_AVAILABLE, ALREADY_JOINED and QUEUE_FULL against the wrapped `int` cap each leave the Redis state exactly as it was; a success appends the entry with the address as written, adds the user and returns the new queue length |
| `Admission.PromotionParticipationService.Admit` | src/main/java/org/nextme/promotion_service/promotion/application/PromotionParticipationService.java:54-77 | the Redis half of a join: duplicate and full queue change nothing (the SADD rolled back); otherwise the user is joined and queued at the back |
| `Admission.JoinInTurn` | src/main/java/org/nextme/promotion_service/promotion/application/PromotionParticipationService.java:37-78 | `n` different users joining, with requests without proxy headers, an empty promotion whose `int` cap is at least `n` are all queued |
| `Admission.TwentySixthJoinerIsTurnedAway` | src/main/java/org/nextme/promotion_service/promotion/application/PromotionParticipationService.java:61-67 | with a stock of 5 and requests without proxy headers, 25 joiners are queued and the 26th gets QUEUE_FULL and is not left in the joined set |
| `Resolution.Resolve` | src/main/java/org/nextme/promotion_service/promotion/application/PromotionWorker.java:85-108 | an entry is dropped exactly when it has fewer than three parts, fails exactly when its user id does not parse, and otherwise becomes the record of its rank |
| `Resolution.ResolveCopiesEntry` | src/main/java/org/nextme/promotion_service/promotion/application/PromotionWorker.java:91-106 | the record names the parsed user and the entry's second and third parts as address and agent |
| `Resolution.Drain` | src/main/java/org/nextme/promotion_service/promotion/application/PromotionWorker.java:76-111 | the batch loop never takes more entries than are in reach, and the counter advances by one per record built |
| `Resolution.DrainStops` | src/main/java/org/nextme/promotion_service/promotion/application/PromotionWorker.java:76-111 | the loop takes every entry in reach unless a user id fails to parse, and that entry is then the last one taken |
| `Resolution.DrainRanks` | src/main/java/org/nextme/promotion_service/promotion/application/PromotionWorker.java:96-108 | the batch's records drew consecutive ranks in dequeue order, WON within the stock and LOST beyond it |
| `Resolution.DrainCounts` | src/main/java/org/nextme/promotion_service/promotion/application/PromotionWorker.java:85-110 | one record per well-formed entry taken, minus the entry whose parse failed |
| `Resolution.Window` | src/main/java/org/nextme/promotion_service/promotion/application/PromotionWorker.java:34-76 | one tick reaches exactly the first `min(BATCH_SIZE, n)` entries of a queue of `n`, with BATCH_SIZE = 100 |
| `Resolution.Targets` | src/main/java/org/nextme/promotion_service/promotion/application/PromotionWorker.java:41-55 | the worker visits each ACTIVE promotion with its own stock, in listing order |
| `Resolution.PromotionWorker.ProcessPromotionQueue` | src/main/java/org/nextme/promotion_service/promotion/application/PromotionWorker.java:63-118 | an unknown promotion is left alone; otherwise queue, counter and records move as `Tick` says, and the joined sets are never touched |
| `Resolution.PromotionWorker.DrainBatch` | src/main/java/org/nextme/promotion_service/promotion/application/PromotionWorker.java:74-111 | the loop's batch is the drain's records; the consumed entries are off the queue and the counter moved by the ranks drawn |
| `Resolution.PromotionWorker.NextEntry` | src/main/java/org/nextme/promotion_service/promotion/application/PromotionWorker.java:78-82 | LPOP on an empty queue stops the loop with nothing changed; otherwise the front entry is resolved with the next rank |
| `Resolution.PromotionWorker.TakeEntry` | src/main/java/org/nextme/promotion_service/promotion/application/PromotionWorker.java:85-110 | the entry is resolved with the counter's next value, and INCR happens exactly when the entry is admitted |
| `Resolution.PromotionWorker.VisitPromotion` | src/main/java/org/nextme/promotion_service/promotion/application/PromotionWorker.java:51-56 | a promotion with an empty queue is skipped; otherwise it gets one tick |
| `Resolution.PromotionWorker.ProcessQueue` | src/main/java/org/nextme/promotion_service/promotion/application/PromotionWorker.java:39-61 | one tick per ACTIVE promotion with a non-empty queue, in order; a failure in one does not stop the rest |
| `Pipeline.EntryUsers` | src/main/java/org/nextme/promotion_service/promotion/application/PromotionWorker.java:85-91 | one user per queue entry, the text before its first ':' |
| `Pipeline.InitiallyConsistent` | src/main/java/org/nextme/promotion_service/promotion/infrastructure/redis/PromotionQueueService.java:67-106 | the empty system satisfies the invariant |
| `Pipeline.CreateKeepsConsistent` | src/main/java/org/nextme/promotion_service/promotion/application/PromotionService.java:33-47 | creating a promotion keeps the invariant |
| `Pipeline.JoinKeepsConsistent` | src/main/java/org/nextme/promotion_service/promotion/application/PromotionParticipationService.java:55-72 | a successful join keeps the invariant: the new user was in no line, and the entry reads back as that user |
| `Pipeline.JoinKeepsLine` | src/main/java/org/nextme/promotion_service/promotion/application/PromotionParticipationService.java:55-72 | appending a new user's entry keeps the line distinct, inside the joined set, and well formed |
| `Pipeline.DrainAdmitsEveryone` | src/main/java/org/nextme/promotion_service/promotion/application/PromotionWorker.java:76-111 | on entries as joins write them, with a parse that reads ids back, every entry in reach is admitted, for its own user, in order |
| `Pipeline.RankedAppend` | src/main/java/org/nextme/promotion_service/promotion/application/PromotionWorker.java:96-117 | records ranked from the next rank on, appended, keep ranks 1, 2, … in saving order |
| `Pipeline.LineAfterTake` | src/main/java/org/nextme/promotion_service/promotion/application/PromotionWorker.java:78-110 | moving users from the head of the queue to the records, in order, leaves the line unchanged |
| `Pipeline.TakeKeepsLine` | src/main/java/org/nextme/promotion_service/promotion/application/PromotionWorker.java:76-117 | taking head entries and appending their ranked records keeps the promotion's invariant |
| `Pipeline.TickKeepsOther` | src/main/java/org/nextme/promotion_service/promotion/application/PromotionWorker.java:63-118 | a tick on one promotion leaves every other promotion's invariant intact |
| `Pipeline.TickViews` | src/main/java/org/nextme/promotion_service/promotion/application/PromotionWorker.java:63-118 | a tick that does not abort leaves the rest of the queue, the records plus the batch and the counter past the batch |
| `Pipeline.TickKeepsOwn` | src/main/java/org/nextme/promotion_service/promotion/application/PromotionWorker.java:63-118 | a tick keeps its own promotion's invariant |
| `Pipeline.TickKeepsConsistent` | src/main/java/org/nextme/promotion_service/promotion/application/PromotionWorker.java:63-118 | a tick on a known promotion keeps the invariant of the whole system |
| `Pipeline.TickEachKeepsConsistent` | src/main/java/org/nextme/promotion_service/promotion/application/PromotionWorker.java:39-61 | a whole `processQueue` keeps the invariant |
| `Pipeline.InitiallySound` | src/main/java/org/nextme/promotion_service/promotion/application/PromotionWorker.java:63-118 | the empty system satisfies the invariant that holds under any parse |
| `Pipeline.ConsistentIsSound` | src/main/java/org/nextme/promotion_service/promotion/application/PromotionWorker.java:63-118 | every consistent state is sound |
| `Pipeline.CreateKeepsSound` | src/main/java/org/nextme/promotion_service/promotion/application/PromotionService.java:33-46 | creating a promotion keeps the state sound |
| `Pipeline.JoinKeepsSound` | src/main/java/org/nextme/promotion_service/promotion/application/PromotionParticipationService.java:37-78 | a join touches neither records nor counters, so it keeps the state sound |
| `Pipeline.WithStatusAppend` | src/main/java/org/nextme/promotion_service/promotion/application/PromotionWorker.java:113-117 | the WON records of two saved runs are the WON records of each, in order |
| `Pipeline.BatchWinners` | src/main/java/org/nextme/promotion_service/promotion/application/PromotionWorker.java:91-110 | the winners of a batch ranked from `c + 1` hold positions `c + 1`, `c + 2`, … all within the stock |
| `Pipeline.WinnersRankedAppend` | src/main/java/org/nextme/promotion_service/promotion/application/PromotionWorker.java:91-117 | saving such a batch keeps WON positions strictly increasing and within the stock and the moved counter |
| `Pipeline.WinnersRankedGrow` | src/main/java/org/nextme/promotion_service/promotion/application/PromotionWorker.java:91-96 | ranks drawn but never saved only raise the counter, which keeps winners ranked |
| `Pipeline.TickViewsAnyParse` | src/main/java/org/nextme/promotion_service/promotion/application/PromotionWorker.java:63-118 | under any parse, a tick saves the drain's batch or nothing, and leaves the counter past every rank drawn |
| `Pipeline.TickKeepsOwnSound` | src/main/java/org/nextme/promotion_service/promotion/application/PromotionWorker.java:63-118 | under any parse, a tick keeps its own promotion sound, whether its batch is saved or thrown away |
| `Pipeline.TickKeepsOtherSound` | src/main/java/org/nextme/promotion_service/promotion/application/PromotionWorker.java:63-118 | under any parse, a tick leaves other promotions' records and counters, so their soundness, alone |
| `Pipeline.TickKeepsSound` | src/main/java/org/nextme/promotion_service/promotion/application/PromotionWorker.java:63-118 | under any parse, a tick on a known promotion keeps the whole state sound |
| `Pipeline.TickEachKeepsSound` | src/main/java/org/nextme/promotion_service/promotion/application/PromotionWorker.java:39-61 | under any parse, a whole `processQueue` keeps the state sound |
| `Pipeline.PositionsAtLeastIndex` | src/main/java/org/nextme/promotion_service/promotion/application/PromotionWorker.java:91-110 | strictly increasing positions from 1 on are at least 1, 2, … |
| `Pipeline.SoundWithinStock` | src/main/java/org/nextme/promotion_service/promotion/application/PromotionWorker.java:91-117 | no oversell under any parse: a sound promotion has no more WON records than its stock, nor than ranks drawn |
| `Pipeline.RankedWinnersArePrefix` | src/main/java/org/nextme/promotion_service/promotion/application/PromotionWorker.java:100-107 | among records ranked from `c + 1` on, the winners are the prefix that the stock left allows |
| `Pipeline.WinnersWithinStock` | src/main/java/org/nextme/promotion_service/promotion/application/PromotionWorker.java:96-107 | in a consistent state the winners are the first `min(stock, n)` records, never more than the stock, at positions 1, 2, … without gaps |
| `Pipeline.RankedWinners` | src/main/java/org/nextme/promotion_service/promotion/application/PromotionWorker.java:96-107 | records ranked 1, 2, … have as winners their first records up to the stock, at positions 1, 2, … |
| `Pipeline.WinnersSortedByRank` | src/main/java/org/nextme/promotion_service/participation/application/ParticipationQueryService.java:56-57 | the winners' query returns the winners in rank order, unchanged by the sort |
| `Pipeline.DistinctUsersOneRecord` | src/main/java/org/nextme/promotion_service/participation/infrastructure/persistence/PromotionParticipationRepository.java:15 | records with pairwise different users hold at most one record per user |
| `Pipeline.OneRecordPerUser` | src/main/java/org/nextme/promotion_service/participation/application/ParticipationQueryService.java:39-41 | in a consistent state a user has at most one record per promotion, so the single-result lookup never meets two |
| `StatusReport.OfAsWritten` | src/main/java/org/nextme/promotion_service/promotion/presentation/dto/PromotionStatusResponse.java:11-25 | as written, the remaining stock is never negative |
| `StatusReport.RemainingExceedsStockAsWritten` | src/main/java/org/nextme/promotion_service/promotion/presentation/dto/PromotionStatusResponse.java:17 | a counter of 4294967295 narrows to -1, and a stock of 5 is reported with 6 remaining |
| `StatusReport.OfAgreesWithinIntRange` | src/main/java/org/nextme/promotion_service/promotion/presentation/dto/PromotionStatusResponse.java:17 | with counts in `int` range and a non-negative stock, the written and the corrected report agree |
| `StatusReport.Of` | src/main/java/org/nextme/promotion_service/promotion/presentation/dto/PromotionStatusResponse.java:11-25 | counts pass through; remaining stock lies between 0 and the stock, equals stock minus winners while they fit, and is 0 once they reach it |
| `Lifecycle.PromotionService.CreatePromotion` | src/main/java/org/nextme/promotion_service/promotion/application/PromotionService.java:33-47 | a new SCHEDULED promotion with the request's fields is saved under a fresh id; earlier rows unchanged |
| `Lifecycle.PromotionService.GetPromotion` | src/main/java/org/nextme/promotion_service/promotion/application/PromotionService.java:55-60 | the stored promotion, or PROMOTION_NOT_FOUND exactly when the id is unknown |
| `Lifecycle.PromotionService.StartPromotion` | src/main/java/org/nextme/promotion_service/promotion/application/PromotionService.java:68-76 | the promotion becomes ACTIVE whatever its status; every other promotion keeps its status; unknown id is NOT_FOUND |
| `Lifecycle.PromotionService.EndPromotion` | src/main/java/org/nextme/promotion_service/promotion/application/PromotionService.java:84-92 | the promotion becomes ENDED whatever its status; every other promotion keeps its status; unknown id is NOT_FOUND |
| `Lifecycle.PromotionService.GetPromotionStatus` | src/main/java/org/nextme/promotion_service/promotion/application/PromotionService.java:100-115 | the report of queue length, joined-set size and counter read from Redis with the promotion's stock, computed by `of` as written; it is the intended report while the counter fits an `int` and the stock is not negative; unknown id is NOT_FOUND |
| `Cache.IdsOf` | src/main/java/org/nextme/promotion_service/promotion/infrastructure/redis/PromotionCacheService.java:50-52 | one id per promotion, in order |
| `Cache.ActiveIdsAreTheActivePromotions` | src/main/java/org/nextme/promotion_service/promotion/infrastructure/redis/PromotionCacheService.java:43-61 | the loaded ids name only ACTIVE promotions, and every ACTIVE promotion |
| `Cache.ParseCachedIds` | src/main/java/org/nextme/promotion_service/promotion/infrastructure/redis/PromotionCacheService.java:32-38 | the cached elements read back as ids exactly when every element is one id text; an element holding a whole list makes `UUID.fromString` throw |
| `Cache.ParseTexts` | src/main/java/org/nextme/promotion_service/promotion/infrastructure/redis/PromotionCacheService.java:32-38 | ids cached one per element read back as the same ids |
| `Cache.PromotionCacheService.GetActivePromotionIds` | src/main/java/org/nextme/promotion_service/promotion/infrastructure/redis/PromotionCacheService.java:30-62 | as written: a non-empty cached list is parsed back; a miss answers the ACTIVE ids and pushes them as ONE list-valued element (the varargs overload of `rightPushAll`); a list of such elements stays so; cached copies stay coherent |
| `Cache.SecondListingThrows` | src/main/java/org/nextme/promotion_service/promotion/infrastructure/redis/PromotionCacheService.java:30-62 | with one ACTIVE promotion the first call answers its id and the second, a cache hit, throws |
| `Cache.PromotionCacheService.GetActivePromotionIdsPerId` | src/main/java/org/nextme/promotion_service/promotion/infrastructure/redis/PromotionCacheService.java:30-62 | as intended: a miss caches one element per id, and a coherent cache stays coherent and answers the current ACTIVE ids on every call |
| `Cache.PromotionCacheService.GetPromotion` | src/main/java/org/nextme/promotion_service/promotion/infrastructure/redis/PromotionCacheService.java:65-87 | a cached copy is returned; a miss loads, returns and caches the row, or returns null and caches nothing; a coherent cache stays coherent |
| `Cache.PromotionCacheService.EvictCache` | src/main/java/org/nextme/promotion_service/promotion/infrastructure/redis/PromotionCacheService.java:90-95 | the copy of the promotion and the active list are deleted, which restores coherence for a change to that promotion |
| `Cache.PromotionCacheService.EvictAllCache` | src/main/java/org/nextme/promotion_service/promotion/infrastructure/redis/PromotionCacheService.java:98-101 | only the active list is deleted; the copies stay |
| `Cache.StaleCopyAfterStart` | src/main/java/org/nextme/promotion_service/promotion/application/PromotionService.java:68-76 | starting a promotion without an eviction leaves the cache answering SCHEDULED while the repository holds ACTIVE |
| `Query.WinnerEntries` | src/main/java/org/nextme/promotion_service/participation/application/ParticipationQueryService.java:59-61 | one line per winner, in order, with its user and position |
| `Query.GetParticipationResult` | src/main/java/org/nextme/promotion_service/participation/application/ParticipationQueryService.java:35-44 | PROMOTION_NOT_FOUND for an unknown promotion; PARTICIPATION_NOT_FOUND exactly when the user has no record; the one matching record when there is exactly one; the non-unique failure exactly when there are two or more |
| `Query.GetWinners` | src/main/java/org/nextme/promotion_service/participation/application/ParticipationQueryService.java:52-62 | PROMOTION_NOT_FOUND exactly for an unknown promotion; otherwise the lines of the WON records of the promotion as the query sorts them by position, as many as there are winners and sorted |
| `Query.WinnerEntriesSorted` | src/main/java/org/nextme/promotion_service/participation/application/ParticipationQueryService.java:56-61 | lines built from records sorted by position are sorted by position |
| `Query.WinnersListIsFirstRanks` | src/main/java/org/nextme/promotion_service/participation/application/ParticipationQueryService.java:52-62 | in a consistent state the winners' list of a known promotion is its first records up to the stock, and line `i` holds position `i + 1` |
| `Detector.AlertsRaisedExactlyWhenExceeded` | src/main/java/org/nextme/promotion_service/monitoring/detector/AnomalyDetector.java:65-100 | each alert is raised exactly when its threshold is strictly exceeded (the pool's only for a pool with connections), and nothing else is raised |
| `Detector.AlertsInCheckOrder` | src/main/java/org/nextme/promotion_service/monitoring/detector/AnomalyDetector.java:65-100 | at most one alert of each kind, in the order CPU, memory, response time, pool |
| `Detector.CooldownAfterSend` | src/main/java/org/nextme/promotion_service/monitoring/detector/AnomalyDetector.java:112-123 | after a send, the type is held back exactly while fewer than `cooldownMinutes` full minutes have passed |
| `Detector.CooldownsAreSeparate` | src/main/java/org/nextme/promotion_service/monitoring/detector/AnomalyDetector.java:112-123 | a send for one alert type does not change the cooldown of any other type |
| `Detector.AnomalyDetector.constructor` | src/main/java/org/nextme/promotion_service/monitoring/detector/AnomalyDetector.java:35-51 | the configured thresholds, and no alert sent yet |
| `Detector.AnomalyDetector.CanSendAlert` | src/main/java/org/nextme/promotion_service/monitoring/detector/AnomalyDetector.java:112-123 | true exactly when the type is not in its cooldown, and then the send time is recorded; otherwise nothing changes |
| `Detector.AnomalyDetector.DetectAnomalies` | src/main/java/org/nextme/promotion_service/monitoring/detector/AnomalyDetector.java:57-109 | the alerts are those the thresholds call for; they are sent exactly when there is one and the "general" cooldown allows, which alone records the send |
| `Detector.HotCpuEveryFifteenMinutes` | src/main/java/org/nextme/promotion_service/monitoring/detector/AnomalyDetector.java:35-123 | with the default thresholds a hot CPU is reported at 0 s, held back at 899 s and reported again at 900 s |
| `Analyzer.ActionFor` | src/main/java/org/nextme/promotion_service/monitoring/analyzer/EnhancedAIAnalyzer.java:148-157 | cache keywords give CLEAR_REDIS_CACHE, else GC keywords FORCE_GC, else database keywords ADJUST_DB_POOL, else CLEAR_REDIS_CACHE, each as an if-and-only-if |
| `Analyzer.FallbackRuleFor` | src/main/java/org/nextme/promotion_service/monitoring/analyzer/EnhancedAIAnalyzer.java:167-201 | the fallback branch is chosen by the priority CPU > 80, memory > 85, active connections > 90% of the pool, mean time > 1000 ms, else default, each as an if-and-only-if |
| `Analyzer.FallbackActionByMetrics` | src/main/java/org/nextme/promotion_service/monitoring/analyzer/EnhancedAIAnalyzer.java:167-201 | the fallback asks for GC exactly on a hot CPU or full memory, and for the pool exactly when only the pool is nearly exhausted |
| `Analyzer.FallbackAgreesWithClassifier` | src/main/java/org/nextme/promotion_service/monitoring/analyzer/EnhancedAIAnalyzer.java:148-201 | the action each fallback branch sets is the one the keyword classifier gives its recommendation text |
| `Analyzer.LastTaggedIsLast` | src/main/java/org/nextme/promotion_service/monitoring/analyzer/EnhancedAIAnalyzer.java:119-128 | the part a section is read from carries the tag, and no later part carries it; there is none exactly when no part does |
| `Analyzer.TagsExclusive` | src/main/java/org/nextme/promotion_service/monitoring/analyzer/EnhancedAIAnalyzer.java:120-125 | no part starts with two of the three tags, so the branch order does not matter |
| `Analyzer.CutSection` | src/main/java/org/nextme/promotion_service/monitoring/analyzer/EnhancedAIAnalyzer.java:121-123 | on a part without '[', cutting at '[' after removing the tag changes nothing: the section is the tag-free part, trimmed |
| `Analyzer.ReadPartsAreLastSections` | src/main/java/org/nextme/promotion_service/monitoring/analyzer/EnhancedAIAnalyzer.java:119-128 | after the loop each section holds the text of the last part with its tag, and the action is the classification of that recommendation |
| `Analyzer.ParseAnalysisResponse` | src/main/java/org/nextme/promotion_service/monitoring/analyzer/EnhancedAIAnalyzer.java:107-146 | the loop computes `Parse`: the last section per tag, and the fallback when the recommendation is empty |
| `Analyzer.TagValueOfTaggedPart` | src/main/java/org/nextme/promotion_service/monitoring/analyzer/EnhancedAIAnalyzer.java:121-126 | a section reads as the text after its tag, trimmed |
| `Analyzer.NoRecommendationFallsBack` | src/main/java/org/nextme/promotion_service/monitoring/analyzer/EnhancedAIAnalyzer.java:130-133 | a reply without a recommendation section gives the fallback analysis for the current metrics |
| `Analyzer.ActionMatchesRecommendation` | src/main/java/org/nextme/promotion_service/monitoring/analyzer/EnhancedAIAnalyzer.java:119-209 | whatever the reply, the result's recommendation is non-empty and its action is the classification of that recommendation |

## Left out

- **Concurrency.** Redis and the database are modelled as one sequential state. Two joins of one user racing between SADD and RPUSH, or two workers popping one queue, are not modelled. Each Redis command is atomic, and each method is one sequence of them.
- **Redis TTLs and transactions.** `expire` and the cache TTL of 5 minutes are not modelled, so a cached copy or list lives until evicted. The pipeline of `addParticipantWithPipeline` is modelled as its three commands in order.
- **Time.**
  - `LocalDateTime.now()` is a parameter: the timestamp text of a join, and `now` in seconds elsewhere.
  - The fresh UUID of `createPromotion` is a parameter.
  - `canSendAlert` reads the clock twice. The model reads it once as `now`, in whole seconds.
- **Failed parses.** `Long.parseLong` on a UUID, and any other parse of the user id, is the parameter `parse`. When it fails the source throws: the batch so far is not saved, while the entries already popped and the ranks already drawn stay consumed. The model keeps exactly that outcome, not the exception object.
- **Other exceptions and logging.** Beyond the error codes, exceptions are modelled as outcomes only, and the log lines are left out. `processQueue` catches an exception per promotion, and the model continues with the next promotion.
- **`PromotionJoinResponse` and `ParticipationResultResponse`.** These are not modelled beyond the position and the record they carry.
- **Java doubles.** The metric values are exact reals, so rounding in `> 0.9 * max` and in the percentage is not modelled. The alert message texts, `String.format` of figures and the Slack sending (`sendUrgentAlert`) are left out.
- **`EnhancedAIAnalyzer`, outside the parsing.**
  - The LLM call, the prompt building and the history statistics are left out.
  - A null reply (caught as an exception) is left out: the reply is a string.
  - The fallback's explanatory `analysis` and `reason` sentences are left out. `Fallback(rule)` records which branch applied, together with its recommendation and action.
- Cache.PromotionCacheService.GetActivePromotionIdsPerId: An id text parsed back with `UUID.fromString` is taken to give the same id, since ids are UUID texts on both sides; the canonical form of a UUID text is not modelled.
- Query.GetParticipationResult: Two records for one user, on which the single-result query throws, are a separate outcome (`NonUniqueResult`), not the exception object. `Pipeline.OneRecordPerUser` shows that this cannot happen in a consistent state.
- Pipeline.TickKeepsConsistent: Holds only for a `parse` that reads user ids back, and so do `TickKeepsOwn` and `TickEachKeepsConsistent`. `Long.parseLong` on a UUID does not. For any parse only the weaker `Pipeline.Sound` is proved (`TickEachKeepsSound`, `SoundWithinStock`).
- **Listing order.** `findByStatus` leaves the order of its rows to the database. The model lists them in saving order, and the worker's visit order (`Resolution.Targets`) and the ids a listing answers inherit that order.
- Errors.HttpStatus: States only the 4xx range. `PARTICIPATION_NOT_FOUND` is not declared by `PromotionErrorCode`, so its 404 is this model's choice.
- **Sorting.** `findByPromotionAndStatusOrderByQueuePositionAsc` sorts by position and keeps saving order among equal keys. The database's own order among equal keys is not specified.

## Findings

The service members follow the code as written: `JoinPromotion` uses `GetClientIpAsWritten` and `MaxQueueSizeAsWritten`, and `GetPromotionStatus` uses `OfAsWritten`. `Cache.PromotionCacheService.GetActivePromotionIds` pushes the id list as written. The corrected members state the intended behaviour. `GetClientIpAsWrittenAgrees`, `MaxQueueSizeAsWritten` and `OfAgreesWithinIntRange` prove that both agree outside the inputs below.

| source | as written | input that shows it | evidently intended | confidence | as-written member | corrected member |
|---|---|---|---|---|---|---|
| src/main/java/org/nextme/promotion_service/promotion/application/PromotionParticipationService.java:62 | `totalStock * QUEUE_SIZE_MULTIPLIER` is an `int` product, which wraps | `totalStock = 429496730`: the cap becomes negative and every join is QUEUE_FULL | a cap of five entries per unit of stock | not executed | `Admission.QueueCapWrapsNegative` | `Admission.MaxQueueSize` |
| src/main/java/org/nextme/promotion_service/promotion/application/PromotionParticipationService.java:101-103 | `ip.split(",")[0]` on a value made only of commas: `split` drops all trailing empty strings and returns an empty array | header `X-Forwarded-For: ,`: the index throws, and the join fails with a server error | the text before the first comma, trimmed (here the empty string) | not executed | `Admission.LoneCommaHeaderThrows` | `Admission.GetClientIp` |
| src/main/java/org/nextme/promotion_service/promotion/presentation/dto/PromotionStatusResponse.java:17 | `winnerCount.intValue()` keeps the low 32 bits of the `Long` counter | counter 4294967295 with stock 5: the count reads as -1 and 6 remain | `max(0, stock - winners)` on the full count | not executed | `StatusReport.RemainingExceedsStockAsWritten` | `StatusReport.Of` |
| src/main/java/org/nextme/promotion_service/promotion/infrastructure/redis/PromotionCacheService.java:54 | `rightPushAll(ACTIVE_LIST_KEY, promotionIds)` on a `RedisTemplate<String, Object>`: a `List<String>` is no `Collection<Object>`, so the varargs overload pushes the whole list as one element | one ACTIVE promotion, `getActivePromotionIds()` called twice within the TTL: the second call maps `UUID.fromString("[…]")` and throws | one element per id, so a hit returns the cached ids | not executed | `Cache.SecondListingThrows` | `Cache.PromotionCacheService.GetActivePromotionIdsPerId` |
