# Verification of the cache, the JSON mapping and ParallelFor

A Dafny model of the core of `cpp_lib`, with proofs. `dafny verify dfyconfig.toml` checks all of it.

## What is modelled

**The concurrent LRU cache** (`cpp_lib/cache/concurrent_lru_cache.h`) is modelled twice.

*As a step machine*, for any number of threads. `LruProtocol.dfy` breaks `insert`, `find`, `snapshot_keys` and `evict`
into their shared accesses: taking an accessor, the list mutex or the evict flag, one critical section of the list, one
access to the hash map, one change of the counter. `Exec` is one step of one thread, a blocked lock request is a disabled
step, and a run is any sequence of steps. TBB's hash map is represented by its contract: insert, find and erase are atomic,
and each entry has a reader/writer lock. Each operation records in a history what it did to the map, at the step where it
did so. The other files state and prove:

- `LruInvariant`, `LruShape`, `LruAccounts`, `LruHistory`: the invariant that the code leaves unsaid, one part a file (locks;
  map against list; node lifetimes and counter; history), and that every step of every thread keeps it;
- `LruSafety`: what it implies about map, list, counter, evictor and deleted nodes;
- `LruRaces`: no two threads are ever about to touch the same unprotected memory, one of them writing; this is why a
  critical section may be one step;
- `LruRemoval`: one removal for overload from its first step to its last, with anything in between;
- `LruRefinement`: the history is one of a plain map with set, get and spontaneous erasure, and each operation has its one
  effect while it runs;
- `LruProgress`: locking discipline, freedom from deadlock, and that operations finish.

*As a heap class*, for one thread. `LruHeap.dfy` has real `ListNode` objects and the pointer surgery of `delink` and
`push_front`; `evict` runs inside `insert`, as under `TEST_MODE`. Every method is proved against a function on the sequence
of items, most recent first (`LruModel.dfy`). The clock is an arbitrary function from the number of the reading to the time,
so that theorems hold for every clock unless they ask for one that does not go back. `LruSequential`, `LruExpiry` and
`LruBatch` prove what sequential runs promise: which keys are in the list, what a batch writes, timestamps, capacity, and that
removal for timeout is invisible. `LruAnswers` says in numbers until when a value is found and how much a pass takes.

*The two agree.* `LruSolo`, `LruSoloEvict` and `LruSoloRuns` prove that a thread of the step machine which runs alone does to
the items exactly what the specification of the heap class says, at the same clock readings, and extend this to whole
histories. What is proved of sequential runs thus holds of those runs of the machine.

**The sharded cache and its facade**: `ShardModel` (capacity split, one map out of many shards), `ScalableHeap` (the class,
with its loops over the shards) and `LruFacade` (`get`, `mget`, `set`, `mset`). `Arithmetic` has what is needed of remainders.

**The typed JSON mapping** (`cpp_lib/serialize/json.h`): `JsonModel` has the document tree (objects as in section 4 of
RFC 8259, arrays as in section 5), a universe of types (integers of eight widths, bool, string, structs with renamed fields,
string-keyed maps, vectors) and `Serialize` and `Parse` as functions; a failed assertion of rapidjson is `None`. `JsonInPlace`
has them as the loops and in-place updates that they are, proved equal to those functions. `JsonRoundTrip` proves exactly
when one undoes the other. `JsonTrees` is about the trees themselves: the one that stands for a value, those that a type can
read, and what is left behind where reading fails. Macros name the functions with the prefix `kcfg::`, which is read as the file's own namespace.

**ParallelFor** (`cpp_lib/coro/coro.cc`): the loop in the arithmetic of `size_t` (`ParallelFor`), when it ends at all
(`ParallelForEnds`), and caller and tasks as a machine whose steps interleave (`ParallelForRuns`); and
**UpperPowerOfTwo** (`cpp_lib/util/math/math.cc`), on 32-bit words.

## What came out

- The branch marked "Presumably unreachable" in `remove_node` is unreachable (`LruSafety.EvictorFindsItsEntry`).
- `find` does not touch the recency list; the comment at `concurrent_lru_cache.h:113` says that it does. Recency is that of
  writes, and the model follows the code.
- `size()` is documented as possibly too low. It can also be one too high, while the evictor is between erasing an entry and
  counting it off: `LruSoloRuns.CanCountOneTooMany` reaches such a state, `LruSafety.CounterConserved` says exactly by how much
  the counter is off.
- A batch insert can leave the cache above its maximum (`LruBatch.BatchCanOverflow`). It does so exactly if the old contents
  overridden by the data exceed the maximum by more than one pass can take, for either type, any timeout and any clock
  (`LruBatch.BatchInsertCapacity`).
- The `uint8_t` overload of `Parse` goes through a signed number and checks the upper bound alone, so that -1 is read as 255
  (`JsonRoundTrip.NegativeByteWraps`); all other overloads refuse what does not fit
  (`JsonRoundTrip.NumberReadExactlyIfInRange`).
- The JSON round trip needs distinct, non-empty field names, and map keys that are non-empty and free of NUL. Both
  conditions are shown to be necessary.
- `ParallelFor` goes wrong exactly when there is something to cut and the partition size is zero, or the end of the last
  partition, taken whole, does not fit into `size_t`. Then it calls for some number twice (`ParallelForEnds.CanCoverTwice`) or
  does not return (`ParallelForEnds.CanRunForEver`). `ParallelForRuns.ReturnsWhenAllIsDone` and
  `ParallelForEnds.ReturnsExactly` give the conditions for both.

## Model

| member | source | states |
|---|---|---|
| LruHistory.InvStep | cpp_lib/cache/concurrent_lru_cache.h:251-478 | any step of any thread keeps the whole invariant: accessors, list mutex, evict flag, map against list, node lifetimes, counter, evictor's guard, history |
| LruHistory.InvReachable | cpp_lib/cache/concurrent_lru_cache.h:251-478 | so it holds in every reachable state, for any number of threads and any schedule |
| LruInvariant.AccessorStep | cpp_lib/cache/concurrent_lru_cache.h:281-311 | an entry's lock always names exactly the threads that stand where the code holds that accessor |
| LruInvariant.DeltaStep | cpp_lib/cache/concurrent_lru_cache.h:286-307 | a step moves its own thread only, and takes or gives up list mutex and evict flag only where the code does |
| LruShape.ShapeStep | cpp_lib/cache/concurrent_lru_cache.h:279-311 | every step keeps: each entry is being filled or its node is about to be linked, listed or delinked by the evictor; each listed node is the one its entry stores; listed keys are distinct |
| LruAccounts.LifeStep | cpp_lib/cache/concurrent_lru_cache.h:295-308 | every step keeps: no entry's node is deleted, and the node about to be deleted is stored nowhere |
| LruAccounts.CountStep | cpp_lib/cache/concurrent_lru_cache.h:301-308 | every step keeps the two balances of the counter, against the map and against the list |
| LruAccounts.GuardStep | cpp_lib/cache/concurrent_lru_cache.h:458-476 | from its test until it decrements, the evictor's overload removal sees a counter above the maximum, whatever other threads do; rounds stay within 64 |
| LruSafety.MapIsListPlusInFlight | cpp_lib/cache/concurrent_lru_cache.h:279-311 | in every reachable state the map's keys are the disjoint union of keys not yet linked, listed keys and at most one key whose node the evictor has delinked |
| LruSafety.ListedNodesAreStored | cpp_lib/cache/concurrent_lru_cache.h:286-307 | listed keys are distinct, and each listed node is the one that its key's entry stores |
| LruSafety.EvictorFindsItsEntry | cpp_lib/cache/concurrent_lru_cache.h:419-424 | the evictor always finds the entry of the node it has delinked, with that very node: the early return is unreachable |
| LruSafety.OneEvictor | cpp_lib/cache/concurrent_lru_cache.h:451-457 | at most one thread is inside `evict`, and the flag is up exactly while one is |
| LruSafety.OverloadRemovalCompletes | cpp_lib/cache/concurrent_lru_cache.h:399-428 | in a removal for overload the list is non-empty and every step goes on to the next, under any concurrent inserts |
| LruRemoval.OverloadRemovalTakesOne | cpp_lib/cache/concurrent_lru_cache.h:399-428 | over a whole removal for overload, whatever others do meanwhile: of its own steps exactly one takes an entry out of the map, and the counter ends at the maximum or above |
| LruSafety.CounterConserved | cpp_lib/cache/concurrent_lru_cache.h:305-308 | counter plus inserts not yet counted is the map's size, plus one while the evictor is between erase and decrement |
| LruSafety.CounterNeverUnderflows | cpp_lib/cache/concurrent_lru_cache.h:424-427 | the unsigned counter is never negative, and positive before every decrement |
| LruSafety.CounterWithinList | cpp_lib/cache/concurrent_lru_cache.h:301-308 | in every reachable state in which the evictor has no node in hand the counter does not exceed the list's length, the reason the comment gives for linking before counting |
| LruRaces.RaceFree | cpp_lib/cache/concurrent_lru_cache.h:281-307 | in every reachable state, what one thread is about to write, of links, timestamps, map values or nodes, no other is about to read or write |
| LruSafety.QuiescentAgrees | cpp_lib/cache/concurrent_lru_cache.h:279-311 | with no operation in flight counter, map and list have one size, and map and list the same keys |
| LruSafety.QuiescentUnlocked | cpp_lib/cache/concurrent_lru_cache.h:279-311 | with no operation in flight no lock is held and the flag is down |
| LruSafety.NoUseAfterDelete | cpp_lib/cache/concurrent_lru_cache.h:416-426 | no node that a thread can reach by list, entry or own variable has been deleted; none is deleted twice |
| LruSafety.DetachRetires | cpp_lib/cache/concurrent_lru_cache.h:416-417 | what the evictor takes out of the list is its last node, retired from then on |
| LruSafety.RetiredForever | cpp_lib/cache/concurrent_lru_cache.h:287-293 | through every later step of every run a retired node stays out of the list, thanks to the `is_in_list` test under the lock |
| LruRefinement.RefinesPlainMap | cpp_lib/cache/concurrent_lru_cache.h:251-311 | every reachable history is legal for a plain map with set, get and spontaneous erasure, and the entries with a value are what replaying it gives |
| LruRefinement.ReplayIsLatestChange | cpp_lib/cache/concurrent_lru_cache.h:118-126 | what that map holds for a key is the latest set with no erasure since |
| LruRefinement.HitReturnsLatestSet | cpp_lib/cache/concurrent_lru_cache.h:251-263 | a `find` that hits returns the value of the latest set of the key with no erasure in between, also when a set races with an eviction that has delinked the node |
| LruRefinement.MissMeansErased | cpp_lib/cache/concurrent_lru_cache.h:251-255 | a miss on a key that was ever changed means that the latest change was its erasure |
| LruRefinement.OperationTakesEffectOnce | cpp_lib/cache/concurrent_lru_cache.h:251-311 | in any run each finished set or get has exactly one effect, its own, strictly between its first and last step |
| LruRefinement.ReaderChecksExactly | cpp_lib/cache/concurrent_lru_cache.h:256-262 | in every reachable state a reader at its expiry test goes on to the value if and only if there is no timeout, or the reading is at most that after the node's stamp |
| LruRefinement.EvictorChecksExactly | cpp_lib/cache/concurrent_lru_cache.h:408-415 | in every reachable state the evictor goes on to remove for timeout, and then removes, if and only if the reading is more than the timeout after the last node's stamp |
| LruProgress.OneAccessorEach | cpp_lib/cache/lru_cache.h:53-89 | a thread holds at most one accessor, and none while it asks for one |
| LruProgress.MutexHeldOnlyBriefly | cpp_lib/cache/concurrent_lru_cache.h:286-307 | who holds the list mutex, shared or not, is waiting neither for an accessor nor for the mutex |
| LruProgress.ReadersWaitForWriters | cpp_lib/cache/concurrent_lru_cache.h:373-436 | in every reachable state a blocked find waits for one who writes its entry, a blocked snapshot or expiry test for one who changes the list: readers never wait for readers |
| LruProgress.DeadlockFree | cpp_lib/cache/concurrent_lru_cache.h:281-307 | in every reachable state with unfinished operations one of them can take a step |
| LruProgress.RankDrops | cpp_lib/cache/concurrent_lru_cache.h:451-478 | every step of an unfinished operation lowers its thread's rank: none stands still |
| LruProgress.OwnStepsBounded | cpp_lib/cache/concurrent_lru_cache.h:251-478 | in any run, with any other operations under way or beginning, no operation takes more than a fixed number of steps of its own |
| LruProgress.EveryOperationFinishes | cpp_lib/cache/concurrent_lru_cache.h:251-478 | once no operation begins any more, a run is no longer than the ranks add up to, and when nobody can move all have finished |
| LruHeap.ConcurrentLRUCache.constructor | cpp_lib/cache/concurrent_lru_cache.h:236-248 | an empty, well-formed cache on fresh nodes |
| LruHeap.ConcurrentLRUCache.Find | cpp_lib/cache/concurrent_lru_cache.h:250-263 | the value, unless missing or expired at the one reading taken; the list stays as it is |
| LruHeap.ConcurrentLRUCache.SetEntry | cpp_lib/cache/concurrent_lru_cache.h:278-311 | the key's item, freshly stamped, is in front, the others keep their order; map, list and counter agree again |
| LruHeap.ConcurrentLRUCache.Delink | cpp_lib/cache/concurrent_lru_cache.h:380-387 | removes exactly its node, from any position; forward and backward links stay mirror images |
| LruHeap.ConcurrentLRUCache.PushFront | cpp_lib/cache/concurrent_lru_cache.h:389-396 | puts its node first; forward and backward links stay mirror images |
| LruHeap.ConcurrentLRUCache.RemoveNode | cpp_lib/cache/concurrent_lru_cache.h:398-428 | removes the last item from list, map and counter, unless there is none or it has to be expired and is not |
| LruHeap.ConcurrentLRUCache.IsLastNodeTimeout | cpp_lib/cache/concurrent_lru_cache.h:430-449 | whether the last item is expired, with a clock reading only if there is a timeout and an item |
| LruHeap.ConcurrentLRUCache.Evict | cpp_lib/cache/concurrent_lru_cache.h:451-478 | the eviction pass of the specification, of either type; nothing if the flag is up |
| LruHeap.ConcurrentLRUCache.Insert | cpp_lib/cache/concurrent_lru_cache.h:313-325 | the write, then one pass |
| LruHeap.ConcurrentLRUCache.InsertBatch | cpp_lib/cache/concurrent_lru_cache.h:340-352 | the writes, in the order of iteration, then one pass |
| LruHeap.ConcurrentLRUCache.SnapshotKeys | cpp_lib/cache/concurrent_lru_cache.h:369-378 | appends the keys, most recently written first |
| LruHeap.ConcurrentLRUCache.Size | cpp_lib/cache/concurrent_lru_cache.h:149-153 | the number of items |
| LruHeap.ConcurrentLRUCache.Clear | cpp_lib/cache/concurrent_lru_cache.h:354-367 | empties map, list and counter and deletes every node between the sentinels |
| LruSequential.LookupAfterSetEntry | cpp_lib/cache/concurrent_lru_cache.h:279-311 | after a write the key has the new value and stamp, and every other key what it had |
| LruSequential.EvictWithoutTimeout | cpp_lib/cache/concurrent_lru_cache.h:458-471 | without timeout a pass drops the excess from the end, at most one item or 64 |
| LruSequential.HistoryCharacterised | cpp_lib/cache/concurrent_lru_cache.h:279-325 | after any sequence of inserts without timeout the list is the first `m_max_size` elements of all keys ever written, by recency |
| LruSequential.RecentIsByLastWrite | cpp_lib/cache/concurrent_lru_cache.h:118-126 | that list holds exactly the keys written, each with its latest value and stamp, in the order of their last writes, latest first |
| LruSequential.SmallerCacheIsPrefix | cpp_lib/cache/concurrent_lru_cache.h:458-462 | on the same inserts a smaller cache's list is a prefix of a larger one's |
| LruExpiry.EvictLeavesPrefix | cpp_lib/cache/concurrent_lru_cache.h:466-476 | under any clock a pass leaves a prefix of the list, and drops at most 64 items, or two for the other type |
| LruExpiry.BatchEvictCompletes | cpp_lib/cache/concurrent_lru_cache.h:466-476 | on any list in timestamp order, a batch pass that drops fewer than 64 ends within the maximum and with no item expired at its last reading |
| LruExpiry.TimeoutEvictionInvisible | cpp_lib/cache/concurrent_lru_cache.h:408-415 | for every key and any later reading `find` answers as if the pass had not removed for timeout at all |
| LruExpiry.InsertKeepsCapacity | cpp_lib/cache/concurrent_lru_cache.h:458-471 | a synchronous insert into a cache within its maximum ends within it, for either type, any clock, any timeout |
| LruExpiry.PassCapacity | cpp_lib/cache/concurrent_lru_cache.h:458-476 | exactly when an eviction pass ends within the maximum, for either type, any timeout and any clock |
| LruAnswers.FoundExactlyUntil | cpp_lib/cache/concurrent_lru_cache.h:256-262 | a value is found if and only if its key is there and there is no timeout, or the reading is at most `timeout` after its stamp |
| LruAnswers.LastTestedExactly | cpp_lib/cache/concurrent_lru_cache.h:430-449 | the last item counts as expired if and only if there is a timeout and the reading is more than that after its stamp |
| LruAnswers.RemovedExactly | cpp_lib/cache/concurrent_lru_cache.h:402-417 | a removal takes the last item unless there is none, or it has to be and is not more than `timeout` old at the removal's own reading |
| LruAnswers.InsertThenFind | cpp_lib/cache/concurrent_lru_cache.h:313-325 | after an insert, a find at any later reading hits its key if and only if the cache may hold anything, until `timeout` after the insert's reading |
| LruAnswers.InsertAndFind | cpp_lib/cache/concurrent_lru_cache.h:251-325 | the same of the heap class, an insert followed by a find |
| LruAnswers.FoundAtTen | cpp_lib/cache/concurrent_lru_cache.h:256-262 | with a timeout of 10, what is written at 100 is found at 110 and not at 111 |
| LruAnswers.PassTakesExactly | cpp_lib/cache/concurrent_lru_cache.h:458-471 | without timeout a pass takes what is too many, but no more than 64 items, or one for the other type |
| LruAnswers.PassTakesAtMost | cpp_lib/cache/concurrent_lru_cache.h:466-476 | with a timeout, both loops of a batch pass together take at most 64 items |
| LruAnswers.HundredAndSixtyFour | cpp_lib/cache/concurrent_lru_cache.h:466-471 | a batch of 164 new keys into an empty batch cache of 100 leaves 100, one of 165 leaves 101 |
| LruBatch.SetAllSize | cpp_lib/cache/concurrent_lru_cache.h:341-346 | before eviction, a batch has turned the map into the map overridden by its data, one item an entry |
| LruBatch.SetAllIs | cpp_lib/cache/concurrent_lru_cache.h:341-346 | and the list into the new items, last written first, each with its own reading, followed by the others in their order |
| LruBatch.BatchOverrides | cpp_lib/cache/concurrent_lru_cache.h:341-346 | in whatever order a batch is iterated, its entries override what was there and nothing else changes |
| LruBatch.BatchInsertCapacity | cpp_lib/cache/concurrent_lru_cache.h:327-338 | for either type, any timeout and any clock, a batch insert ends within the maximum if and only if the map overridden by the data exceeds it by no more than one pass can drop, or by one more whose item a single pass finds expired |
| LruBatch.BatchCanOverflow | cpp_lib/cache/concurrent_lru_cache.h:327-338 | a batch of two into an empty cache of size 0 leaves one behind |
| LruBatch.FindAfterBatch | cpp_lib/cache/concurrent_lru_cache.h:256-262 | after a batch that does not exceed the maximum, with any timeout, `find` at any later reading answers as on the items overridden by the data |
| LruBatch.RunsAreAged | cpp_lib/cache/concurrent_lru_cache.h:289-307 | under a clock that does not go back, after any mixture of inserts, batch inserts and clears, timestamps never increase from head to tail, nor exceed the clock |
| LruBatch.BatchPassCompletes | cpp_lib/cache/concurrent_lru_cache.h:466-476 | in any such run, the batch pass of an insert leaves a prefix and drops at most 64 items; if fewer, it ends within the maximum and with no item expired at its last reading |
| LruSolo.SoloSet | cpp_lib/cache/concurrent_lru_cache.h:278-311 | in the step machine a set that runs alone ends idle, with the items that the specification of `set_entry` gives, after one clock reading |
| LruSoloEvict.SoloRemove | cpp_lib/cache/concurrent_lru_cache.h:398-428 | likewise for `remove_node`, with and without the timeout check |
| LruSoloEvict.SoloEvict | cpp_lib/cache/concurrent_lru_cache.h:451-478 | likewise for `evict` of either type, through all rounds of its loops |
| LruSoloRuns.SoloGet | cpp_lib/cache/concurrent_lru_cache.h:250-263 | a `find` that runs alone reports hit, miss or expiry as specified and changes nothing |
| LruSoloRuns.SoloInsert | cpp_lib/cache/concurrent_lru_cache.h:313-325 | from any reachable state at rest, a set by one thread and then an `evict` by any thread reach one with the items of the sequential insert |
| LruSoloRuns.HistoryReached | cpp_lib/cache/concurrent_lru_cache.h:313-325 | any sequence of inserts, one after the other, by whichever threads, takes the machine from its initial state to the items of the sequential history |
| LruSoloRuns.CanCountOneTooMany | cpp_lib/cache/concurrent_lru_cache.h:424-427 | a reachable state in which `size()` exceeds the size of the map by one |
| ShardModel.CapacitySumsUp | cpp_lib/cache/concurrent_scalable_cache.h:119-125 | the shards' capacities sum up to the whole if and only if there is a shard, or nothing to split |
| ShardModel.LowHashesFirst | cpp_lib/cache/concurrent_scalable_cache.h:129-134 | a hash below 2^48 goes to shard 0 |
| ShardModel.UpperBitsDecide | cpp_lib/cache/concurrent_scalable_cache.h:129-134 | hashes that differ in their lower 48 bits alone go to one shard |
| ShardModel.NextShard | cpp_lib/cache/concurrent_scalable_cache.h:129-134 | a hash greater by 2^48 goes one shard on, round and round |
| ShardModel.TwoKeysTwoShards | cpp_lib/cache/concurrent_scalable_cache.h:119-151 | in two shards of one entry each, keys with hashes 0 and 2^48 are both there after setting both |
| ShardModel.LookupInUnion | cpp_lib/cache/concurrent_scalable_cache.h:129-146 | looking up in the one shard of the key's index is looking up in all shards together |
| ShardModel.FindInUnion | cpp_lib/cache/concurrent_scalable_cache.h:144-146 | and so is finding, with its expiry test |
| ShardModel.UnionDistinct | cpp_lib/cache/concurrent_scalable_cache.h:176-180 | no key is in two shards: a snapshot has no duplicates |
| ShardModel.TotalSizeIsMapSize | cpp_lib/cache/concurrent_scalable_cache.h:183-189 | the summed sizes are the size of the one map |
| ShardModel.InsertKeepsPlaced | cpp_lib/cache/concurrent_scalable_cache.h:149-151 | an insert keeps every key in the shard of its index, and keys distinct |
| ShardModel.InsertRefinesOneMap | cpp_lib/cache/concurrent_scalable_cache.h:149-151 | a single insert turns map m into a part of m with the key set; without timeout into all of it if and only if the key's shard has room |
| ShardModel.SetThenGet | cpp_lib/cache/lru_cache.h:59-94 | after a set into shards within their shares, a get at any later reading hits the key if and only if its shard may hold anything, until `timeout` after the set's reading |
| ShardModel.TotalNeverExceedsMaximum | cpp_lib/cache/concurrent_scalable_cache.h:149-151 | after any sequence of synchronous single inserts from empty, of either type, the total size is within the maximum, and each shard within its share |
| ShardModel.BatchKeepsPlaced | cpp_lib/cache/concurrent_scalable_cache.h:154-166 | a batch insert keeps every key in the shard of its index |
| ShardModel.BatchInsertRefinesOneMap | cpp_lib/cache/concurrent_scalable_cache.h:154-166 | in any iteration order a batch turns map m into a part of m overridden by the data; without timeout into all of it if and only if every shard has room for what it holds overridden by its part |
| ShardModel.FindAfterBatchInsert | cpp_lib/cache/concurrent_scalable_cache.h:154-166 | with any timeout, if every shard has room, `find` at any later reading answers as on m overridden by the data, each new value as old as one of the batch's own readings |
| ShardModel.ShardCapacityAfter | cpp_lib/cache/concurrent_lru_cache.h:458-476 | exactly when a shard is left within its share by its part of a batch, for either type, any timeout and any clock |
| ScalableHeap.ConcurrentScalableCache.constructor | cpp_lib/cache/concurrent_scalable_cache.h:112-126 | as many empty shards as asked for, or as the hardware has threads, each with its share |
| ScalableHeap.ConcurrentScalableCache.GetShardInd | cpp_lib/cache/concurrent_scalable_cache.h:129-134 | the index that the three lemmas on hashes characterise, which is that of a shard |
| ScalableHeap.ConcurrentScalableCache.Find | cpp_lib/cache/concurrent_scalable_cache.h:144-146 | answers as one cache holding all shards' items would |
| ScalableHeap.ConcurrentScalableCache.Insert | cpp_lib/cache/concurrent_scalable_cache.h:149-151 | changes the shard of the key's index as a single cache would, and no other |
| ScalableHeap.ConcurrentScalableCache.InsertBatch | cpp_lib/cache/concurrent_scalable_cache.h:154-166 | shard after shard takes exactly its part of the data, in some order, from the reading at which the one before left off; shards without a part stay as they are |
| ScalableHeap.ConcurrentScalableCache.Size | cpp_lib/cache/concurrent_scalable_cache.h:183-189 | the sum of the shards' sizes |
| ScalableHeap.ConcurrentScalableCache.SnapshotKeys | cpp_lib/cache/concurrent_scalable_cache.h:176-180 | appends the keys of all shards, shard after shard |
| ScalableHeap.ConcurrentScalableCache.Clear | cpp_lib/cache/concurrent_scalable_cache.h:169-173 | every shard is empty |
| LruFacade.LRUCache.constructor | cpp_lib/cache/lru_cache.h:47-50 | an empty cache of as many shards as asked for, or as the hardware has threads, even none |
| LruFacade.LRUCache.Get | cpp_lib/cache/lru_cache.h:53-56 | whether the key is there and not expired |
| LruFacade.LRUCache.GetValue | cpp_lib/cache/lru_cache.h:59-66 | likewise, with its value; on a miss the caller's variable stays as it was |
| LruFacade.LRUCache.MGetMissing | cpp_lib/cache/lru_cache.h:69-75 | appends the keys that miss, each at its own clock reading |
| LruFacade.LRUCache.MGet | cpp_lib/cache/lru_cache.h:78-89 | likewise, and adds the values of those that hit, keeping values that were there |
| LruFacade.LRUCache.Set | cpp_lib/cache/lru_cache.h:92-94 | one sharded insert |
| LruFacade.LRUCache.MSet | cpp_lib/cache/lru_cache.h:97-99 | one sharded batch insert |
| LruFacade.LRUCache.Size | cpp_lib/cache/lru_cache.h:38 | the number of entries of the one map |
| LruFacade.BatchGetIsComplete | cpp_lib/cache/lru_cache.h:78-89 | under any clock each key asked for ends up among values or misses, nothing else does, old values and misses stay, and new values are the cache's |
| LruFacade.BatchGetsAgree | cpp_lib/cache/lru_cache.h:69-89 | both overloads find the same keys missing |
| LruFacade.BatchGetAtOneReading | cpp_lib/cache/lru_cache.h:78-89 | with no timeout, or while the clock stands, values are exactly those of the keys that single gets find, and misses the others, in order |
| JsonInPlace.Tree.Add | cpp_lib/serialize/json.h:372-384 | replaces, appends or adds a member, or fails rapidjson's assertion and changes nothing |
| JsonInPlace.SerializeInto | cpp_lib/serialize/json.h:385-533 | all overloads: updates the tree in place to what the specification says, or fails exactly when it does |
| JsonInPlace.WriteToJson | cpp_lib/serialize/json.h:1447-1457 | a struct's fields one after the other, under their mapped names |
| JsonInPlace.WriteMap | cpp_lib/serialize/json.h:490-513 | the loop over a map, in any order of iteration, with defaults written |
| JsonInPlace.WriteVector | cpp_lib/serialize/json.h:524-533 | the loop over a vector, with defaults written |
| JsonInPlace.ParseInto | cpp_lib/serialize/json.h:45-288 | all overloads: answer and variable afterwards are as specified, on failure too |
| JsonInPlace.PraseFromJson | cpp_lib/serialize/json.h:1451-1455 | each field is parsed in place, whatever became of those before |
| JsonInPlace.ParseMap | cpp_lib/serialize/json.h:220-267 | the loop over an object's members: it stops at the first that fails and keeps what it has read |
| JsonInPlace.ParseVector | cpp_lib/serialize/json.h:268-288 | the loop over an array, likewise |
| JsonRoundTrip.NumberReadExactlyIfInRange | cpp_lib/serialize/json.h:102-205 | a number is read as itself if and only if the type can hold it; what is read is always in range; what cannot be held is refused, except negative numbers by `uint8_t` |
| JsonRoundTrip.NegativeByteWraps | cpp_lib/serialize/json.h:194-205 | -1 is read into a `uint8_t` as 255, and refused by `uint16_t` |
| JsonTrees.RangesAreWidths | cpp_lib/serialize/json.h:102-205 | the numbers a type accepts are as many as its bits allow, from zero or symmetrically from minus one |
| JsonTrees.NumberReadIs | cpp_lib/serialize/json.h:102-205 | what is read is the number itself, for `uint8_t` its remainder by 256 |
| JsonTrees.WidthIsNotWritten | cpp_lib/serialize/json.h:431-486 | what a number is written as does not depend on its type: every type that can hold it reads it back |
| JsonTrees.ByteIsWrittenUnsigned | cpp_lib/serialize/json.h:481-486 | a struct with a `uint8_t` of 200 under a mapped name is written with 200 under that name |
| JsonTrees.CStrEndsAtNul | cpp_lib/serialize/json.h:372-384 | a name is written up to its first NUL |
| JsonTrees.FieldsGoBy | cpp_lib/serialize/json.h:24-44 | a mapped field goes by its mapped name, any other by its own |
| JsonTrees.WrittenStands | cpp_lib/serialize/json.h:385-533 | what is written for a value is a tree that stands for it, in a relation that knows neither direction |
| JsonTrees.StandingIsParsed | cpp_lib/serialize/json.h:45-288 | any tree that stands for a value, in whatever order of members, is parsed into it, over any prior value |
| JsonTrees.MembersInOrder | cpp_lib/serialize/json.h:1447-1457 | with nothing omitted, a struct's members are its fields in order |
| JsonTrees.OmittedExactly | cpp_lib/serialize/json.h:412-450 | with defaults omitted, a member is missing if and only if the field is 0, false or the empty string |
| JsonTrees.ParsesExactly | cpp_lib/serialize/json.h:55-288 | parsing succeeds if and only if the tree is of the type's kinds throughout, with numbers in range, whatever the variable held |
| JsonTrees.ParsesNamedExactly | cpp_lib/serialize/json.h:45-66 | under a name, if and only if there is such a member and it can be read; without it nothing changes |
| JsonTrees.RefusedUntouched | cpp_lib/serialize/json.h:91-217 | what is of the wrong kind or out of range leaves the variable as it was |
| JsonTrees.MapStopsAtFirst | cpp_lib/serialize/json.h:229-241 | a map parsed from an object is refused at the first member that cannot be read, and left with those before |
| JsonTrees.VectorStopsAtFirst | cpp_lib/serialize/json.h:277-287 | and a vector with the items before it |
| JsonTrees.EntriesAre | cpp_lib/serialize/json.h:229-241 | an object whose members can all be read becomes the map of their names, each with its last value |
| JsonTrees.StopsAtWrongKind | cpp_lib/serialize/json.h:229-241 | {"a": 1, "b": "x", "c": 3} as a map of numbers is refused, and a is left |
| JsonRoundTrip.FieldsWritten | cpp_lib/serialize/json.h:1447-1457 | with good names the tree has under each field's name that field, or nothing if it is omitted |
| JsonRoundTrip.FieldBack | cpp_lib/serialize/json.h:1447-1457 | with good names a field comes back from what was written for it alone, or keeps its prior value if it was omitted |
| JsonRoundTrip.WriteThenRead | cpp_lib/serialize/json.h:45-533 | over any prior value, writing and reading back succeeds and gives the value with the prior one's omitted fields |
| JsonRoundTrip.UncleanIsLost | cpp_lib/serialize/json.h:221-243 | a value with an empty or NUL-bearing map key, at any depth, never comes back |
| JsonRoundTrip.RoundTripExactlyForCleanKeys | cpp_lib/serialize/json.h:45-533 | without omission a value comes back over every prior object if and only if its map keys are non-empty and free of NUL |
| JsonRoundTrip.AllRoundTripExactlyForGoodNames | cpp_lib/serialize/json.h:1447-1457 | all such values of a type come back if and only if field names, as mapped, are non-empty and distinct at every level |
| JsonRoundTrip.IllFormedLoses | cpp_lib/serialize/json.h:24-32 | for any type with an empty or shared name and any prior object, a value that does not come back |
| JsonRoundTrip.RoundTripWithDefaultsOmitted | cpp_lib/serialize/json.h:385-533 | with defaults omitted a struct comes back over a prior object if and only if its keys are clean and every omitted scalar, through nested structs, is already default there; containers impose nothing |
| ParallelFor.ParallelFor | cpp_lib/coro/coro.cc:13-34 | whenever the loop ends: one direct call if the range is shorter than a partition, else one task for each round with that round's range, every task done at return |
| ParallelFor.HandOut | cpp_lib/coro/coro.cc:19-30 | the loop makes one task a round until it is at the end, in the arithmetic of `size_t` |
| ParallelFor.DirectExactly | cpp_lib/coro/coro.cc:14-17 | the call is direct if and only if the range is shorter than a partition, for a range that ends before it starts in the arithmetic of `size_t` |
| ParallelFor.CoroJoin | cpp_lib/coro/coro.cc:38-45 | a joined thread is done; nothing happens without coroutine or thread |
| ParallelFor.PlanCutsRange | cpp_lib/coro/coro.cc:20-31 | if partitions fit, the task path's calls are consecutive, non-empty intervals from first to last, of the size asked for but for the last; their number is the quotient rounded up |
| ParallelFor.PlanCovers | cpp_lib/coro/coro.cc:13-34 | and on either path each number of the range is in exactly one call, any other in none |
| ParallelFor.CoversExactlyIfSound | cpp_lib/coro/coro.cc:20-31 | whenever the loop ends, its calls cover the range, each number once, if and only if there is nothing to cut, or partitions have a size and the last one, taken whole, ends within `size_t` |
| ParallelFor.HitTwice | cpp_lib/coro/coro.cc:22-30 | where they do not fit and the loop ends, a number of the range that is in more than one call |
| ParallelFor.MovesOnExactlyIfSound | cpp_lib/coro/coro.cc:20-31 | on the task path every round of the loop moves on under the same condition |
| ParallelFor.GoesBack | cpp_lib/coro/coro.cc:22-30 | where partitions do not fit, the last one handed out in the first pass ends before it starts |
| ParallelForEnds.ReturnsExactly | cpp_lib/coro/coro.cc:13-34 | the loop ends if and only if it is not needed, or partitions have a size and `last` is at most the greatest word that is a multiple of the size's power of two away from `first` |
| ParallelForEnds.CanRunForEver | cpp_lib/coro/coro.cc:20-31 | a range of three and a size of two for which it never ends |
| ParallelForEnds.CanCoverTwice | cpp_lib/coro/coro.cc:20-31 | a range of four and a size of three for which it ends without covering the range once |
| ParallelForRuns.ReturnsWhenAllIsDone | cpp_lib/coro/coro.cc:19-34 | however caller and tasks interleave, at return all tasks are done, the calls made are those of the loop, each once, and they cover the range under exactly the condition above |
| ParallelForRuns.NeverTwice | cpp_lib/coro/coro.cc:28-29 | where partitions fit, the calls made are at any time a part of the plan, none made twice |
| ParallelForRuns.NeverStuck | cpp_lib/coro/coro.cc:31-33 | until it has returned some step is possible |
| ParallelForRuns.EveryRunEnds | cpp_lib/coro/coro.cc:19-34 | if the loop ends, every interleaving is over after at most three steps a round and three more |
| PowerOfTwo.UpperPowerOfTwo | cpp_lib/util/math/math.cc:7-16 | the least power of two that is at least the argument, for 1 to 2^31, and zero for zero and above |
| PowerOfTwo.SmearEight | cpp_lib/util/math/math.cc:12 | from eight bits set below the highest one to sixteen, or all |
| PowerOfTwo.SmearSixteen | cpp_lib/util/math/math.cc:13 | from sixteen to all |
| PowerOfTwo.PowerAbove | cpp_lib/util/math/math.cc:14 | one more than a fully smeared word is a power of two above what was smeared, or has wrapped to zero |
| PowerOfTwo.PowerOfWord | cpp_lib/util/math/math.cc:7-16 | a word with one bit set is 2 to the k, as a number |
| PowerOfTwo.WordOfPower | cpp_lib/util/math/math.cc:7-16 | each 2 to the k with k below 32 is such a word |

## Left out

- The asynchronous call of `evict` that `insert` makes: in the step machine any idle thread may begin an `evict` at any time, which covers it; in the heap class `insert` calls `evict` itself, as under `TEST_MODE`.
- Batch `insert` is in the sequential model only. In the step machine it is a sequence of sets by one thread, which may interleave with anything, and an `evict`.
- `clear()` is documented as not thread safe. It is in the heap class and not in the step machine.
- TBB's internals, memory ordering, and destroying a cache while an `evict` is pending.
- Reuse of a deleted node's address: nodes have identities that are never used again.
- A `ConstAccessor` kept by a caller of `ConcurrentLRUCache` itself. The step machine's readers release theirs when the operation returns, as those of `LRUCache` do.
- Failing allocation, and the bucket count passed to the hash map.
- `m_size` is an integer; that it never goes below zero is proved, that it stays below 2^64 is not.
- The two batch `insert`s of `ConcurrentLRUCache` are one method on the pairs in iteration order; they differ only in whether they hold pointers.
- `std::thread::hardware_concurrency()` and `time()` are parameters. A cache without shards can be built but not used, as in the code, where it would divide by zero.
- JSON text, `float` and `double`, and the containers `deque`, `list`, `set` and `unordered_set`, whose loops repeat those modelled. Numbers with a fraction are trees that no modelled overload accepts.
- What a local `V tmp;` holds before it is parsed into is an arbitrary value of its type, the same for all locals of one type; theorems hold for every choice. The order in which a map is iterated is arbitrary in the same way.
- LruProgress.OwnStepsBounded: bounds the steps an operation takes, not how long it waits in between. That a lock request is granted in the end, under an endless stream of others, would need fair locks, which TBB and the standard mutexes do not promise.
- ParallelFor.ParallelFor: is about calls that return, as a method must end; `ParallelForEnds.ReturnsExactly` says which those are.
- ParallelFor.CoroJoin: waits by letting the thread be done. Waiting proper, as a step that is not enabled before the task is done, is in `ParallelForRuns`.
- An exception thrown by the function or by the start of a thread.
- The reloader, the double buffer, and the string, time, url, compression, file and random helpers: wrappers, or without a property that would hold.
