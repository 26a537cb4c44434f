/** What callers get from a sequential cache, in numbers: until when a value is found, and how much an eviction pass takes. */
module LruAnswers {
  import opened Domain
  import opened LruModel
  import opened LruSequential
  import opened LruExpiry
  import opened LruBatch
  import opened LruHeap

  // ----- until when a value is found

  /** A value is found up to and including the reading that is `timeout` after its stamp, and for ever without timeout. */
  lemma FoundExactlyUntil(cfg: Config, s: seq<Item>, k: Key, now: int)
    ensures var x := Lookup(s, k);
      && (x.None? ==> Find(cfg, s, k, now) == None)
      && (x.Some? ==>
            Find(cfg, s, k, now) == if cfg.timeout == 0 || now <= x.value.stamp + cfg.timeout then Some(x.value.value) else None)
  {
  }

  /** The last item counts as expired from the reading after that. */
  lemma LastTestedExactly(cfg: Config, clock: Readings, r: Run)
    ensures var (expired, r') := TestLast(cfg, clock, r);
      && (expired <==> cfg.timeout != 0 && r.items != [] && clock(r.tick) > r.items[|r.items| - 1].stamp + cfg.timeout)
      && r' == Run(r.items, r.tick + if cfg.timeout != 0 && r.items != [] then 1 else 0)
  {
  }

  /** And so does the removal test it once more: it takes the last item, or nothing. */
  lemma RemovedExactly(cfg: Config, clock: Readings, r: Run, check: bool)
    ensures var r' := RemoveNode(cfg, clock, r, check);
      && (if r.items != [] && (!check || clock(r.tick) > r.items[|r.items| - 1].stamp + cfg.timeout)
          then |r'.items| == |r.items| - 1 && r'.items <= r.items else r'.items == r.items)
      && r'.tick == r.tick + if check && r.items != [] then 1 else 0
  {
  }

  /** After an insert into a cache within its maximum, at any later reading: the value is found exactly if the cache may hold
      anything, until `timeout` after the insert's own reading. */
  lemma InsertThenFind(cfg: Config, clock: Readings, r: Run, k: Key, v: Value, now: int)
    requires DistinctKeys(r.items) && |r.items| <= cfg.maxSize
    requires cfg.timeout != 0 ==> forall i :: r.tick <= i < Insert(cfg, clock, r, k, v).tick ==> clock(i) <= now
    ensures Find(cfg, Insert(cfg, clock, r, k, v).items, k, now) ==
      if cfg.maxSize > 0 && (cfg.timeout == 0 || now <= clock(r.tick) + cfg.timeout) then Some(v) else None
  {
    var full := SetEntryRun(clock, r, k, v);
    WithoutFacts(r.items, k);
    SetEntryDistinct(r.items, k, v, clock(r.tick));
    LookupAfterSetEntry(r.items, k, v, clock(r.tick), k);
    EvictLeavesPrefix(cfg, clock, full);
    if cfg.timeout == 0 {
      EvictWithoutTimeout(cfg, clock, full);
    } else {
      TimeoutEvictionInvisible(cfg, clock, full, k, now);
    }
    var left := AfterOverload(cfg, full).items;
    if cfg.maxSize > 0 {
      assert left != [] && left[0] == full.items[0];
    }
  }

  /** With a timeout of 10, what is written at 100 is found at 110 and not at 111. */
  lemma FoundAtTen(clock: Readings, k: Key, v: Value)
    requires clock(0) == 100 && clock(1) == clock(2) == 110
    ensures var cfg := Config(1, 10, false);
            var after := Insert(cfg, clock, Run([], 0), k, v);
      Find(cfg, after.items, k, 110) == Some(v) && Find(cfg, after.items, k, 111) == None
  {
    var cfg := Config(1, 10, false);
    var full := SetEntryRun(clock, Run([], 0), k, v);
    assert full.items == [Item(k, v, 100)];
    EvictInHalves(cfg, clock, full);
    assert AfterOverload(cfg, full).items == full.items;
    assert Insert(cfg, clock, Run([], 0), k, v) == Run(full.items, 2);
    InsertThenFind(cfg, clock, Run([], 0), k, v, 110);
    InsertThenFind(cfg, clock, Run([], 0), k, v, 111);
  }

  /** The same of the heap class: an insert at one reading of the clock, then a find at a later one. */
  method InsertAndFind(cache: ConcurrentLRUCache, key: Key, value: Value) returns (r: Option<Value>, ghost asked: nat)
    requires cache.Valid() && |cache.Contents| <= cache.cfg.maxSize && Monotone(cache.clock.readings)
    modifies cache, cache.Repr, cache.clock
    ensures cache.Valid() && old(cache.clock.tick) < asked
    ensures var written, now := cache.clock.readings(old(cache.clock.tick)), cache.clock.readings(asked);
      r == if cache.cfg.maxSize > 0 && (cache.cfg.timeout == 0 || now <= written + cache.cfg.timeout) then Some(value) else None
  {
    ghost var before := cache.View();
    assert DistinctKeys(before.items);
    hide ConcurrentLRUCache.Valid, DistinctKeys, LruModel.Insert, LruModel.Find;
    var _ := cache.Insert(key, value);
    asked := cache.clock.tick;
    InsertTakesReadings(cache.cfg, cache.clock.readings, before, key, value);
    InsertThenFind(cache.cfg, cache.clock.readings, before, key, value, cache.clock.readings(asked));
    r := cache.Find(key);
  }

  lemma InsertTakesReadings(cfg: Config, clock: Readings, r: Run, k: Key, v: Value)
    ensures Insert(cfg, clock, r, k, v).tick > r.tick
  {
    EvictLeavesPrefix(cfg, clock, SetEntryRun(clock, r, k, v));
  }

  // ----- how much an eviction pass takes

  /** Without timeout, a pass of the batch type takes 64 items or as many as are too many, one of the other type one or none. */
  lemma PassTakesExactly(cfg: Config, clock: Readings, r: Run)
    requires cfg.timeout == 0
    ensures var size, left := |r.items|, |Evict(cfg, clock, r).items|;
      && (size <= cfg.maxSize ==> left == size)
      && (size > cfg.maxSize && cfg.batch ==> left == if size - 64 > cfg.maxSize then size - 64 else cfg.maxSize)
      && (size > cfg.maxSize && !cfg.batch ==> left == size - 1)
  {
    EvictWithoutTimeout(cfg, clock, r);
  }

  /** With a timeout, a batch pass takes in all, too many or expired, no more than 64 items. */
  lemma PassTakesAtMost(cfg: Config, clock: Readings, r: Run)
    ensures |r.items| - |Evict(cfg, clock, r).items| <= if cfg.batch then 64 else 2
  {
    EvictLeavesPrefix(cfg, clock, r);
  }

  /** 164 new keys fit into a batch cache of 100, 165 do not. */
  lemma HundredAndSixtyFour(clock: Readings, p: seq<(Key, Value)>, m: map<Key, Value>)
    requires Enumerates(p, m)
    ensures |m| == 164 ==> |InsertBatch(Config(100, 0, true), clock, Run([], 0), p).items| == 100
    ensures |m| == 165 ==> |InsertBatch(Config(100, 0, true), clock, Run([], 0), p).items| == 101
  {
    SetAllSize(clock, Run([], 0), p, m);
    assert AsMap([]) + m == m;
    PassTakesExactly(Config(100, 0, true), clock, SetAll(clock, Run([], 0), p));
  }
}
