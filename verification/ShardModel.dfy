/** Sharding as values: where keys go, how capacity is split, and why the shards together are one map. */
module ShardModel {
  import opened Arithmetic
  import opened Domain
  import opened LruModel
  import opened LruSequential
  import opened LruExpiry
  import opened LruBatch
  import opened LruAnswers

  const SHIFT_48: nat := 0x1_0000_0000_0000

  /** `get_shard_ind`: the upper 16 bits of the hash, modulo the number of shards. */
  function ShardInd(hash: Key -> nat, n: nat, k: Key): nat
    requires n > 0
  {
    hash(k) / SHIFT_48 % n
  }

  /** Hashes without upper bits go to shard 0. */
  lemma LowHashesFirst(hash: Key -> nat, n: nat, k: Key)
    requires 0 < n && hash(k) < 0x1_0000_0000_0000
    ensures ShardInd(hash, n, k) == 0
  {
  }

  /** Hashes that differ in their lower 48 bits alone go to one shard. */
  lemma UpperBitsDecide(hash: Key -> nat, n: nat, j: Key, k: Key, upper: nat)
    requires 0 < n
    requires upper * 0x1_0000_0000_0000 <= hash(j) < (upper + 1) * 0x1_0000_0000_0000
    requires upper * 0x1_0000_0000_0000 <= hash(k) < (upper + 1) * 0x1_0000_0000_0000
    ensures ShardInd(hash, n, j) == ShardInd(hash, n, k)
  {
    assert hash(j) / SHIFT_48 == upper == hash(k) / SHIFT_48;
  }

  /** One more in the upper bits is one shard on, round and round. */
  lemma NextShard(hash: Key -> nat, n: nat, j: Key, k: Key)
    requires 0 < n && hash(j) == hash(k) + 0x1_0000_0000_0000
    ensures ShardInd(hash, n, j) == (ShardInd(hash, n, k) + 1) % n
  {
    assert hash(j) / SHIFT_48 == hash(k) / SHIFT_48 + 1;
    OneOn(hash(k) / SHIFT_48, n);
  }

  lemma OneOn(a: nat, n: nat)
    requires 0 < n
    ensures (a + 1) % n == (a % n + 1) % n
  {
    var q, r := a / n, a % n;
    assert a == q * n + r;
    if r + 1 < n {
      SameRemainder(a + 1, q, n, r + 1);
      SameRemainder(r + 1, 0, n, r + 1);
    } else {
      Spread(q, 1, n);
      SameRemainder(a + 1, q + 1, n, 0);
      SameRemainder(n, 1, n, 0);
    }
  }

  // ----- capacity

  function ShardCapacity(maxSize: nat, n: nat, i: nat): nat
    requires n > 0
  {
    maxSize / n + (if i == 0 then maxSize % n else 0)
  }

  /** The whole cache's parameters; shard i gets its share of the capacity. */
  function ShardConfig(cfg: Config, n: nat, i: nat): Config
    requires n > 0
  {
    cfg.(maxSize := ShardCapacity(cfg.maxSize, n, i))
  }

  function CapacityOf(maxSize: nat, n: nat, count: nat): nat
    requires count <= n
  {
    if count == 0 then 0 else CapacityOf(maxSize, n, count - 1) + ShardCapacity(maxSize, n, count - 1)
  }

  lemma {:induction false} CapacityOfFirst(maxSize: nat, n: nat, count: nat)
    requires 0 < count <= n
    ensures CapacityOf(maxSize, n, count) == count * (maxSize / n) + maxSize % n
  {
    if count > 1 {
      CapacityOfFirst(maxSize, n, count - 1);
    }
  }

  /** The shards' capacities add up to the whole exactly when there is a shard, or nothing to split. */
  lemma CapacitySumsUp(maxSize: nat, n: nat)
    ensures CapacityOf(maxSize, n, n) == maxSize <==> n > 0 || maxSize == 0
  {
    if n > 0 {
      CapacityOfFirst(maxSize, n, n);
    }
  }

  // ----- one map out of many shards

  /** Each shard has distinct keys, and only keys of its own index. */
  ghost predicate Placed(hash: Key -> nat, n: nat, shards: seq<seq<Item>>) {
    && 0 < n
    && (forall i :: 0 <= i < |shards| ==> DistinctKeys(shards[i]))
    && (forall i, x :: 0 <= i < |shards| && x in shards[i] ==> ShardInd(hash, n, x.key) == i)
  }

  /** All items, shard after shard. */
  function Union(shards: seq<seq<Item>>): seq<Item> {
    if shards == [] then [] else Union(shards[..|shards| - 1]) + shards[|shards| - 1]
  }

  lemma PlacedFirst(hash: Key -> nat, n: nat, shards: seq<seq<Item>>, last: nat)
    requires Placed(hash, n, shards) && last <= |shards|
    ensures Placed(hash, n, shards[..last])
  {
  }

  /** A lookup in all shards together is the lookup in the one shard of the key's index. */
  lemma {:induction false} LookupInUnion(hash: Key -> nat, n: nat, shards: seq<seq<Item>>, k: Key)
    requires Placed(hash, n, shards)
    ensures var i := ShardInd(hash, n, k);
      Lookup(Union(shards), k) == if i < |shards| then Lookup(shards[i], k) else None
  {
    if shards != [] {
      var last, i := |shards| - 1, ShardInd(hash, n, k);
      PlacedFirst(hash, n, shards, last);
      assert i != last ==> Lookup(shards[last], k).None? by { LookupFacts(shards[last], k); }
      hide Placed, ShardInd, Lookup;
      LookupInUnion(hash, n, shards[..last], k);
      LookupInConcat(Union(shards[..last]), shards[last], k);
    }
  }

  /** No key occurs twice over all shards, so a snapshot of all of them has no duplicates. */
  lemma {:induction false} UnionDistinct(hash: Key -> nat, n: nat, shards: seq<seq<Item>>)
    requires Placed(hash, n, shards)
    ensures DistinctKeys(Union(shards))
  {
    if shards != [] {
      var last := |shards| - 1;
      var s, t := Union(shards[..last]), shards[last];
      UnionDistinct(hash, n, shards[..last]);
      forall i, j | 0 <= i < |s| && 0 <= j < |t| ensures s[i].key != t[j].key {
        LookupInUnion(hash, n, shards[..last], t[j].key);
        LookupFacts(s, t[j].key);
        assert s[i] in s && t[j] in t;
      }
    }
  }

  function TotalSize(shards: seq<seq<Item>>): nat {
    if shards == [] then 0 else TotalSize(shards[..|shards| - 1]) + |shards[|shards| - 1]|
  }

  lemma {:induction false} TotalSizeIsUnionSize(shards: seq<seq<Item>>)
    ensures TotalSize(shards) == |Union(shards)|
  {
    if shards != [] {
      TotalSizeIsUnionSize(shards[..|shards| - 1]);
    }
  }

  /** The summed sizes are the number of entries of the one map. */
  lemma TotalSizeIsMapSize(hash: Key -> nat, n: nat, shards: seq<seq<Item>>)
    requires Placed(hash, n, shards)
    ensures TotalSize(shards) == |AsMap(Union(shards))|
  {
    UnionDistinct(hash, n, shards);
    AsMapSize(Union(shards));
    TotalSizeIsUnionSize(shards);
  }

  /** With every shard within its capacity, the whole is within the maximum. */
  lemma {:induction false} TotalWithinCapacity(maxSize: nat, n: nat, shards: seq<seq<Item>>)
    requires |shards| <= n && 0 < n
    requires forall i :: 0 <= i < |shards| ==> |shards[i]| <= ShardCapacity(maxSize, n, i)
    ensures TotalSize(shards) <= CapacityOf(maxSize, n, |shards|)
  {
    if shards != [] {
      TotalWithinCapacity(maxSize, n, shards[..|shards| - 1]);
    }
  }

  /** Finding in the shard of the key's index is finding in the one map. */
  lemma FindInUnion(cfg: Config, hash: Key -> nat, n: nat, shards: seq<seq<Item>>, k: Key, now: int)
    requires Placed(hash, n, shards) && |shards| == n
    ensures var i := ShardInd(hash, n, k);
      Find(ShardConfig(cfg, n, i), shards[i], k, now) == Find(cfg, Union(shards), k, now)
  {
    LookupInUnion(hash, n, shards, k);
  }

  // ----- single inserts

  /** The shards between two calls, and how often the clock has been read. */
  datatype ShardRun = ShardRun(shards: seq<seq<Item>>, tick: nat)

  function ShardInsert(cfg: Config, hash: Key -> nat, clock: Readings, s: ShardRun, k: Key, v: Value): ShardRun
    requires 0 < |s.shards|
  {
    var n := |s.shards|;
    var i := ShardInd(hash, n, k);
    var r := Insert(ShardConfig(cfg, n, i), clock, Run(s.shards[i], s.tick), k, v);
    ShardRun(s.shards[i := r.items], r.tick)
  }

  lemma InsertKeepsPlaced(cfg: Config, hash: Key -> nat, clock: Readings, s: ShardRun, k: Key, v: Value)
    requires Placed(hash, |s.shards|, s.shards)
    ensures Placed(hash, |s.shards|, ShardInsert(cfg, hash, clock, s, k, v).shards)
  {
    var n := |s.shards|;
    var i := ShardInd(hash, n, k);
    var r, shardCfg := Run(s.shards[i], s.tick), ShardConfig(cfg, n, i);
    var full := SetEntryRun(clock, r, k, v);
    SetEntryDistinct(r.items, k, v, clock(r.tick));
    EvictKeepsDistinct(shardCfg, clock, full);
    EvictLeavesPrefix(shardCfg, clock, full);
    WithoutFacts(r.items, k);
    var after := Evict(shardCfg, clock, full).items;
    forall x | x in after ensures ShardInd(hash, n, x.key) == i {
      assert x in full.items;
    }
  }

  /** Every shard keeps to its share. */
  ghost predicate WithinShares(cfg: Config, shards: seq<seq<Item>>) {
    forall i :: 0 <= i < |shards| ==> |shards[i]| <= ShardCapacity(cfg.maxSize, |shards|, i)
  }

  lemma ShardInsertKeepsShares(cfg: Config, hash: Key -> nat, clock: Readings, s: ShardRun, k: Key, v: Value)
    requires Placed(hash, |s.shards|, s.shards) && WithinShares(cfg, s.shards)
    ensures WithinShares(cfg, ShardInsert(cfg, hash, clock, s, k, v).shards)
  {
    var i := ShardInd(hash, |s.shards|, k);
    InsertKeepsCapacity(ShardConfig(cfg, |s.shards|, i), clock, Run(s.shards[i], s.tick), k, v);
  }

  /** n empty shards, then single inserts. */
  function ShardRuns(cfg: Config, hash: Key -> nat, clock: Readings, n: nat, ops: seq<(Key, Value)>): (s: ShardRun)
    requires 0 < n
    ensures |s.shards| == n
  {
    if ops == [] then ShardRun(seq(n, i => []), 0)
    else
      var (k, v) := ops[|ops| - 1];
      ShardInsert(cfg, hash, clock, ShardRuns(cfg, hash, clock, n, ops[..|ops| - 1]), k, v)
  }

  /** However many single inserts, of whatever keys: the total size never exceeds the maximum, for both eviction types. */
  lemma {:induction false} TotalNeverExceedsMaximum(cfg: Config, hash: Key -> nat, clock: Readings, n: nat, ops: seq<(Key, Value)>)
    requires 0 < n
    ensures var s := ShardRuns(cfg, hash, clock, n, ops).shards;
      Placed(hash, n, s) && WithinShares(cfg, s) && TotalSize(s) <= cfg.maxSize
  {
    var s := ShardRuns(cfg, hash, clock, n, ops);
    if ops != [] {
      var (k, v) := ops[|ops| - 1];
      var before := ShardRuns(cfg, hash, clock, n, ops[..|ops| - 1]);
      TotalNeverExceedsMaximum(cfg, hash, clock, n, ops[..|ops| - 1]);
      InsertKeepsPlaced(cfg, hash, clock, before, k, v);
      ShardInsertKeepsShares(cfg, hash, clock, before, k, v);
    }
    TotalWithinCapacity(cfg.maxSize, n, s.shards);
    CapacitySumsUp(cfg.maxSize, n);
  }

  // ----- batch insert

  /** The part of the data that goes to shard i. */
  function Part(hash: Key -> nat, n: nat, data: map<Key, Value>, i: nat): map<Key, Value>
    requires n > 0
  {
    map k | k in data && ShardInd(hash, n, k) == i :: data[k]
  }

  /** What a batch insert makes of the shards: one after the other, each takes its part of the data in some order, from the
      clock reading at which the one before left off; a shard without a part is left alone. */
  ghost predicate BatchResult(cfg: Config, hash: Key -> nat, clock: Readings, before: ShardRun, data: map<Key, Value>,
                              after: ShardRun, orders: seq<seq<(Key, Value)>>, ticks: seq<nat>)
  {
    && |before.shards| == |after.shards| == |orders| == |ticks| - 1
    && ticks[0] == before.tick && ticks[|orders|] == after.tick
    && forall i :: 0 <= i < |orders| ==> ShardOf(cfg, hash, clock, before, data, after, orders, ticks, i)
  }

  /** Shard i's share of the result. */
  ghost predicate ShardOf(cfg: Config, hash: Key -> nat, clock: Readings, before: ShardRun, data: map<Key, Value>,
                          after: ShardRun, orders: seq<seq<(Key, Value)>>, ticks: seq<nat>, i: nat)
    requires i < |before.shards| == |after.shards| == |orders| == |ticks| - 1
  {
    ShardResult(cfg, hash, clock, before.shards, data, Run(after.shards[i], ticks[i + 1]), orders[i], ticks[i], i)
  }

  ghost predicate ShardResult(cfg: Config, hash: Key -> nat, clock: Readings, before: seq<seq<Item>>,
                              data: map<Key, Value>, after: Run, order: seq<(Key, Value)>, tick: nat, i: nat)
    requires i < |before|
  {
    && Enumerates(order, Part(hash, |before|, data, i))
    && after == if order == [] then Run(before[i], tick)
                else InsertBatch(ShardConfig(cfg, |before|, i), clock, Run(before[i], tick), order)
  }

  /** The shard has no part to take, or room for it: what it holds, overridden by its part, is within its capacity. */
  predicate Fits(cfg: Config, hash: Key -> nat, before: seq<seq<Item>>, data: map<Key, Value>, i: nat)
    requires i < |before|
  {
    var part := Part(hash, |before|, data, i);
    part == map[] || |AsMap(before[i]) + part| <= ShardCapacity(cfg.maxSize, |before|, i)
  }

  lemma NoEntries(p: seq<(Key, Value)>, m: map<Key, Value>)
    requires Enumerates(p, m)
    ensures p == [] <==> m == map[]
  {
    if p != [] {
      assert p[0].0 in m;
    }
  }

  /** One shard after its part of a batch: still distinct, its own keys only, and nothing but old or new values. */
  lemma ShardBatch(cfg: Config, hash: Key -> nat, clock: Readings, before: seq<seq<Item>>, data: map<Key, Value>,
                   after: Run, order: seq<(Key, Value)>, tick: nat, i: nat, k: Key)
    requires i < |before| && Placed(hash, |before|, before)
    requires ShardResult(cfg, hash, clock, before, data, after, order, tick, i)
    ensures DistinctKeys(after.items) && tick <= after.tick
    ensures var part := Part(hash, |before|, data, i);
            var full := if k in part then Some(part[k]) else ValueAt(before[i], k);
      && (ValueAt(after.items, k).Some? ==> ValueAt(after.items, k) == full)
      && (cfg.timeout == 0 && Fits(cfg, hash, before, data, i) ==> ValueAt(after.items, k) == full)
  {
    var r := Run(before[i], tick);
    NoEntries(order, Part(hash, |before|, data, i));
    BatchOverrides(clock, r, order, Part(hash, |before|, data, i), k);
    SetAllDistinct(clock, r, order);
    SetAllTick(clock, r, order);
    if order != [] {
      var full, shardCfg := SetAll(clock, r, order), ShardConfig(cfg, |before|, i);
      EvictLeavesPrefix(shardCfg, clock, full);
      LookupInPrefix(full.items, after.items, k);
      if cfg.timeout == 0 && Fits(cfg, hash, before, data, i) {
        SetAllSize(clock, r, order, Part(hash, |before|, data, i));
        EvictWithoutTimeout(shardCfg, clock, full);
        assert after.items == full.items;
      }
    }
  }

  /** Without timeout, a shard that does not have room loses a key. */
  lemma ShardLoses(cfg: Config, hash: Key -> nat, clock: Readings, before: seq<seq<Item>>, data: map<Key, Value>,
                   after: Run, order: seq<(Key, Value)>, tick: nat, i: nat) returns (k: Key)
    requires i < |before| && Placed(hash, |before|, before) && cfg.timeout == 0
    requires ShardResult(cfg, hash, clock, before, data, after, order, tick, i)
    requires !Fits(cfg, hash, before, data, i)
    ensures ShardInd(hash, |before|, k) == i && ValueAt(after.items, k).None?
    ensures k in data || ValueAt(before[i], k).Some?
  {
    var r := Run(before[i], tick);
    var full := SetAll(clock, r, order).items;
    NoEntries(order, Part(hash, |before|, data, i));
    SetAllSize(clock, r, order, Part(hash, |before|, data, i));
    SetAllDistinct(clock, r, order);
    EvictWithoutTimeout(ShardConfig(cfg, |before|, i), clock, SetAll(clock, r, order));
    k := LastLost(full, after.items);
    BatchOverrides(clock, r, order, Part(hash, |before|, data, i), k);
    LookupFacts(before[i], k);
  }

  /** The last item of a list is not in a shorter prefix. */
  lemma LastLost(full: seq<Item>, after: seq<Item>) returns (k: Key)
    requires DistinctKeys(full) && after <= full && |after| < |full|
    ensures ValueAt(full, k).Some? && ValueAt(after, k).None?
  {
    var x := full[|full| - 1];
    k := x.key;
    LookupIs(full, x);
    LookupFacts(after, k);
    forall y | y in after ensures y.key != k {
      var j :| 0 <= j < |after| && after[j] == y;
      assert full[j] == y;
    }
  }

  /** A shard that takes its part keeps to its own keys. */
  lemma ShardStaysPlaced(cfg: Config, hash: Key -> nat, clock: Readings, before: seq<seq<Item>>, data: map<Key, Value>,
                         after: Run, order: seq<(Key, Value)>, tick: nat, i: nat)
    requires i < |before| && Placed(hash, |before|, before)
    requires ShardResult(cfg, hash, clock, before, data, after, order, tick, i)
    ensures DistinctKeys(after.items) && forall x :: x in after.items ==> ShardInd(hash, |before|, x.key) == i
    ensures Placed(hash, |before|, before[i := after.items])
  {
    forall x | x in after.items ensures ShardInd(hash, |before|, x.key) == i {
      ShardBatch(cfg, hash, clock, before, data, after, order, tick, i, x.key);
      LookupFacts(after.items, x.key);
      LookupFacts(before[i], x.key);
    }
    var k: Key :| true;
    ShardBatch(cfg, hash, clock, before, data, after, order, tick, i, k);
  }

  /** A batch insert keeps every key in its own shard. */
  lemma BatchKeepsPlaced(cfg: Config, hash: Key -> nat, clock: Readings, before: ShardRun, data: map<Key, Value>,
                         after: ShardRun, orders: seq<seq<(Key, Value)>>, ticks: seq<nat>)
    requires Placed(hash, |before.shards|, before.shards)
    requires BatchResult(cfg, hash, clock, before, data, after, orders, ticks)
    ensures Placed(hash, |before.shards|, after.shards)
  {
    forall i | 0 <= i < |after.shards|
      ensures DistinctKeys(after.shards[i])
      ensures forall x :: x in after.shards[i] ==> ShardInd(hash, |before.shards|, x.key) == i
    {
      assert ShardOf(cfg, hash, clock, before, data, after, orders, ticks, i);
      ShardStaysPlaced(cfg, hash, clock, before.shards, data, Run(after.shards[i], ticks[i + 1]), orders[i], ticks[i], i);
    }
  }

  lemma BatchAt(cfg: Config, hash: Key -> nat, clock: Readings, before: ShardRun, data: map<Key, Value>,
                after: ShardRun, orders: seq<seq<(Key, Value)>>, ticks: seq<nat>, k: Key)
    requires Placed(hash, |before.shards|, before.shards)
    requires BatchResult(cfg, hash, clock, before, data, after, orders, ticks)
    ensures var i := ShardInd(hash, |before.shards|, k);
            var now := ValueAt(Union(after.shards), k);
            var full := if k in data then Some(data[k]) else ValueAt(Union(before.shards), k);
      && (now.Some? ==> now == full)
      && (cfg.timeout == 0 && Fits(cfg, hash, before.shards, data, i) ==> now == full)
  {
    var n, i := |before.shards|, ShardInd(hash, |before.shards|, k);
    BatchKeepsPlaced(cfg, hash, clock, before, data, after, orders, ticks);
    assert ShardOf(cfg, hash, clock, before, data, after, orders, ticks, i);
    ShardBatch(cfg, hash, clock, before.shards, data, Run(after.shards[i], ticks[i + 1]), orders[i], ticks[i], i, k);
    LookupInUnion(hash, n, before.shards, k);
    LookupInUnion(hash, n, after.shards, k);
  }

  lemma BatchAtMap(cfg: Config, hash: Key -> nat, clock: Readings, before: ShardRun, data: map<Key, Value>,
                   after: ShardRun, orders: seq<seq<(Key, Value)>>, ticks: seq<nat>, k: Key)
    requires Placed(hash, |before.shards|, before.shards)
    requires BatchResult(cfg, hash, clock, before, data, after, orders, ticks)
    ensures var i := ShardInd(hash, |before.shards|, k);
            var m, now := AsMap(Union(before.shards)) + data, AsMap(Union(after.shards));
      && (k in now ==> k in m && now[k] == m[k])
      && (cfg.timeout == 0 && Fits(cfg, hash, before.shards, data, i) ==> (k in now <==> k in m))
  {
    hide Placed, BatchResult, Fits;
    BatchAt(cfg, hash, clock, before, data, after, orders, ticks, k);
    AsMapIsLookup(Union(before.shards), k);
    AsMapIsLookup(Union(after.shards), k);
  }

  lemma BatchLosesIn(cfg: Config, hash: Key -> nat, clock: Readings, before: ShardRun, data: map<Key, Value>,
                     after: ShardRun, orders: seq<seq<(Key, Value)>>, ticks: seq<nat>, i: nat)
    requires Placed(hash, |before.shards|, before.shards)
    requires BatchResult(cfg, hash, clock, before, data, after, orders, ticks)
    requires i < |before.shards| && cfg.timeout == 0 && !Fits(cfg, hash, before.shards, data, i)
    ensures AsMap(Union(after.shards)) != AsMap(Union(before.shards)) + data
  {
    var n := |before.shards|;
    assert ShardOf(cfg, hash, clock, before, data, after, orders, ticks, i);
    var k := ShardLoses(cfg, hash, clock, before.shards, data, Run(after.shards[i], ticks[i + 1]), orders[i], ticks[i], i);
    BatchKeepsPlaced(cfg, hash, clock, before, data, after, orders, ticks);
    LookupInUnion(hash, n, before.shards, k);
    LookupInUnion(hash, n, after.shards, k);
    AsMapIsLookup(Union(before.shards), k);
    AsMapIsLookup(Union(after.shards), k);
  }

  /** The shards together refine one map: in any iteration order, a batch insert turns map m into a part of m
      overridden by the data, and without timeout into all of it exactly if every shard fits. */
  lemma BatchInsertRefinesOneMap(cfg: Config, hash: Key -> nat, clock: Readings, before: ShardRun, data: map<Key, Value>,
                                 after: ShardRun, orders: seq<seq<(Key, Value)>>, ticks: seq<nat>)
    requires Placed(hash, |before.shards|, before.shards)
    requires BatchResult(cfg, hash, clock, before, data, after, orders, ticks)
    ensures var m := AsMap(Union(before.shards)) + data;
      forall k :: k in AsMap(Union(after.shards)) ==> k in m && AsMap(Union(after.shards))[k] == m[k]
    ensures cfg.timeout == 0 ==>
      (AsMap(Union(after.shards)) == AsMap(Union(before.shards)) + data
       <==> forall i :: 0 <= i < |before.shards| ==> Fits(cfg, hash, before.shards, data, i))
  {
    hide Fits;
    var m, now := AsMap(Union(before.shards)) + data, AsMap(Union(after.shards));
    forall k
      ensures k in now ==> k in m && now[k] == m[k]
      ensures cfg.timeout == 0 && (forall i :: 0 <= i < |before.shards| ==> Fits(cfg, hash, before.shards, data, i)) ==>
        (k in now <==> k in m)
    {
      BatchAtMap(cfg, hash, clock, before, data, after, orders, ticks, k);
    }
    if i :| 0 <= i < |before.shards| && cfg.timeout == 0 && !Fits(cfg, hash, before.shards, data, i) {
      BatchLosesIn(cfg, hash, clock, before, data, after, orders, ticks, i);
    }
  }

  // ----- find after a batch insert, with a timeout

  lemma {:induction false} TicksGrow(cfg: Config, hash: Key -> nat, clock: Readings, before: ShardRun, data: map<Key, Value>,
                                     after: ShardRun, orders: seq<seq<(Key, Value)>>, ticks: seq<nat>, i: nat, j: nat)
    requires Placed(hash, |before.shards|, before.shards)
    requires BatchResult(cfg, hash, clock, before, data, after, orders, ticks) && i <= j < |ticks|
    ensures ticks[i] <= ticks[j]
    decreases j
  {
    if i < j {
      var k: Key :| true;
      TicksGrow(cfg, hash, clock, before, data, after, orders, ticks, i, j - 1);
      assert ShardOf(cfg, hash, clock, before, data, after, orders, ticks, j - 1);
      ShardBatch(cfg, hash, clock, before.shards, data, Run(after.shards[j - 1], ticks[j]), orders[j - 1], ticks[j - 1], j - 1, k);
    }
  }

  lemma ShardFindAfter(cfg: Config, hash: Key -> nat, clock: Readings, before: seq<seq<Item>>, data: map<Key, Value>,
                       after: Run, order: seq<(Key, Value)>, tick: nat, i: nat, k: Key, now: int)
    requires i < |before| && DistinctKeys(before[i]) && ShardInd(hash, |before|, k) == i
    requires ShardResult(cfg, hash, clock, before, data, after, order, tick, i)
    requires Fits(cfg, hash, before, data, i) && forall t :: tick <= t < after.tick ==> clock(t) <= now
    ensures var answer := Find(cfg, after.items, k, now);
      if k in data then Ages(cfg, clock, answer, data[k], tick, after.tick, now) else answer == Find(cfg, before[i], k, now)
  {
    var part, shardCfg := Part(hash, |before|, data, i), ShardConfig(cfg, |before|, i);
    NoEntries(order, part);
    assert k in part <==> k in data;
    if order != [] {
      FindAfterBatch(shardCfg, clock, Run(before[i], tick), order, part, k, now);
      hide Enumerates, InsertBatch;
      AgesAlike(cfg, shardCfg, clock, after.items, k, tick, after.tick, now);
    }
  }

  /** The capacity plays no part in finding. */
  lemma AgesAlike(cfg: Config, other: Config, clock: Readings, s: seq<Item>, k: Key, first: nat, next: nat, now: int)
    requires cfg.timeout == other.timeout
    ensures Find(cfg, s, k, now) == Find(other, s, k, now)
    ensures forall answer, v :: Ages(other, clock, answer, v, first, next, now) ==> Ages(cfg, clock, answer, v, first, next, now)
  {
    forall answer, v | Ages(other, clock, answer, v, first, next, now) ensures Ages(cfg, clock, answer, v, first, next, now) {
      var tick: nat :| first <= tick < next && answer == Aging(other, clock, v, tick, now);
      assert answer == Aging(cfg, clock, v, tick, now);
    }
  }

  /** After a batch insert into shards that all have room, with any timeout and at any later reading, find answers as on the
      one map overridden by the data, each new value as old as one of the batch's own readings. */
  lemma FindAfterBatchInsert(cfg: Config, hash: Key -> nat, clock: Readings, before: ShardRun, data: map<Key, Value>,
                             after: ShardRun, orders: seq<seq<(Key, Value)>>, ticks: seq<nat>, k: Key, now: int)
    requires Placed(hash, |before.shards|, before.shards)
    requires BatchResult(cfg, hash, clock, before, data, after, orders, ticks)
    requires forall i :: 0 <= i < |before.shards| ==> Fits(cfg, hash, before.shards, data, i)
    requires forall t :: before.tick <= t < after.tick ==> clock(t) <= now
    ensures var answer := Find(cfg, Union(after.shards), k, now);
      if k in data then Ages(cfg, clock, answer, data[k], before.tick, after.tick, now)
      else answer == Find(cfg, Union(before.shards), k, now)
  {
    var n, i := |before.shards|, ShardInd(hash, |before.shards|, k);
    TicksWithin(cfg, hash, clock, before, data, after, orders, ticks, i);
    BatchKeepsPlaced(cfg, hash, clock, before, data, after, orders, ticks);
    FindInShard(cfg, hash, n, before.shards, k, now);
    FindInShard(cfg, hash, n, after.shards, k, now);
    assert DistinctKeys(before.shards[i]);
    hide Placed, BatchResult, Fits, ShardResult, Find, Union;
    ShardFindAfter(cfg, hash, clock, before.shards, data, Run(after.shards[i], ticks[i + 1]), orders[i], ticks[i], i, k, now);
    if k in data {
      var answer := Find(cfg, after.shards[i], k, now);
      var tick: nat :| ticks[i] <= tick < ticks[i + 1] && answer == Aging(cfg, clock, data[k], tick, now);
      assert before.tick <= tick < after.tick;
    }
  }

  lemma FindInShard(cfg: Config, hash: Key -> nat, n: nat, shards: seq<seq<Item>>, k: Key, now: int)
    requires Placed(hash, n, shards) && |shards| == n
    ensures Find(cfg, Union(shards), k, now) == Find(cfg, shards[ShardInd(hash, n, k)], k, now)
  {
    LookupInUnion(hash, n, shards, k);
  }

  lemma TicksWithin(cfg: Config, hash: Key -> nat, clock: Readings, before: ShardRun, data: map<Key, Value>,
                    after: ShardRun, orders: seq<seq<(Key, Value)>>, ticks: seq<nat>, i: nat)
    requires Placed(hash, |before.shards|, before.shards)
    requires BatchResult(cfg, hash, clock, before, data, after, orders, ticks) && i < |before.shards|
    ensures before.tick <= ticks[i] && ticks[i + 1] <= after.tick
    ensures ShardResult(cfg, hash, clock, before.shards, data, Run(after.shards[i], ticks[i + 1]), orders[i], ticks[i], i)
  {
    assert ShardOf(cfg, hash, clock, before, data, after, orders, ticks, i);
    hide ShardResult;
    TicksGrow(cfg, hash, clock, before, data, after, orders, ticks, 0, i);
    TicksGrow(cfg, hash, clock, before, data, after, orders, ticks, i + 1, |orders|);
  }

  // ----- capacity after a batch insert

  /** Exactly when a shard that takes a part is left within its share, for either type, any timeout and any clock: 64 too many
      are taken in a pass of the batch type, one in a pass of the other, and there perhaps an expired one more. */
  lemma ShardCapacityAfter(cfg: Config, hash: Key -> nat, clock: Readings, before: seq<seq<Item>>, data: map<Key, Value>,
                           after: Run, order: seq<(Key, Value)>, tick: nat, i: nat)
    requires i < |before| && DistinctKeys(before[i]) && Part(hash, |before|, data, i) != map[]
    requires ShardResult(cfg, hash, clock, before, data, after, order, tick, i)
    ensures var share, list := ShardCapacity(cfg.maxSize, |before|, i), Fresh(clock, tick, order) + Rest(before[i], order);
      |after.items| <= share <==>
        PassSuffices(cfg, clock, list, |AsMap(before[i]) + Part(hash, |before|, data, i)|, tick + |order|, share)
  {
    var part, shardCfg := Part(hash, |before|, data, i), ShardConfig(cfg, |before|, i);
    NoEntries(order, part);
    hide PassSuffices, InsertBatch, Enumerates, Part, AsMap, Fresh, Rest;
    BatchInsertCapacity(shardCfg, clock, Run(before[i], tick), order, part);
    SufficesAlike(cfg, shardCfg, clock, Fresh(clock, tick, order) + Rest(before[i], order), |AsMap(before[i]) + part|,
                  tick + |order|, shardCfg.maxSize);
  }

  lemma SufficesAlike(cfg: Config, other: Config, clock: Readings, s: seq<Item>, size: nat, tick: nat, max: nat)
    requires cfg.timeout == other.timeout && cfg.batch == other.batch
    ensures PassSuffices(cfg, clock, s, size, tick, max) <==> PassSuffices(other, clock, s, size, tick, max)
  {
  }

  // ----- a single insert is a batch of one

  lemma OneEntry(k: Key, v: Value)
    ensures Enumerates([(k, v)], map[k := v])
  {
    var p := [(k, v)];
    forall j | j in map[k := v] ensures exists i :: 0 <= i < |p| && p[i].0 == j {
      assert p[0].0 == j;
    }
  }

  lemma InsertIsBatch(cfg: Config, clock: Readings, r: Run, k: Key, v: Value)
    ensures Insert(cfg, clock, r, k, v) == InsertBatch(cfg, clock, r, [(k, v)])
  {
    var p := [(k, v)];
    assert p[1..] == [];
    assert SetAll(clock, r, p) == SetAll(clock, SetEntryRun(clock, r, k, v), p[1..]);
  }

  function OrdersOfOne(n: nat, i: nat, k: Key, v: Value): seq<seq<(Key, Value)>> {
    seq(n, j => if j == i then [(k, v)] else [])
  }

  function TicksOfOne(n: nat, i: nat, first: nat, next: nat): seq<nat> {
    seq(n + 1, j => if j <= i then first else next)
  }

  lemma PartsOfOne(hash: Key -> nat, n: nat, k: Key, v: Value, i: nat)
    requires 0 < n
    ensures Part(hash, n, map[k := v], i) == if i == ShardInd(hash, n, k) then map[k := v] else map[]
  {
  }

  /** What holds of batch inserts into the shards holds of single ones. */
  lemma ShardInsertIsBatch(cfg: Config, hash: Key -> nat, clock: Readings, s: ShardRun, k: Key, v: Value)
    requires 0 < |s.shards|
    ensures var n, i, after := |s.shards|, ShardInd(hash, |s.shards|, k), ShardInsert(cfg, hash, clock, s, k, v);
      BatchResult(cfg, hash, clock, s, map[k := v], after, OrdersOfOne(n, i, k, v), TicksOfOne(n, i, s.tick, after.tick))
  {
    var n, i, after := |s.shards|, ShardInd(hash, |s.shards|, k), ShardInsert(cfg, hash, clock, s, k, v);
    var orders, ticks := OrdersOfOne(n, i, k, v), TicksOfOne(n, i, s.tick, after.tick);
    OneEntry(k, v);
    InsertIsBatch(ShardConfig(cfg, n, i), clock, Run(s.shards[i], s.tick), k, v);
    hide Insert, InsertBatch, Enumerates;
    assert Enumerates([], map[]) by { NothingEnumerated(); }
    forall j | 0 <= j < n ensures ShardOf(cfg, hash, clock, s, map[k := v], after, orders, ticks, j) {
      PartsOfOne(hash, n, k, v, j);
    }
  }

  lemma NothingEnumerated()
    ensures Enumerates([], map[])
  {
  }

  /** A single insert turns map m into a part of m with the key set, and without timeout into all of it exactly if the shard
      has room for it. */
  lemma InsertRefinesOneMap(cfg: Config, hash: Key -> nat, clock: Readings, s: ShardRun, k: Key, v: Value)
    requires Placed(hash, |s.shards|, s.shards)
    ensures var m, now := AsMap(Union(s.shards))[k := v], AsMap(Union(ShardInsert(cfg, hash, clock, s, k, v).shards));
            var i := ShardInd(hash, |s.shards|, k);
      && (forall j :: j in now ==> j in m && now[j] == m[j])
      && (cfg.timeout == 0 ==>
          (now == m <==> |AsMap(s.shards[i])[k := v]| <= ShardCapacity(cfg.maxSize, |s.shards|, i)))
  {
    var n, i, after := |s.shards|, ShardInd(hash, |s.shards|, k), ShardInsert(cfg, hash, clock, s, k, v);
    var data := map[k := v];
    ShardInsertIsBatch(cfg, hash, clock, s, k, v);
    OneFits(cfg, hash, s.shards, k, v);
    hide Fits, Placed, BatchResult, ShardInsert, AsMap, Union, OrdersOfOne, TicksOfOne;
    BatchInsertRefinesOneMap(cfg, hash, clock, s, data, after, OrdersOfOne(n, i, k, v), TicksOfOne(n, i, s.tick, after.tick));
    assert AsMap(Union(s.shards)) + data == AsMap(Union(s.shards))[k := v];
  }

  lemma OneFits(cfg: Config, hash: Key -> nat, shards: seq<seq<Item>>, k: Key, v: Value)
    requires 0 < |shards|
    ensures var i := ShardInd(hash, |shards|, k);
      (forall j :: 0 <= j < |shards| ==> Fits(cfg, hash, shards, map[k := v], j))
      <==> |AsMap(shards[i])[k := v]| <= ShardCapacity(cfg.maxSize, |shards|, i)
  {
    var i := ShardInd(hash, |shards|, k);
    forall j | 0 <= j < |shards|
      ensures Part(hash, |shards|, map[k := v], j) == if j == i then map[k := v] else map[]
    {
      PartsOfOne(hash, |shards|, k, v, j);
    }
    assert k in map[k := v];
    hide Part, AsMap, ShardCapacity;
    assert AsMap(shards[i]) + map[k := v] == AsMap(shards[i])[k := v];
    assert Fits(cfg, hash, shards, map[k := v], i) <==> |AsMap(shards[i])[k := v]| <= ShardCapacity(cfg.maxSize, |shards|, i);
  }

  /** After a single insert into shards within their shares, a find at any later reading hits the key exactly if its shard may
      hold anything, until `timeout` after the insert's reading. */
  lemma SetThenGet(cfg: Config, hash: Key -> nat, clock: Readings, s: ShardRun, k: Key, v: Value, now: int)
    requires Placed(hash, |s.shards|, s.shards) && WithinShares(cfg, s.shards)
    requires cfg.timeout != 0 ==> forall t :: s.tick <= t < ShardInsert(cfg, hash, clock, s, k, v).tick ==> clock(t) <= now
    ensures Find(cfg, Union(ShardInsert(cfg, hash, clock, s, k, v).shards), k, now) ==
      if ShardCapacity(cfg.maxSize, |s.shards|, ShardInd(hash, |s.shards|, k)) > 0
         && (cfg.timeout == 0 || now <= clock(s.tick) + cfg.timeout)
      then Some(v) else None
  {
    var n, i, after := |s.shards|, ShardInd(hash, |s.shards|, k), ShardInsert(cfg, hash, clock, s, k, v);
    InsertKeepsPlaced(cfg, hash, clock, s, k, v);
    FindInUnion(cfg, hash, n, after.shards, k, now);
    hide Placed, WithinShares;
    InsertThenFind(ShardConfig(cfg, n, i), clock, Run(s.shards[i], s.tick), k, v, now);
  }

  /** Two shards of one entry each: keys whose hashes differ in the upper bits by one are both there after setting both. */
  lemma TwoKeysTwoShards(hash: Key -> nat, clock: Readings, a: Key, b: Key, va: Value, vb: Value, now: int)
    requires hash(a) == 0 && hash(b) == 0x1_0000_0000_0000
    ensures var cfg := Config(2, 0, false);
            var s := ShardInsert(cfg, hash, clock, ShardInsert(cfg, hash, clock, ShardRun([[], []], 0), a, va), b, vb);
      Find(cfg, Union(s.shards), a, now) == Some(va) && Find(cfg, Union(s.shards), b, now) == Some(vb)
  {
    var cfg, s0 := Config(2, 0, false), ShardRun([[], []], 0);
    var s1 := ShardInsert(cfg, hash, clock, s0, a, va);
    var s2 := ShardInsert(cfg, hash, clock, s1, b, vb);
    LowHashesFirst(hash, 2, a);
    NextShard(hash, 2, b, a);
    InsertKeepsPlaced(cfg, hash, clock, s0, a, va);
    ShardInsertKeepsShares(cfg, hash, clock, s0, a, va);
    InsertKeepsPlaced(cfg, hash, clock, s1, b, vb);
    assert s2.shards[0] == s1.shards[0];
    hide Placed, WithinShares, ShardInsert, Union, ShardInd;
    SetThenGet(cfg, hash, clock, s0, a, va, now);
    SetThenGet(cfg, hash, clock, s1, b, vb, now);
    FindInUnion(cfg, hash, 2, s1.shards, a, now);
    FindInUnion(cfg, hash, 2, s2.shards, a, now);
  }
}
