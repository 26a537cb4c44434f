/** The sharded cache: several caches on the heap, one clock. */
module ScalableHeap {
  import opened Domain
  import opened LruModel
  import opened LruHeap
  import opened LruBatch
  import opened ShardModel

  /** An unordered map's entries, in whatever order iteration yields them. */
  method Enumerate(m: map<Key, Value>) returns (p: seq<(Key, Value)>)
    ensures Enumerates(p, m) && |p| == |m|
  {
    p := [];
    var rest := m;
    while rest.Keys != {}
      invariant rest.Keys <= m.Keys && |p| + |rest| == |m|
      invariant forall i, j :: 0 <= i < j < |p| ==> p[i].0 != p[j].0
      invariant forall i :: 0 <= i < |p| ==> p[i].0 in m && p[i].0 !in rest && m[p[i].0] == p[i].1
      invariant forall k :: k in m ==> k in rest || Listed(p, k)
      decreases rest.Keys
    {
      var k :| k in rest;
      ghost var before, keys := p, rest.Keys;
      p := p + [(k, m[k])];
      rest := map j | j in rest && j != k :: rest[j];
      assert rest.Keys == keys - {k};
      assert |rest| == |rest.Keys|;
      forall j | j in m ensures j in rest || Listed(p, j) {
        if j == k { assert p[|before|].0 == k; }
        if Listed(before, j) {
          var i :| 0 <= i < |before| && before[i].0 == j;
          assert p[i].0 == j;
        }
      }
    }
  }

  ghost predicate Listed(p: seq<(Key, Value)>, k: Key) {
    exists i :: 0 <= i < |p| && p[i].0 == k
  }

  class ConcurrentScalableCache {
    const cfg: Config
    const hash: Key -> nat
    const clock: Clock
    var m_num_shards: nat
    var m_shards: seq<ConcurrentLRUCache>

    ghost var Repr: set<object>
    ghost var Shards: seq<seq<Item>>   // the contents of the shards

    /** Shard i is a valid cache of its own, with its share of the capacity. */
    ghost predicate ShardValid(i: nat)
      requires i < |m_shards| == m_num_shards == |Shards|
      reads this, Repr
    {
      var s := m_shards[i];
      && s in Repr && s.Repr <= Repr
      && s.clock == clock && s.cfg == ShardConfig(cfg, m_num_shards, i)
      && s.Valid() && s.Contents == Shards[i]
    }

    /** Shards are different caches that share no node. */
    ghost predicate Apart(i: nat, j: nat)
      requires i < |m_shards| && j < |m_shards|
      reads this, Repr
    {
      && m_shards[i] in Repr && m_shards[j] in Repr
      && (i != j ==> m_shards[i] != m_shards[j] && m_shards[i].Repr !! m_shards[j].Repr)
    }

    ghost predicate Valid()
      reads this, Repr
    {
      && m_num_shards == |m_shards| == |Shards|
      && this !in Repr && clock in Repr
      && (forall i :: 0 <= i < |m_shards| ==> ShardValid(i))
      && (forall i, j :: 0 <= i < |m_shards| && 0 <= j < |m_shards| ==> Apart(i, j))
      && (m_num_shards > 0 ==> Placed(hash, m_num_shards, Shards))
    }

    ghost function View(): ShardRun
      reads this, clock
    {
      ShardRun(Shards, clock.tick)
    }

    /** `hardware` is what hardware_concurrency() returns; it may be 0. */
    constructor (maxSize: nat, timeout: nat, numShards: nat, batch: bool, hash: Key -> nat, hardware: nat, clock: Clock)
      ensures Valid() && fresh(Repr - {clock})
      ensures cfg == Config(maxSize, timeout, batch) && this.hash == hash && this.clock == clock
      ensures m_num_shards == if numShards == 0 then hardware else numShards
      ensures Shards == seq(m_num_shards, i => [])
    {
      cfg := Config(maxSize, timeout, batch);
      this.hash, this.clock := hash, clock;
      var n := if numShards == 0 then hardware else numShards;
      m_num_shards := n;
      m_shards, Shards := [], [];
      Repr := {clock};
      new;
      hide ConcurrentLRUCache.Valid;
      for i := 0 to n
        invariant m_num_shards == n && |m_shards| == i && Built(n)
        invariant fresh(Repr - {clock})
      {
        AddShard(n, i, maxSize, timeout, batch);
      }
      forall i | 0 <= i < n ensures ShardValid(i) && Shards[i] == [] {
        assert BuiltShard(i, n);
      }
      assert Shards == seq(n, i => []);
    }

    /** Shard i of n is a valid empty cache with its share of the capacity. */
    ghost predicate BuiltShard(i: nat, n: nat)
      requires i < |m_shards| == |Shards| && 0 < n
      reads this, Repr
    {
      var s := m_shards[i];
      && s in Repr && s.Repr <= Repr
      && s.clock == clock && s.cfg == ShardConfig(cfg, n, i) && s.Valid() && s.Contents == Shards[i] == []
    }

    /** The shards built so far, of n. */
    ghost predicate Built(n: nat)
      reads this, Repr
    {
      && |m_shards| == |Shards| <= n && this !in Repr && clock in Repr
      && (forall i :: 0 <= i < |m_shards| ==> BuiltShard(i, n))
      && (forall i, j :: 0 <= i < |m_shards| && 0 <= j < |m_shards| ==> Apart(i, j))
    }

    method AddShard(n: nat, i: nat, maxSize: nat, timeout: nat, batch: bool)
      requires Built(n) && i == |m_shards| < n && cfg == Config(maxSize, timeout, batch)
      modifies `m_shards, `Shards, `Repr
      ensures Built(n) && |m_shards| == i + 1 && fresh(Repr - old(Repr))
    {
      hide ConcurrentLRUCache.Valid;
      var shard := NewShard(n, i, maxSize, timeout, batch);
      m_shards := m_shards + [shard];
      Shards := Shards + [[]];
      Repr := Repr + {shard} + shard.Repr;
      forall j | 0 <= j <= i
        ensures BuiltShard(j, n)
        ensures j < i ==> m_shards[j] in old(Repr) && m_shards[j].Repr <= old(Repr)
      {
        if j < i { assert old(BuiltShard(j, n)); }
      }
      hide BuiltShard;
      forall j, k | 0 <= j <= i && 0 <= k <= i ensures Apart(j, k) {
        if j < i && k < i { assert old(Apart(j, k)); }
      }
    }

    /** An empty cache with shard i's share of the capacity. */
    method NewShard(n: nat, i: nat, maxSize: nat, timeout: nat, batch: bool) returns (shard: ConcurrentLRUCache)
      requires 0 < n
      ensures fresh(shard) && fresh(shard.Repr) && shard.Valid() && shard.Contents == []
      ensures shard.clock == clock && shard.cfg == ShardConfig(Config(maxSize, timeout, batch), n, i)
    {
      var s := maxSize / n;
      if i == 0 {
        s := s + maxSize % n;
      }
      shard := new ConcurrentLRUCache(s, timeout, batch, clock);
    }

    method GetShardInd(key: Key) returns (h: nat)
      requires Valid() && m_num_shards > 0
      ensures h == ShardInd(hash, m_num_shards, key) < m_num_shards
    {
      h := hash(key) / SHIFT_48 % m_num_shards;
    }

    method Find(key: Key) returns (r: Option<Value>)
      requires Valid() && m_num_shards > 0
      modifies clock
      ensures Valid() && Shards == old(Shards)
      ensures r == LruModel.Find(cfg, Union(Shards), key, clock.readings(old(clock.tick)))
      ensures clock.tick == old(clock.tick) + (if Lookup(Union(Shards), key).Some? then 1 else 0)
    {
      hide ConcurrentLRUCache.Valid;
      var h := GetShardInd(key);
      assert ShardValid(h);
      FindInUnion(cfg, hash, m_num_shards, Shards, key, clock.readings(clock.tick));
      LookupInUnion(hash, m_num_shards, Shards, key);
      r := m_shards[h].Find(key);
      forall i | 0 <= i < |m_shards| ensures ShardValid(i) {
        assert old(ShardValid(i));
      }
      forall i, j | 0 <= i < |m_shards| && 0 <= j < |m_shards| ensures Apart(i, j) {
        assert old(Apart(i, j));
      }
    }

    method Insert(key: Key, value: Value) returns (flag: bool)
      requires Valid() && m_num_shards > 0
      modifies `Repr, `Shards, Repr
      ensures Valid() && fresh(Repr - old(Repr)) && flag
      ensures View() == ShardInsert(cfg, hash, clock.readings, old(View()), key, value)
    {
      hide ConcurrentLRUCache.Valid;
      var h := GetShardInd(key);
      assert ShardValid(h);
      InsertKeepsPlaced(cfg, hash, clock.readings, View(), key, value);
      flag := m_shards[h].Insert(key, value);
      Shards := Shards[h := m_shards[h].Contents];
      Repr := Repr + m_shards[h].Repr;
      forall i | 0 <= i < |m_shards| ensures ShardValid(i) {
        assert old(ShardValid(i)) && old(Apart(h, i));
      }
      forall i, j | 0 <= i < |m_shards| && 0 <= j < |m_shards| ensures Apart(i, j) {
        assert old(Apart(i, j)) && old(ShardValid(i)) && old(ShardValid(j));
      }
    }

    method Size() returns (size: int)
      requires Valid()
      ensures size == TotalSize(Shards)
    {
      size := 0;
      for i := 0 to m_num_shards
        invariant size == TotalSize(Shards[..i])
      {
        assert ShardValid(i);
        var s := m_shards[i].Size();
        assert Shards[..i + 1][..i] == Shards[..i];
        size := size + s;
      }
      assert Shards[..m_num_shards] == Shards;
    }

    method SnapshotKeys(keys: seq<Key>) returns (r: seq<Key>)
      requires Valid()
      ensures r == keys + Keys(Union(Shards))
    {
      hide ConcurrentLRUCache.Valid;
      r := keys;
      for i := 0 to m_num_shards
        invariant r == keys + Keys(Union(Shards[..i]))
      {
        assert ShardValid(i);
        assert Shards[..i + 1][..i] == Shards[..i];
        r := m_shards[i].SnapshotKeys(r);
        assert Union(Shards[..i + 1]) == Union(Shards[..i]) + Shards[i];
        assert Keys(Union(Shards[..i + 1])) == Keys(Union(Shards[..i])) + Keys(Shards[i]);
      }
      assert Shards[..m_num_shards] == Shards;
    }

    /** Splits the data by shard, entry by entry. */
    method Split(data: map<Key, Value>) returns (data_vec: seq<map<Key, Value>>)
      requires Valid() && (m_num_shards > 0 || data == map[])
      ensures |data_vec| == m_num_shards
      ensures forall i :: 0 <= i < m_num_shards ==> data_vec[i] == Part(hash, m_num_shards, data, i)
    {
      data_vec := seq(m_num_shards, i => map[]);
      var rest := data;
      while rest.Keys != {}
        invariant rest.Keys <= data.Keys && |data_vec| == m_num_shards
        invariant forall k :: k in rest ==> rest[k] == data[k]
        invariant forall i :: 0 <= i < m_num_shards ==>
          data_vec[i] == map k | k in Part(hash, m_num_shards, data, i) && k !in rest :: data[k]
        decreases rest.Keys
      {
        var k :| k in rest;
        var ind := GetShardInd(k);
        ghost var keys := rest.Keys;
        data_vec := data_vec[ind := data_vec[ind][k := rest[k]]];
        rest := map j | j in rest && j != k :: rest[j];
        assert rest.Keys == keys - {k};
      }
    }

    /** Without shards there is no shard to give an entry to. */
    method InsertBatch(data: map<Key, Value>) returns (ghost orders: seq<seq<(Key, Value)>>, ghost ticks: seq<nat>)
      requires Valid() && (m_num_shards > 0 || data == map[])
      modifies `Repr, `Shards, Repr
      ensures Valid() && fresh(Repr - old(Repr))
      ensures BatchResult(cfg, hash, clock.readings, old(View()), data, View(), orders, ticks)
    {
      var data_vec := Split(data);
      orders, ticks := [], [clock.tick];
      for i := 0 to m_num_shards
        invariant Valid() && fresh(Repr - old(Repr)) && |orders| == i == |ticks| - 1
        invariant |Shards| == |old(Shards)| == m_num_shards
        invariant ticks[0] == old(clock.tick) && ticks[i] == clock.tick
        invariant forall j :: i <= j < |Shards| ==> Shards[j] == old(Shards)[j]
        invariant forall j :: 0 <= j < i ==>
          ShardResult(cfg, hash, clock.readings, old(Shards), data, Run(Shards[j], ticks[j + 1]), orders[j], ticks[j], j)
      {
        ghost var order := [];
        if |data_vec[i]| > 0 {
          order := InsertPart(i, old(Shards), data, data_vec[i]);
        }
        orders, ticks := orders + [order], ticks + [clock.tick];
      }
    }

    /** `first` is what the shards held before the batch. */
    method InsertPart(i: nat, ghost first: seq<seq<Item>>, ghost data: map<Key, Value>, part: map<Key, Value>)
        returns (order: seq<(Key, Value)>)
      requires Valid() && i < m_num_shards && |part| > 0 && part == Part(hash, m_num_shards, data, i)
      requires |first| == m_num_shards && first[i] == Shards[i]
      modifies `Repr, `Shards, Repr
      ensures Valid() && fresh(Repr - old(Repr)) && |Shards| == |old(Shards)|
      ensures Shards == old(Shards)[i := Shards[i]]
      ensures ShardResult(cfg, hash, clock.readings, first, data, Run(Shards[i], clock.tick), order, old(clock.tick), i)
    {
      hide ConcurrentLRUCache.Valid;
      assert ShardValid(i);
      order := Enumerate(part);
      m_shards[i].InsertBatch(order);
      Shards := Shards[i := m_shards[i].Contents];
      Repr := Repr + m_shards[i].Repr;
      ShardStaysPlaced(cfg, hash, clock.readings, old(Shards), data, Run(Shards[i], clock.tick), order, old(clock.tick), i);
      forall j | 0 <= j < |m_shards| ensures ShardValid(j) {
        assert old(ShardValid(j)) && old(Apart(i, j));
      }
      forall j, k | 0 <= j < |m_shards| && 0 <= k < |m_shards| ensures Apart(j, k) {
        assert old(Apart(j, k)) && old(ShardValid(j)) && old(ShardValid(k));
      }
    }

    method Clear()
      requires Valid()
      modifies `Repr, `Shards, Repr
      ensures Valid() && Repr == old(Repr)
      ensures Shards == seq(m_num_shards, i => []) && clock.tick == old(clock.tick)
    {
      for i := 0 to m_num_shards
        invariant Valid() && Repr == old(Repr) && clock.tick == old(clock.tick)
        invariant forall j :: 0 <= j < i ==> Shards[j] == []
      {
        ClearShard(i);
      }
    }

    method ClearShard(i: nat)
      requires Valid() && i < m_num_shards
      modifies `Repr, `Shards, Repr
      ensures Valid() && Repr == old(Repr) && |Shards| == |old(Shards)| && Shards == old(Shards)[i := []]
      ensures clock.tick == old(clock.tick)
    {
      hide ConcurrentLRUCache.Valid;
      assert ShardValid(i);
      m_shards[i].Clear();
      Shards := Shards[i := []];
      forall j | 0 <= j < |m_shards| ensures ShardValid(j) {
        assert old(ShardValid(j)) && old(Apart(i, j));
      }
      forall j, k | 0 <= j < |m_shards| && 0 <= k < |m_shards| ensures Apart(j, k) {
        assert old(Apart(j, k)) && old(ShardValid(j)) && old(ShardValid(k));
      }
    }
  }
}
