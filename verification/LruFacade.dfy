/** The cache as its users see it: single and batch gets and sets over the sharded cache. */
module LruFacade {
  import opened Domain
  import opened LruModel
  import opened LruHeap
  import opened LruBatch
  import opened ShardModel
  import opened ScalableHeap

  /** What a batch get has collected, and how often the clock has been read. */
  datatype Batch = Batch(values: map<Key, Value>, missing: seq<Key>, tick: nat)

  function TickAfter(s: seq<Item>, k: Key, tick: nat): nat {
    if Lookup(s, k).Some? then tick + 1 else tick
  }

  /** A hit is kept unless the result already has the key; a miss is listed, as often as it is asked for. */
  function GetOne(cfg: Config, clock: Readings, s: seq<Item>, b: Batch, k: Key): Batch {
    match Find(cfg, s, k, clock(b.tick))
    case Some(v) => Batch(if k in b.values then b.values else b.values[k := v], b.missing, TickAfter(s, k, b.tick))
    case None => Batch(b.values, b.missing + [k], TickAfter(s, k, b.tick))
  }

  function GetAll(cfg: Config, clock: Readings, s: seq<Item>, b: Batch, keys: seq<Key>): Batch {
    if keys == [] then b
    else GetOne(cfg, clock, s, GetAll(cfg, clock, s, b, keys[..|keys| - 1]), keys[|keys| - 1])
  }

  class LRUCache {
    const m_cache: ConcurrentScalableCache

    ghost predicate Valid()
      reads m_cache, m_cache.Repr
    {
      m_cache.Valid()
    }

    /** A cache without shards, which comes of a hardware count of 0, can hold nothing and be asked for no key. */
    predicate HasShards()
      reads m_cache
    {
      m_cache.m_num_shards > 0
    }

    /** All items of the cache. */
    ghost function Items(): seq<Item>
      reads m_cache
    {
      Union(m_cache.Shards)
    }

    constructor (maxSize: nat, timeout: nat, numShards: nat, batch: bool, hash: Key -> nat, hardware: nat, clock: Clock)
      ensures Valid() && fresh(m_cache) && fresh(m_cache.Repr - {clock}) && m_cache.clock == clock
      ensures m_cache.cfg == Config(maxSize, timeout, batch) && m_cache.hash == hash
      ensures m_cache.Shards == seq(if numShards == 0 then hardware else numShards, i => [])
    {
      m_cache := new ConcurrentScalableCache(maxSize, timeout, numShards, batch, hash, hardware, clock);
    }

    method Get(key: Key) returns (found: bool)
      requires Valid() && HasShards()
      modifies m_cache.clock
      ensures Valid() && m_cache.Shards == old(m_cache.Shards)
      ensures found == Find(m_cache.cfg, Items(), key, m_cache.clock.readings(old(m_cache.clock.tick))).Some?
      ensures m_cache.clock.tick == TickAfter(Items(), key, old(m_cache.clock.tick))
    {
      var r := m_cache.Find(key);
      return r.Some?;
    }

    /** The second form also hands out the value; on a miss the caller's variable keeps what it held. */
    method GetValue(key: Key, value: Value) returns (found: bool, result: Value)
      requires Valid() && HasShards()
      modifies m_cache.clock
      ensures Valid() && m_cache.Shards == old(m_cache.Shards)
      ensures (if found then Some(result) else None)
           == Find(m_cache.cfg, Items(), key, m_cache.clock.readings(old(m_cache.clock.tick)))
      ensures !found ==> result == value
      ensures m_cache.clock.tick == TickAfter(Items(), key, old(m_cache.clock.tick))
    {
      var r := m_cache.Find(key);
      result := value;
      if r.Some? {
        result := r.value;
      }
      found := r.Some?;
    }

    method MGetMissing(keys: seq<Key>, missing: seq<Key>) returns (notFound: seq<Key>)
      requires Valid() && (HasShards() || keys == [])
      modifies m_cache.clock
      ensures Valid() && m_cache.Shards == old(m_cache.Shards)
      ensures var b := GetAll(m_cache.cfg, m_cache.clock.readings, Items(),
                              Batch(map[], missing, old(m_cache.clock.tick)), keys);
        notFound == b.missing && m_cache.clock.tick == b.tick
    {
      notFound := missing;
      ghost var b := Batch(map[], missing, m_cache.clock.tick);
      for i := 0 to |keys|
        invariant Valid() && m_cache.Shards == old(m_cache.Shards)
        invariant var done := GetAll(m_cache.cfg, m_cache.clock.readings, Items(), b, keys[..i]);
          notFound == done.missing && m_cache.clock.tick == done.tick
      {
        assert keys[..i + 1][..i] == keys[..i];
        var hit := Get(keys[i]);
        if !hit {
          notFound := notFound + [keys[i]];
        }
      }
      assert keys[..|keys|] == keys;
    }

    method MGet(keys: seq<Key>, values: map<Key, Value>, missing: seq<Key>)
      returns (found: map<Key, Value>, notFound: seq<Key>)
      requires Valid() && (HasShards() || keys == [])
      modifies m_cache.clock
      ensures Valid() && m_cache.Shards == old(m_cache.Shards)
      ensures Batch(found, notFound, m_cache.clock.tick)
           == GetAll(m_cache.cfg, m_cache.clock.readings, Items(), Batch(values, missing, old(m_cache.clock.tick)), keys)
    {
      found, notFound := values, missing;
      ghost var b := Batch(values, missing, m_cache.clock.tick);
      for i := 0 to |keys|
        invariant Valid() && m_cache.Shards == old(m_cache.Shards)
        invariant Batch(found, notFound, m_cache.clock.tick)
               == GetAll(m_cache.cfg, m_cache.clock.readings, Items(), b, keys[..i])
      {
        assert keys[..i + 1][..i] == keys[..i];
        var r := m_cache.Find(keys[i]);
        if r.Some? {
          // insert does not overwrite
          if keys[i] !in found {
            found := found[keys[i] := r.value];
          }
        } else {
          notFound := notFound + [keys[i]];
        }
      }
      assert keys[..|keys|] == keys;
    }

    method Set(key: Key, value: Value) returns (flag: bool)
      requires Valid() && HasShards()
      modifies m_cache`Repr, m_cache`Shards, m_cache.Repr
      ensures Valid() && fresh(m_cache.Repr - old(m_cache.Repr)) && flag
      ensures m_cache.View()
           == ShardInsert(m_cache.cfg, m_cache.hash, m_cache.clock.readings, old(m_cache.View()), key, value)
    {
      flag := m_cache.Insert(key, value);
    }

    method MSet(data: map<Key, Value>) returns (ghost orders: seq<seq<(Key, Value)>>, ghost ticks: seq<nat>)
      requires Valid() && (HasShards() || data == map[])
      modifies m_cache`Repr, m_cache`Shards, m_cache.Repr
      ensures Valid() && fresh(m_cache.Repr - old(m_cache.Repr))
      ensures BatchResult(m_cache.cfg, m_cache.hash, m_cache.clock.readings, old(m_cache.View()), data, m_cache.View(),
                          orders, ticks)
    {
      orders, ticks := m_cache.InsertBatch(data);
    }

    method Size() returns (size: int)
      requires Valid()
      ensures size == |AsMap(Items())|
    {
      if HasShards() {
        TotalSizeIsMapSize(m_cache.hash, m_cache.m_num_shards, m_cache.Shards);
      }
      size := m_cache.Size();
    }
  }

  // ----- what a batch get amounts to

  function Misses(cfg: Config, s: seq<Item>, keys: seq<Key>, now: int): seq<Key> {
    if keys == [] then []
    else
      var (rest, k) := (Misses(cfg, s, keys[..|keys| - 1], now), keys[|keys| - 1]);
      if Find(cfg, s, k, now).None? then rest + [k] else rest
  }

  /** Every asked key ends up in the result or among the missing, old entries stay as they were, and new ones carry
      the value the cache holds. */
  lemma {:induction false} BatchGetIsComplete(cfg: Config, clock: Readings, s: seq<Item>, b: Batch, keys: seq<Key>)
    ensures var r := GetAll(cfg, clock, s, b, keys);
      && (forall k :: k in keys ==> k in r.values || k in r.missing)
      && b.missing <= r.missing
      && (forall k :: k in r.missing ==> k in b.missing || k in keys)
      && (forall k :: k in b.values ==> k in r.values && r.values[k] == b.values[k])
      && (forall k :: k in r.values && k !in b.values ==> k in keys && k in AsMap(s) && r.values[k] == AsMap(s)[k])
  {
    if keys != [] {
      BatchGetIsComplete(cfg, clock, s, b, keys[..|keys| - 1]);
      AsMapIsLookup(s, keys[|keys| - 1]);
      assert keys == keys[..|keys| - 1] + [keys[|keys| - 1]];
    }
  }

  /** The two batch gets report the same missing keys. */
  lemma {:induction false} BatchGetsAgree(cfg: Config, clock: Readings, s: seq<Item>, b: Batch, c: Batch, keys: seq<Key>)
    requires b.missing == c.missing && b.tick == c.tick
    ensures GetAll(cfg, clock, s, b, keys).missing == GetAll(cfg, clock, s, c, keys).missing
    ensures GetAll(cfg, clock, s, b, keys).tick == GetAll(cfg, clock, s, c, keys).tick
  {
    if keys != [] {
      BatchGetsAgree(cfg, clock, s, b, c, keys[..|keys| - 1]);
    }
  }

  /** Without timeout, or if all readings agree, a batch get lists exactly the keys a single get would miss, in order and with
      repetition, and holds exactly the others. */
  lemma {:induction false} BatchGetAtOneReading(cfg: Config, clock: Readings, s: seq<Item>, b: Batch, keys: seq<Key>, now: int)
    requires cfg.timeout == 0 || forall i :: b.tick <= i ==> clock(i) == now
    ensures var r := GetAll(cfg, clock, s, b, keys);
      && r.missing == b.missing + Misses(cfg, s, keys, now) && r.tick >= b.tick
      && (forall k :: k in r.values <==> k in b.values || (k in keys && Find(cfg, s, k, now).Some?))
      && (forall k :: k in r.values && k !in b.values ==> Find(cfg, s, k, now) == Some(r.values[k]))
  {
    if keys != [] {
      BatchGetAtOneReading(cfg, clock, s, b, keys[..|keys| - 1], now);
      assert keys == keys[..|keys| - 1] + [keys[|keys| - 1]];
    }
  }
}
