/** Batch inserts into one cache: what they write, whether they end within the maximum, and runs that mix them with others. */
module LruBatch {
  import opened Domain
  import opened LruModel
  import opened LruSequential
  import opened LruExpiry

  // ----- items as a map

  /** The map a list of items stands for. */
  function AsMap(s: seq<Item>): map<Key, Value> {
    if s == [] then map[] else AsMap(s[1..])[s[0].key := s[0].value]
  }

  lemma {:induction false} AsMapIsLookup(s: seq<Item>, k: Key)
    ensures k in AsMap(s) <==> Lookup(s, k).Some?
    ensures k in AsMap(s) ==> AsMap(s)[k] == Lookup(s, k).value.value
  {
    if s != [] {
      AsMapIsLookup(s[1..], k);
    }
  }

  lemma {:induction false} AsMapSize(s: seq<Item>)
    requires DistinctKeys(s)
    ensures |AsMap(s)| == |s|
  {
    if s != [] {
      AsMapSize(s[1..]);
      AsMapIsLookup(s[1..], s[0].key);
      LookupFacts(s[1..], s[0].key);
      assert forall i :: 0 <= i < |s[1..]| ==> s[1..][i] == s[i + 1] && s[0].key != s[i + 1].key;
      assert AsMap(s).Keys == AsMap(s[1..]).Keys + {s[0].key};
      assert |AsMap(s)| == |AsMap(s).Keys| && |AsMap(s[1..])| == |AsMap(s[1..]).Keys|;
    }
  }

  lemma {:induction false} LookupInConcat(s: seq<Item>, t: seq<Item>, k: Key)
    ensures Lookup(s + t, k) == if Lookup(s, k).Some? then Lookup(s, k) else Lookup(t, k)
  {
    if s == [] {
      assert s + t == t;
    } else {
      assert (s + t)[1..] == s[1..] + t;
      LookupInConcat(s[1..], t, k);
    }
  }

  lemma {:induction false} LookupInPrefix(s: seq<Item>, t: seq<Item>, k: Key)
    requires t <= s
    ensures Lookup(t, k).Some? ==> Lookup(s, k) == Lookup(t, k)
  {
    assert s == t + s[|t|..];
    LookupInConcat(t, s[|t|..], k);
  }

  // ----- what a batch writes

  /** p lists the entries of m, each once, in some order. */
  ghost predicate Enumerates(p: seq<(Key, Value)>, m: map<Key, Value>) {
    && (forall i, j :: 0 <= i < j < |p| ==> p[i].0 != p[j].0)
    && (forall i :: 0 <= i < |p| ==> p[i].0 in m && m[p[i].0] == p[i].1)
    && (forall k :: k in m ==> exists i :: 0 <= i < |p| && p[i].0 == k)
  }

  lemma {:induction false} SetAllDistinct(clock: Readings, r: Run, p: seq<(Key, Value)>)
    requires DistinctKeys(r.items)
    ensures DistinctKeys(SetAll(clock, r, p).items)
    decreases |p|
  {
    if p != [] {
      SetEntryDistinct(r.items, p[0].0, p[0].1, clock(r.tick));
      SetAllDistinct(clock, SetEntryRun(clock, r, p[0].0, p[0].1), p[1..]);
    }
  }

  /** The value the pairs write last to k. */
  function Written(p: seq<(Key, Value)>, k: Key): Option<Value> {
    if p == [] then None
    else if Written(p[1..], k).Some? then Written(p[1..], k)
    else if p[0].0 == k then Some(p[0].1) else None
  }

  function ValueAt(s: seq<Item>, k: Key): Option<Value> {
    match Lookup(s, k) case None => None case Some(x) => Some(x.value)
  }

  lemma {:induction false} SetAllWrites(clock: Readings, r: Run, p: seq<(Key, Value)>, k: Key)
    requires DistinctKeys(r.items)
    ensures ValueAt(SetAll(clock, r, p).items, k) == if Written(p, k).Some? then Written(p, k) else ValueAt(r.items, k)
    decreases |p|
  {
    if p != [] {
      SetEntryDistinct(r.items, p[0].0, p[0].1, clock(r.tick));
      LookupAfterSetEntry(r.items, p[0].0, p[0].1, clock(r.tick), k);
      SetAllWrites(clock, SetEntryRun(clock, r, p[0].0, p[0].1), p[1..], k);
    }
  }

  lemma {:induction false} WrittenAt(p: seq<(Key, Value)>, k: Key)
    requires forall i, j :: 0 <= i < j < |p| ==> p[i].0 != p[j].0
    ensures Written(p, k).Some? <==> exists i :: 0 <= i < |p| && p[i].0 == k
    ensures forall i :: 0 <= i < |p| && p[i].0 == k ==> Written(p, k) == Some(p[i].1)
  {
    if p != [] {
      WrittenAt(p[1..], k);
      assert forall i :: 0 <= i < |p[1..]| ==> p[1..][i] == p[i + 1];
      if exists i :: 0 <= i < |p| && p[i].0 == k {
        var i :| 0 <= i < |p| && p[i].0 == k;
        if i > 0 { assert p[1..][i - 1].0 == k; }
      }
    }
  }

  /** Whatever the order of the entries, a batch overrides the map by the data. */
  lemma BatchOverrides(clock: Readings, r: Run, p: seq<(Key, Value)>, m: map<Key, Value>, k: Key)
    requires DistinctKeys(r.items) && Enumerates(p, m)
    ensures ValueAt(SetAll(clock, r, p).items, k) == if k in m then Some(m[k]) else ValueAt(r.items, k)
  {
    SetAllWrites(clock, r, p, k);
    WrittenAt(p, k);
    if k in m {
      var i :| 0 <= i < |p| && p[i].0 == k;
    }
  }

  lemma {:induction false} SetAllTick(clock: Readings, r: Run, p: seq<(Key, Value)>)
    ensures SetAll(clock, r, p).tick == r.tick + |p|
    decreases |p|
  {
    if p != [] {
      SetAllTick(clock, SetEntryRun(clock, r, p[0].0, p[0].1), p[1..]);
    }
  }

  lemma SetAllAt(clock: Readings, r: Run, p: seq<(Key, Value)>, m: map<Key, Value>, k: Key)
    requires DistinctKeys(r.items) && Enumerates(p, m)
    ensures var full, after := AsMap(SetAll(clock, r, p).items), AsMap(r.items) + m;
      (k in full <==> k in after) && (k in full ==> full[k] == after[k])
  {
    BatchOverrides(clock, r, p, m, k);
    AsMapIsLookup(SetAll(clock, r, p).items, k);
    AsMapIsLookup(r.items, k);
  }

  /** The number of items after the writes of a batch, before eviction: that of the map overridden by the data. */
  lemma SetAllSize(clock: Readings, r: Run, p: seq<(Key, Value)>, m: map<Key, Value>)
    requires DistinctKeys(r.items) && Enumerates(p, m)
    ensures AsMap(SetAll(clock, r, p).items) == AsMap(r.items) + m
    ensures |SetAll(clock, r, p).items| == |AsMap(r.items) + m|
  {
    hide SetAll, AsMap, DistinctKeys, Enumerates;
    SetAllDistinct(clock, r, p);
    AsMapSize(SetAll(clock, r, p).items);
    forall k
      ensures k in AsMap(SetAll(clock, r, p).items) <==> k in AsMap(r.items) + m
      ensures k in AsMap(SetAll(clock, r, p).items) ==> AsMap(SetAll(clock, r, p).items)[k] == (AsMap(r.items) + m)[k]
    {
      SetAllAt(clock, r, p, m, k);
    }
  }

  /** The pairs as items, the last one first, stamped with one reading each. */
  function Fresh(clock: Readings, tick: nat, p: seq<(Key, Value)>): seq<Item>
    decreases |p|
  {
    if p == [] then [] else Fresh(clock, tick + 1, p[1..]) + [Item(p[0].0, p[0].1, clock(tick))]
  }

  /** The items that the pairs do not write to, in their order. */
  function Rest(s: seq<Item>, p: seq<(Key, Value)>): seq<Item>
    decreases |p|
  {
    if p == [] then s else Rest(Without(s, p[0].0), p[1..])
  }

  lemma {:induction false} RestOfOther(x: Item, s: seq<Item>, p: seq<(Key, Value)>)
    requires forall i :: 0 <= i < |p| ==> p[i].0 != x.key
    ensures Rest([x] + s, p) == [x] + Rest(s, p)
    decreases |p|
  {
    if p != [] {
      assert ([x] + s)[1..] == s;
      RestOfOther(x, Without(s, p[0].0), p[1..]);
    }
  }

  /** The list after the writes of a batch: the new items, the last written first, then the others as they were. */
  lemma {:induction false} SetAllIs(clock: Readings, r: Run, p: seq<(Key, Value)>)
    requires forall i, j :: 0 <= i < j < |p| ==> p[i].0 != p[j].0
    ensures SetAll(clock, r, p).items == Fresh(clock, r.tick, p) + Rest(r.items, p)
    decreases |p|
  {
    if p != [] {
      var (k, v) := p[0];
      var x, r1 := Item(k, v, clock(r.tick)), SetEntryRun(clock, r, k, v);
      assert forall i :: 0 <= i < |p[1..]| ==> p[1..][i] == p[i + 1];
      SetAllIs(clock, r1, p[1..]);
      RestOfOther(x, Without(r.items, k), p[1..]);
      assert Fresh(clock, r.tick, p) == Fresh(clock, r1.tick, p[1..]) + [x];
    }
  }

  // ----- capacity

  /** Exactly when a batch insert ends within the maximum, for either type, any timeout and any clock: the overridden map is
      no further above the maximum than one pass can take away. */
  lemma BatchInsertCapacity(cfg: Config, clock: Readings, r: Run, p: seq<(Key, Value)>, m: map<Key, Value>)
    requires DistinctKeys(r.items) && Enumerates(p, m)
    ensures var list := Fresh(clock, r.tick, p) + Rest(r.items, p);
      |InsertBatch(cfg, clock, r, p).items| <= cfg.maxSize <==>
        PassSuffices(cfg, clock, list, |AsMap(r.items) + m|, r.tick + |p|, cfg.maxSize)
  {
    SetAllSize(clock, r, p, m);
    SetAllIs(clock, r, p);
    SetAllTick(clock, r, p);
    hide SetAll, AsMap, Enumerates, Fresh, Rest, Evict, PassSuffices;
    PassCapacity(cfg, clock, SetAll(clock, r, p));
  }

  /** Two entries are too many for a cache of size 0 that takes one at a time. */
  lemma BatchCanOverflow(clock: Readings, j: Key, k: Key, v: Value)
    requires j != k
    ensures |InsertBatch(Config(0, 0, false), clock, Run([], 0), [(j, v), (k, v)]).items| == 1
  {
    var p := [(j, v), (k, v)];
    var r := SetEntryRun(clock, Run([], 0), j, v);
    assert p[1..] == [(k, v)];
    assert SetAll(clock, Run([], 0), p) == SetAll(clock, r, p[1..]) == SetEntryRun(clock, r, k, v);
    assert r.items == [Item(j, v, clock(0))];
    assert r.items[1..] == [];
    WithoutMissing(r.items, k);
    EvictWithoutTimeout(Config(0, 0, false), clock, SetEntryRun(clock, r, k, v));
  }

  // ----- find after a batch

  lemma {:induction false} SetAllLookup(clock: Readings, r: Run, p: seq<(Key, Value)>, k: Key)
    requires DistinctKeys(r.items) && forall i, j :: 0 <= i < j < |p| ==> p[i].0 != p[j].0
    ensures (forall i :: 0 <= i < |p| ==> p[i].0 != k) ==> Lookup(SetAll(clock, r, p).items, k) == Lookup(r.items, k)
    ensures forall i :: 0 <= i < |p| && p[i].0 == k ==>
      Lookup(SetAll(clock, r, p).items, k) == Some(Item(k, p[i].1, clock(r.tick + i)))
    decreases |p|
  {
    if p != [] {
      var r1 := SetEntryRun(clock, r, p[0].0, p[0].1);
      assert forall i :: 0 <= i < |p[1..]| ==> p[1..][i] == p[i + 1];
      SetEntryDistinct(r.items, p[0].0, p[0].1, clock(r.tick));
      LookupAfterSetEntry(r.items, p[0].0, p[0].1, clock(r.tick), k);
      SetAllLookup(clock, r1, p[1..], k);
      forall i | 0 < i < |p| && p[i].0 == k
        ensures Lookup(SetAll(clock, r, p).items, k) == Some(Item(k, p[i].1, clock(r.tick + i)))
      {
        assert p[1..][i - 1].0 == k;
      }
    }
  }

  /** What a find at reading `now` makes of value v, written at reading `tick`. */
  function Aging(cfg: Config, clock: Readings, v: Value, tick: nat, now: int): Option<Value> {
    if cfg.timeout != 0 && Expired(cfg, now, clock(tick)) then None else Some(v)
  }

  /** The answer is that of a value written at one of the readings from `first` up to `next`. */
  ghost predicate Ages(cfg: Config, clock: Readings, answer: Option<Value>, v: Value, first: nat, next: nat, now: int) {
    exists tick: nat :: first <= tick < next && answer == Aging(cfg, clock, v, tick, now)
  }

  lemma FindAfterWrites(cfg: Config, clock: Readings, r: Run, p: seq<(Key, Value)>, m: map<Key, Value>, k: Key, now: int)
    requires DistinctKeys(r.items) && Enumerates(p, m)
    ensures var answer := Find(cfg, SetAll(clock, r, p).items, k, now);
      if k in m then Ages(cfg, clock, answer, m[k], r.tick, r.tick + |p|, now) else answer == Find(cfg, r.items, k, now)
  {
    SetAllLookup(clock, r, p, k);
    if k in m {
      var i :| 0 <= i < |p| && p[i].0 == k;
      assert Find(cfg, SetAll(clock, r, p).items, k, now) == Aging(cfg, clock, m[k], r.tick + i, now);
    }
  }

  /** After a batch that does not exceed the maximum, with any timeout and at any later reading, find answers as on the items
      overridden by the data, each new value as old as its own reading. */
  lemma FindAfterBatch(cfg: Config, clock: Readings, r: Run, p: seq<(Key, Value)>, m: map<Key, Value>, k: Key, now: int)
    requires DistinctKeys(r.items) && Enumerates(p, m) && |AsMap(r.items) + m| <= cfg.maxSize
    requires forall i :: r.tick <= i < InsertBatch(cfg, clock, r, p).tick ==> clock(i) <= now
    ensures var after := InsertBatch(cfg, clock, r, p);
            var answer := Find(cfg, after.items, k, now);
      if k in m then Ages(cfg, clock, answer, m[k], r.tick, after.tick, now) else answer == Find(cfg, r.items, k, now)
  {
    var full := SetAll(clock, r, p);
    SetAllSize(clock, r, p, m);
    SetAllTick(clock, r, p);
    SetAllDistinct(clock, r, p);
    FindAfterWrites(cfg, clock, r, p, m, k, now);
    EvictLeavesPrefix(cfg, clock, full);
    hide SetAll, Evict, Enumerates;
    TimeoutEvictionInvisible(cfg, clock, full, k, now);
    assert AfterOverload(cfg, full) == full by { assert full.items[..|full.items|] == full.items; }
  }

  // ----- runs of single inserts, batch inserts and clear

  datatype Op = Put(k: Key, v: Value) | PutAll(p: seq<(Key, Value)>) | Clear

  /** The writes of one operation. */
  function Writes(clock: Readings, r: Run, op: Op): Run {
    match op
    case Put(k, v) => SetEntryRun(clock, r, k, v)
    case PutAll(p) => SetAll(clock, r, p)
    case Clear => Run([], r.tick)
  }

  /** One operation, with the eviction pass of the two inserts. */
  function Does(cfg: Config, clock: Readings, r: Run, op: Op): Run {
    if op.Clear? then Writes(clock, r, op) else Evict(cfg, clock, Writes(clock, r, op))
  }

  function MixedRuns(cfg: Config, clock: Readings, ops: seq<Op>): Run {
    if ops == [] then Run([], 0) else Does(cfg, clock, MixedRuns(cfg, clock, ops[..|ops| - 1]), ops[|ops| - 1])
  }

  /** Timestamps follow the list order, and keys are distinct. */
  ghost predicate InOrder(clock: Readings, r: Run) { Aged(clock, r) && DistinctKeys(r.items) }

  lemma {:induction false} SetAllKeepsOrder(clock: Readings, r: Run, p: seq<(Key, Value)>)
    requires Monotone(clock) && InOrder(clock, r)
    ensures InOrder(clock, SetAll(clock, r, p))
    decreases |p|
  {
    if p != [] {
      var r1 := SetEntryRun(clock, r, p[0].0, p[0].1);
      SetEntryKeepsAged(clock, r, p[0].0, p[0].1);
      SetEntryDistinct(r.items, p[0].0, p[0].1, clock(r.tick));
      SetAllKeepsOrder(clock, r1, p[1..]);
    }
  }

  lemma WritesKeepOrder(clock: Readings, r: Run, op: Op)
    requires Monotone(clock) && InOrder(clock, r)
    ensures InOrder(clock, Writes(clock, r, op))
  {
    match op {
      case Put(k, v) =>
        SetEntryKeepsAged(clock, r, k, v);
        SetEntryDistinct(r.items, k, v, clock(r.tick));
      case PutAll(p) => SetAllKeepsOrder(clock, r, p);
      case Clear =>
    }
  }

  /** Under a clock that never goes back, whatever single inserts, batch inserts and clears have been run, the list is in
      timestamp order. */
  lemma {:induction false} RunsAreAged(cfg: Config, clock: Readings, ops: seq<Op>)
    requires Monotone(clock)
    ensures InOrder(clock, MixedRuns(cfg, clock, ops))
  {
    if ops != [] {
      var r, op := MixedRuns(cfg, clock, ops[..|ops| - 1]), ops[|ops| - 1];
      RunsAreAged(cfg, clock, ops[..|ops| - 1]);
      WritesKeepOrder(clock, r, op);
      if !op.Clear? {
        EvictKeepsAged(cfg, clock, Writes(clock, r, op));
        EvictKeepsDistinct(cfg, clock, Writes(clock, r, op));
      }
    }
  }

  /** After any such run, the batch pass of one more insert, single or batch: if it drops fewer than 64 items, it ends within
      the maximum and with nothing expired at its last clock reading. */
  lemma BatchPassCompletes(cfg: Config, clock: Readings, ops: seq<Op>, op: Op)
    requires Monotone(clock) && cfg.batch && !op.Clear?
    ensures var before := Writes(clock, MixedRuns(cfg, clock, ops), op);
            var after := MixedRuns(cfg, clock, ops + [op]);
      && after.items <= before.items && |before.items| - |after.items| <= MAX_EVICT_BATCH
      && (|before.items| - |after.items| < MAX_EVICT_BATCH ==>
          && |after.items| <= cfg.maxSize
          && (cfg.timeout != 0 && after.items != [] ==>
              after.tick > before.tick && forall x :: x in after.items ==> !Expired(cfg, clock(after.tick - 1), x.stamp)))
  {
    assert (ops + [op])[..|ops|] == ops;
    var before := Writes(clock, MixedRuns(cfg, clock, ops), op);
    RunsAreAged(cfg, clock, ops);
    WritesKeepOrder(clock, MixedRuns(cfg, clock, ops), op);
    EvictLeavesPrefix(cfg, clock, before);
    if |before.items| - |Evict(cfg, clock, before).items| < MAX_EVICT_BATCH {
      BatchEvictCompletes(cfg, clock, before);
    }
  }
}
