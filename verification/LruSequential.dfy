/** Properties of sequential runs, stated on the item sequence that the heap class is proved to maintain. */
module LruSequential {
  import opened Domain
  import opened LruModel

  function Min(a: nat, b: nat): nat { if a <= b then a else b }

  function Take<T>(s: seq<T>, n: nat): seq<T> { s[..Min(n, |s|)] }

  // ----- lookups after a write

  lemma {:induction false} LookupAfterWithout(s: seq<Item>, k: Key, j: Key)
    requires DistinctKeys(s)
    ensures Lookup(Without(s, k), j) == if j == k then None else Lookup(s, j)
  {
    if s != [] {
      if s[0].key == k {
        LookupFacts(s[1..], k);
        assert forall i :: 0 <= i < |s[1..]| ==> s[1..][i] == s[i + 1] && s[i + 1].key != k;
      } else {
        LookupAfterWithout(s[1..], k, j);
      }
    }
  }

  lemma LookupAfterSetEntry(s: seq<Item>, k: Key, v: Value, now: int, j: Key)
    requires DistinctKeys(s)
    ensures Lookup(SetEntry(s, k, v, now), j) == if j == k then Some(Item(k, v, now)) else Lookup(s, j)
  {
    LookupAfterWithout(s, k, j);
    assert SetEntry(s, k, v, now)[1..] == Without(s, k);
  }

  // ----- eviction without timeout is truncation

  lemma {:induction false} OverloadLoopDrops(cfg: Config, clock: Readings, r: Run, cnt: nat)
    requires cnt <= MAX_EVICT_BATCH
    ensures var excess := if |r.items| > cfg.maxSize then |r.items| - cfg.maxSize else 0;
            var n := Min(excess, MAX_EVICT_BATCH - cnt);
      OverloadLoop(cfg, clock, r, cnt) == (Run(r.items[..|r.items| - n], r.tick), cnt + n)
    decreases |r.items|
  {
    if cnt < MAX_EVICT_BATCH && |r.items| > cfg.maxSize {
      OverloadLoopDrops(cfg, clock, RemoveNode(cfg, clock, r, false), cnt + 1);
      assert forall n :: 0 <= n < |r.items| ==> DropLast(r.items)[..n] == r.items[..n];
    } else {
      assert r.items[..|r.items|] == r.items;
    }
  }

  /** How many last items one eviction pass drops for overload. */
  function Overload(cfg: Config, n: nat): (d: nat)
    ensures d <= n
  {
    Min(if n > cfg.maxSize then n - cfg.maxSize else 0, if cfg.batch then MAX_EVICT_BATCH else 1)
  }

  /** The overload half of `evict`. */
  function AfterOverload(cfg: Config, r: Run): Run {
    Run(r.items[..|r.items| - Overload(cfg, |r.items|)], r.tick)
  }

  /** The timeout half of `evict`; `cnt` rounds are spent already. */
  function TimeoutHalf(cfg: Config, clock: Readings, r: Run, cnt: nat): Run {
    if cfg.batch then TimeoutLoop(cfg, clock, r, cnt)
    else if TestLast(cfg, clock, r).0 then RemoveNode(cfg, clock, TestLast(cfg, clock, r).1, true)
    else TestLast(cfg, clock, r).1
  }

  lemma EvictInHalves(cfg: Config, clock: Readings, r: Run)
    ensures Evict(cfg, clock, r) == TimeoutHalf(cfg, clock, AfterOverload(cfg, r), Overload(cfg, |r.items|))
  {
    OverloadLoopDrops(cfg, clock, r, 0);
    assert r.items[..|r.items|] == r.items;
  }

  lemma EvictWithoutTimeout(cfg: Config, clock: Readings, r: Run)
    requires cfg.timeout == 0
    ensures Evict(cfg, clock, r) == AfterOverload(cfg, r)
  {
    EvictInHalves(cfg, clock, r);
  }

  // ----- the list is the most recently written keys

  /** The cache after single inserts, from empty. */
  function Runs(cfg: Config, clock: Readings, ops: seq<(Key, Value)>): Run {
    if ops == [] then Run([], 0)
    else
      var (k, v) := ops[|ops| - 1];
      Insert(cfg, clock, Runs(cfg, clock, ops[..|ops| - 1]), k, v)
  }

  /** What a cache of unlimited size would hold: every key written, latest write first. */
  function Recent(clock: Readings, ops: seq<(Key, Value)>): seq<Item> {
    if ops == [] then []
    else
      var (k, v) := ops[|ops| - 1];
      SetEntry(Recent(clock, ops[..|ops| - 1]), k, v, clock(|ops| - 1))
  }

  lemma {:induction false} RecentDistinct(clock: Readings, ops: seq<(Key, Value)>)
    ensures DistinctKeys(Recent(clock, ops))
  {
    if ops != [] {
      var (k, v) := ops[|ops| - 1];
      RecentDistinct(clock, ops[..|ops| - 1]);
      SetEntryDistinct(Recent(clock, ops[..|ops| - 1]), k, v, clock(|ops| - 1));
    }
  }

  lemma TakeRest(s: seq<Item>, n: nat)
    requires s != [] && n > 0
    ensures Take(s, n) == [s[0]] + Take(s[1..], n - 1)
  {
  }

  lemma {:induction false} WithoutTaken(s: seq<Item>, k: Key, n: nat)
    requires DistinctKeys(s)
    ensures Take(Without(Take(s, n + 1), k), n) == Take(Without(s, k), n)
  {
    if s != [] {
      TakeRest(s, n + 1);
      var t := Take(s[1..], n);
      assert Take(s, n + 1)[1..] == t;
      if s[0].key != k && n > 0 {
        WithoutTaken(s[1..], k, n - 1);
        TakeRest(Without(s, k), n);
        TakeRest([s[0]] + Without(t, k), n);
        assert ([s[0]] + Without(t, k))[1..] == Without(t, k);
      }
    }
  }

  /** Writing into the truncated list and truncating again is writing into the full one and truncating. */
  lemma TruncatedStep(full: seq<Item>, k: Key, v: Value, now: int, n: nat)
    requires DistinctKeys(full)
    ensures |SetEntry(Take(full, n), k, v, now)| <= n + 1
    ensures Take(SetEntry(Take(full, n), k, v, now), n) == Take(SetEntry(full, k, v, now), n)
  {
    WithoutFacts(Take(full, n), k);
    if n > 0 {
      WithoutTaken(full, k, n - 1);
      assert Take(SetEntry(full, k, v, now), n) == [Item(k, v, now)] + Take(Without(full, k), n - 1);
      assert Take(SetEntry(Take(full, n), k, v, now), n)
          == [Item(k, v, now)] + Take(Without(Take(full, n), k), n - 1);
    }
  }

  /** Synchronous single inserts with timeout 0: the list is the first maxSize most recently written keys. */
  lemma {:induction false} HistoryCharacterised(cfg: Config, clock: Readings, ops: seq<(Key, Value)>)
    requires cfg.timeout == 0
    ensures Runs(cfg, clock, ops) == Run(Take(Recent(clock, ops), cfg.maxSize), |ops|)
  {
    if ops != [] {
      var (k, v) := ops[|ops| - 1];
      var before := ops[..|ops| - 1];
      var r, now := Runs(cfg, clock, before), clock(|before|);
      HistoryCharacterised(cfg, clock, before);
      RecentDistinct(clock, before);
      TruncatedStep(Recent(clock, before), k, v, now, cfg.maxSize);
      EvictWithoutTimeout(cfg, clock, SetEntryRun(clock, r, k, v));
    }
  }

  /** The step of the last write to k, or -1. */
  function LastWrite(ops: seq<(Key, Value)>, k: Key): int {
    if ops == [] then -1 else if ops[|ops| - 1].0 == k then |ops| - 1 else LastWrite(ops[..|ops| - 1], k)
  }

  lemma {:induction false} LastWriteIs(ops: seq<(Key, Value)>, k: Key)
    ensures -1 <= LastWrite(ops, k) < |ops|
    ensures LastWrite(ops, k) >= 0 ==> ops[LastWrite(ops, k)].0 == k
    ensures forall i :: LastWrite(ops, k) < i < |ops| ==> ops[i].0 != k
  {
    if ops != [] {
      LastWriteIs(ops[..|ops| - 1], k);
    }
  }

  /** Item x carries what the latest write to its key wrote. */
  predicate IsLatest(clock: Readings, ops: seq<(Key, Value)>, x: Item) {
    var i := LastWrite(ops, x.key);
    0 <= i < |ops| && x.value == ops[i].1 && x.stamp == clock(i)
  }

  /** The items stand in the order of their last writes, latest first. */
  ghost predicate ByLastWrite(ops: seq<(Key, Value)>, s: seq<Item>) {
    forall i, j :: 0 <= i < j < |s| ==> LastWrite(ops, s[i].key) > LastWrite(ops, s[j].key)
  }

  /** Writing k changes neither when the others were written nor, with k taken out, their order. */
  lemma RestByLastWrite(ops: seq<(Key, Value)>, t: seq<Item>)
    requires ops != [] && DistinctKeys(t) && ByLastWrite(ops[..|ops| - 1], t)
    ensures ByLastWrite(ops, Without(t, ops[|ops| - 1].0))
  {
    var k := ops[|ops| - 1].0;
    var rest := Without(t, k);
    var m := WithoutShape(t, k);
    forall i, j | 0 <= i < j < |rest| ensures LastWrite(ops, rest[i].key) > LastWrite(ops, rest[j].key) {
      assert Skip(m, i) < Skip(m, j);
    }
  }

  /** Recent is what its name says: exactly the written keys, each with its latest write, latest first. */
  lemma {:induction false} RecentIsByLastWrite(clock: Readings, ops: seq<(Key, Value)>)
    ensures forall x :: x in Recent(clock, ops) ==> IsLatest(clock, ops, x)
    ensures ByLastWrite(ops, Recent(clock, ops))
    ensures forall k :: LastWrite(ops, k) >= 0 ==> Lookup(Recent(clock, ops), k).Some?
  {
    if ops != [] {
      var before := ops[..|ops| - 1];
      var (k, v) := ops[|ops| - 1];
      var t := Recent(clock, before);
      RecentIsByLastWrite(clock, before);
      RecentDistinct(clock, before);
      WithoutFacts(t, k);
      forall x | x in Recent(clock, ops) ensures IsLatest(clock, ops, x) {
        if x.key != k { assert x in t && IsLatest(clock, before, x); }
      }
      NewestFirst(ops, t, v, clock(|before|));
      forall j | LastWrite(ops, j) >= 0 ensures Lookup(Recent(clock, ops), j).Some? {
        LookupAfterSetEntry(t, k, v, clock(|before|), j);
      }
    }
  }

  lemma NewestFirst(ops: seq<(Key, Value)>, t: seq<Item>, v: Value, now: int)
    requires ops != [] && DistinctKeys(t) && ByLastWrite(ops[..|ops| - 1], t)
    ensures ByLastWrite(ops, SetEntry(t, ops[|ops| - 1].0, v, now))
  {
    var k := ops[|ops| - 1].0;
    var s := SetEntry(t, k, v, now);
    RestByLastWrite(ops, t);
    WithoutFacts(t, k);
    forall i, j | 0 <= i < j < |s| ensures LastWrite(ops, s[i].key) > LastWrite(ops, s[j].key) {
      assert s[j] == Without(t, k)[j - 1] && s[j] in Without(t, k);
      LastWriteIs(ops[..|ops| - 1], s[j].key);
      if i > 0 { assert s[i] == Without(t, k)[i - 1]; }
    }
  }

  /** On one history, the keys of a smaller cache are a prefix of the keys of a larger one. */
  lemma SmallerCacheIsPrefix(small: Config, large: Config, clock: Readings, ops: seq<(Key, Value)>)
    requires small.timeout == 0 && large.timeout == 0 && small.maxSize <= large.maxSize
    ensures Runs(small, clock, ops).items <= Runs(large, clock, ops).items
  {
    HistoryCharacterised(small, clock, ops);
    HistoryCharacterised(large, clock, ops);
  }
}
