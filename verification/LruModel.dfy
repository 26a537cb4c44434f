/** The cache of a sequential run as a value: one sequence, most recently written first. */
module LruModel {
  import opened Domain

  datatype Item = Item(key: Key, value: Value, stamp: int)

  /** The readings that successive calls of time() return. */
  type Readings = nat -> int

  ghost predicate Monotone(clock: Readings) {
    forall i, j :: 0 <= i <= j ==> clock(i) <= clock(j)
  }

  predicate DistinctKeys(s: seq<Item>) {
    forall i, j :: 0 <= i < j < |s| ==> s[i].key != s[j].key
  }

  function Keys(s: seq<Item>): seq<Key> {
    seq(|s|, i requires 0 <= i < |s| => s[i].key)
  }

  function Lookup(s: seq<Item>, k: Key): Option<Item> {
    if s == [] then None else if s[0].key == k then Some(s[0]) else Lookup(s[1..], k)
  }

  /** What `find` reports at reading `now`. */
  function Find(cfg: Config, s: seq<Item>, k: Key, now: int): Option<Value> {
    match Lookup(s, k)
    case None => None
    case Some(item) => if cfg.timeout != 0 && Expired(cfg, now, item.stamp) then None else Some(item.value)
  }

  function Without(s: seq<Item>, k: Key): seq<Item> {
    if s == [] then [] else if s[0].key == k then s[1..] else [s[0]] + Without(s[1..], k)
  }

  /** `set_entry`: whether k was there or not, it now comes first, with the new value and stamp. */
  function SetEntry(s: seq<Item>, k: Key, v: Value, now: int): seq<Item> {
    [Item(k, v, now)] + Without(s, k)
  }

  function DropLast<T>(s: seq<T>): seq<T>
    requires s != []
  {
    s[..|s| - 1]
  }

  predicate LastExpired(cfg: Config, s: seq<Item>, now: int) {
    s != [] && Expired(cfg, now, s[|s| - 1].stamp)
  }

  /** The cache between two calls: its items, and how often the clock has been read. */
  datatype Run = Run(items: seq<Item>, tick: nat)

  /** `is_last_node_timeout`: its answer, and the run after its clock reading, if it takes one. */
  function TestLast(cfg: Config, clock: Readings, r: Run): (bool, Run) {
    if cfg.timeout == 0 || r.items == [] then (false, r)
    else (LastExpired(cfg, r.items, clock(r.tick)), r.(tick := r.tick + 1))
  }

  /** `remove_node`: drops the last item; with `check`, only if a further clock reading finds it expired. */
  function RemoveNode(cfg: Config, clock: Readings, r: Run, check: bool): Run {
    if r.items == [] then r
    else if !check then Run(DropLast(r.items), r.tick)
    else if LastExpired(cfg, r.items, clock(r.tick)) then Run(DropLast(r.items), r.tick + 1)
    else Run(r.items, r.tick + 1)
  }

  /** The first batch loop: remove while there are too many and rounds are left. */
  function OverloadLoop(cfg: Config, clock: Readings, r: Run, cnt: nat): (Run, nat)
    decreases |r.items|
  {
    if cnt < MAX_EVICT_BATCH && |r.items| > cfg.maxSize
    then OverloadLoop(cfg, clock, RemoveNode(cfg, clock, r, false), cnt + 1)
    else (r, cnt)
  }

  /** The second batch loop: remove expired last items while rounds are left. */
  function TimeoutLoop(cfg: Config, clock: Readings, r: Run, cnt: nat): Run
    decreases MAX_EVICT_BATCH - cnt
  {
    if cnt >= MAX_EVICT_BATCH then r else
    var (expired, r1) := TestLast(cfg, clock, r);
    if expired then TimeoutLoop(cfg, clock, RemoveNode(cfg, clock, r1, true), cnt + 1) else r1
  }

  function Evict(cfg: Config, clock: Readings, r: Run): Run {
    if cfg.batch then
      var (r1, cnt) := OverloadLoop(cfg, clock, r, 0);
      TimeoutLoop(cfg, clock, r1, cnt)
    else
      var r1 := if |r.items| > cfg.maxSize then RemoveNode(cfg, clock, r, false) else r;
      var (expired, r2) := TestLast(cfg, clock, r1);
      if expired then RemoveNode(cfg, clock, r2, true) else r2
  }

  /** `set_entry` reads the clock once. */
  function SetEntryRun(clock: Readings, r: Run, k: Key, v: Value): Run {
    Run(SetEntry(r.items, k, v, clock(r.tick)), r.tick + 1)
  }

  /** `insert` with eviction in the calling thread. */
  function Insert(cfg: Config, clock: Readings, r: Run, k: Key, v: Value): Run {
    Evict(cfg, clock, SetEntryRun(clock, r, k, v))
  }

  function SetAll(clock: Readings, r: Run, data: seq<(Key, Value)>): Run
    decreases |data|
  {
    if data == [] then r
    else SetAll(clock, SetEntryRun(clock, r, data[0].0, data[0].1), data[1..])
  }

  /** Batch `insert`: all entries first, then one eviction pass. */
  function InsertBatch(cfg: Config, clock: Readings, r: Run, data: seq<(Key, Value)>): Run {
    Evict(cfg, clock, SetAll(clock, r, data))
  }

  // ----- basic facts

  lemma {:induction false} WithoutFacts(s: seq<Item>, k: Key)
    requires DistinctKeys(s)
    ensures DistinctKeys(Without(s, k))
    ensures forall x :: x in Without(s, k) <==> x in s && x.key != k
    ensures |Without(s, k)| == |s| - (if Lookup(s, k).Some? then 1 else 0)
  {
    if s != [] {
      assert s == [s[0]] + s[1..];
      if s[0].key == k {
        forall x | x in s[1..] ensures x.key != k {
          var i :| 0 <= i < |s[1..]| && s[1..][i] == x;
          assert s[0].key != s[i + 1].key;
        }
      } else {
        var rest := Without(s[1..], k);
        WithoutFacts(s[1..], k);
        forall i | 0 <= i < |rest| ensures rest[i].key != s[0].key {
          assert rest[i] in s[1..];
          var j :| 0 <= j < |s[1..]| && s[1..][j] == rest[i];
          assert s[0].key != s[j + 1].key;
        }
      }
    }
  }

  lemma {:induction false} LookupFacts(s: seq<Item>, k: Key)
    ensures Lookup(s, k).Some? ==> Lookup(s, k).value in s && Lookup(s, k).value.key == k
    ensures Lookup(s, k).None? ==> forall x :: x in s ==> x.key != k
  {
    if s != [] {
      assert s == [s[0]] + s[1..];
      LookupFacts(s[1..], k);
    }
  }

  /** With distinct keys, lookup finds exactly the item that is there. */
  lemma LookupIs(s: seq<Item>, x: Item)
    requires DistinctKeys(s) && x in s
    ensures Lookup(s, x.key) == Some(x)
  {
    LookupFacts(s, x.key);
    var i :| 0 <= i < |s| && s[i] == x;
    var y := Lookup(s, x.key).value;
    var j :| 0 <= j < |s| && s[j] == y;
    assert i < j ==> s[i].key != s[j].key;
    assert j < i ==> s[j].key != s[i].key;
  }

  lemma SetEntryDistinct(s: seq<Item>, k: Key, v: Value, now: int)
    requires DistinctKeys(s)
    ensures DistinctKeys(SetEntry(s, k, v, now))
  {
    WithoutFacts(s, k);
    var rest := Without(s, k);
    assert forall i :: 0 <= i < |rest| ==> rest[i] in rest;
  }

  lemma {:induction false} WithoutAt(s: seq<Item>, i: nat)
    requires i < |s| && DistinctKeys(s)
    ensures Without(s, s[i].key) == s[..i] + s[i + 1..]
  {
    if i > 0 {
      assert s[0].key != s[i].key;
      WithoutAt(s[1..], i - 1);
      assert s[..i] + s[i + 1..] == [s[0]] + (s[1..][..i - 1] + s[1..][i..]);
    }
  }

  lemma {:induction false} WithoutMissing(s: seq<Item>, k: Key)
    requires Lookup(s, k).None?
    ensures Without(s, k) == s
  {
    if s != [] {
      WithoutMissing(s[1..], k);
    }
  }

  /** Index i of the sequence without k, as an index of the sequence: those from position m on move by one. */
  function Skip(m: nat, i: nat): nat { if i < m then i else i + 1 }

  /** Without k, the items are the others, in their order. */
  lemma {:induction false} WithoutShape(s: seq<Item>, k: Key) returns (m: nat)
    requires DistinctKeys(s)
    ensures m <= |s| && |Without(s, k)| == (if m < |s| then |s| - 1 else |s|)
    ensures forall i :: 0 <= i < |Without(s, k)| ==> Skip(m, i) < |s| && Without(s, k)[i] == s[Skip(m, i)]
    ensures forall i :: 0 <= i < |Without(s, k)| ==> Without(s, k)[i].key != k
  {
    m := 0;
    if s != [] && s[0].key != k {
      var m' := WithoutShape(s[1..], k);
      m := m' + 1;
      forall i | 0 < i < |Without(s, k)|
        ensures Skip(m, i) < |s| && Without(s, k)[i] == s[Skip(m, i)] && Without(s, k)[i].key != k
      {
        assert Without(s, k)[i] == Without(s[1..], k)[i - 1] == s[1..][Skip(m', i - 1)];
      }
    }
  }
}
