/** The cache as its source has it: heap nodes, pointer surgery and loops, run by one thread. */
module LruHeap {
  import opened Domain
  import opened LruModel

  /** Where time() comes from: an arbitrary sequence of readings, taken one after the other. */
  class Clock {
    const readings: Readings
    var tick: nat

    constructor (readings: Readings)
      ensures this.readings == readings && tick == 0
    {
      this.readings, tick := readings, 0;
    }

    method Time() returns (now: int)
      modifies this
      ensures now == readings(old(tick)) && tick == old(tick) + 1
    {
      now := readings(tick);
      tick := tick + 1;
    }
  }

  /** What m_prev can hold; the marker says that the node is in no list. */
  datatype Link = OutOfList | Null | At(node: ListNode)

  class ListNode {
    var m_key: Key
    var m_timestamp: int
    var m_prev: Link
    var m_next: ListNode?

    constructor Sentinel()
      ensures m_prev == OutOfList && m_next == null
    {
      m_prev, m_next := OutOfList, null;
    }

    constructor (key: Key, now: int)
      ensures m_key == key && m_timestamp == now && m_prev == OutOfList && m_next == null
    {
      m_key, m_timestamp, m_prev, m_next := key, now, OutOfList, null;
    }

    predicate IsInList()
      reads this`m_prev
    {
      m_prev != OutOfList
    }
  }

  datatype HashMapValue = HashMapValue(value: Value, node: ListNode?)

  ghost function SetOf(nodes: seq<ListNode>): set<ListNode> {
    set n | n in nodes
  }

  /** The map holds exactly the items, each with its node: node i of the chain carries item i - 1. */
  ghost predicate MapsItems(m: map<Key, HashMapValue>, chain: seq<ListNode>, s: seq<Item>) {
    && |chain| == |s| + 2
    && DistinctKeys(s)
    && (forall i {:trigger s[i]} :: 0 <= i < |s| ==>
        s[i].key in m && m[s[i].key] == HashMapValue(s[i].value, chain[i + 1]))
    && (forall k :: k in m ==> exists i :: 0 <= i < |s| && s[i].key == k)
  }

  lemma MapsInserted(m: map<Key, HashMapValue>, chain: seq<ListNode>, s: seq<Item>, x: Item, node: ListNode)
    requires MapsItems(m, chain, s) && x.key !in m
    ensures MapsItems(m[x.key := HashMapValue(x.value, node)], [chain[0], node] + chain[1..], [x] + s)
  {
    var m', chain', s' := m[x.key := HashMapValue(x.value, node)], [chain[0], node] + chain[1..], [x] + s;
    forall i | 0 <= i < |s'|
      ensures s'[i].key in m' && m'[s'[i].key] == HashMapValue(s'[i].value, chain'[i + 1])
    {
      if i > 0 { assert s'[i] == s[i - 1]; }
    }
    forall k | k in m' ensures exists i :: 0 <= i < |s'| && s'[i].key == k {
      if k == x.key {
        assert s'[0].key == k;
      } else {
        var i :| 0 <= i < |s| && s[i].key == k;
        assert s'[i + 1].key == k;
      }
    }
  }

  /** Where element j of a sequence without element i stood before. */
  function Before(i: nat, j: nat): nat { if j < i then j else j + 1 }

  lemma ErasedAt(m: map<Key, HashMapValue>, chain: seq<ListNode>, s: seq<Item>, i: nat, j: nat)
    requires MapsItems(m, chain, s) && i < |s| && j < |s| - 1
    ensures var x := s[Before(i, j)];
      && (s[..i] + s[i + 1..])[j] == x && (chain[..i + 1] + chain[i + 2..])[j + 1] == chain[Before(i, j) + 1]
      && x.key != s[i].key && x.key in m && m[x.key] == HashMapValue(x.value, chain[Before(i, j) + 1])
  {
  }

  lemma ErasedDistinct(s: seq<Item>, i: nat)
    requires DistinctKeys(s) && i < |s|
    ensures DistinctKeys(s[..i] + s[i + 1..])
  {
    var s' := s[..i] + s[i + 1..];
    forall j, k | 0 <= j < k < |s'| ensures s'[j].key != s'[k].key {
      assert s'[j] == s[Before(i, j)] && s'[k] == s[Before(i, k)];
    }
  }

  lemma MapsErased(m: map<Key, HashMapValue>, chain: seq<ListNode>, s: seq<Item>, i: nat)
    requires MapsItems(m, chain, s) && i < |s|
    ensures MapsItems(m - {s[i].key}, chain[..i + 1] + chain[i + 2..], s[..i] + s[i + 1..])
  {
    var m', chain', s' := m - {s[i].key}, chain[..i + 1] + chain[i + 2..], s[..i] + s[i + 1..];
    ErasedDistinct(s, i);
    hide DistinctKeys;
    forall j | 0 <= j < |s'|
      ensures s'[j].key in m' && m'[s'[j].key] == HashMapValue(s'[j].value, chain'[j + 1])
    {
      ErasedAt(m, chain, s, i, j);
    }
    forall k | k in m' ensures exists j :: 0 <= j < |s'| && s'[j].key == k {
      var j0 :| 0 <= j0 < |s| && s[j0].key == k;
      assert s'[if j0 < i then j0 else j0 - 1] == s[j0];
    }
  }

  class ConcurrentLRUCache {
    const cfg: Config
    const clock: Clock
    const m_head: ListNode
    const m_tail: ListNode
    var m_size: int
    var m_map: map<Key, HashMapValue>
    var m_evict_flag: bool

    ghost var Chain: seq<ListNode>    // the list with its two sentinels
    ghost var Contents: seq<Item>     // the items of the nodes in between
    ghost var Deleted: set<ListNode>  // nodes given back to the allocator
    ghost var Repr: set<ListNode>     // every node this cache has ever linked

    // ----- what the structure means

    /** Forward and backward links both run along Chain, from sentinel to sentinel. */
    ghost predicate Linked()
      reads `Chain, `Repr, Repr`m_prev, Repr`m_next
    {
      && |Chain| >= 2
      && (forall i {:trigger Chain[i]} :: 0 <= i < |Chain| ==> Chain[i] in Repr)
      && Chain[0] == m_head && Chain[|Chain| - 1] == m_tail
      && (forall i, j :: 0 <= i < j < |Chain| ==> Chain[i] != Chain[j])
      && m_head.m_prev == Null
      && (forall i {:trigger Chain[i].m_next} :: 0 <= i < |Chain| - 1 ==> Chain[i].m_next == Chain[i + 1])
      && (forall i {:trigger Chain[i].m_prev} :: 0 < i < |Chain| ==> Chain[i].m_prev == At(Chain[i - 1]))
    }

    /** Node i of Chain carries item i - 1 of Contents. */
    ghost predicate Labelled()
      reads `Chain, `Contents, `Repr, Repr`m_key, Repr`m_timestamp
    {
      && |Chain| == |Contents| + 2
      && (forall i {:trigger Contents[i]} :: 0 <= i < |Contents| ==>
          && Chain[i + 1] in Repr
          && Chain[i + 1].m_key == Contents[i].key
          && Chain[i + 1].m_timestamp == Contents[i].stamp)
    }

    ghost predicate Mapped()
      reads `m_map, `Chain, `Contents
    {
      MapsItems(m_map, Chain, Contents)
    }

    /** What holds between the steps of one eviction pass. */
    ghost predicate Consistent()
      reads this, Repr
    {
      && Linked() && Labelled() && Mapped()
      && m_size == |Contents|
      && (forall n :: n in Chain ==> n !in Deleted)
    }

    ghost predicate Valid()
      reads this, Repr
    {
      Consistent() && !m_evict_flag
    }

    /** The abstract state: the items, and how often the clock has been read. */
    ghost function View(): Run
      reads this, clock
    {
      Run(Contents, clock.tick)
    }

    constructor (maxSize: nat, timeout: nat, batch: bool, clock: Clock)
      ensures Valid() && fresh(Repr) && View() == Run([], clock.tick)
      ensures cfg == Config(maxSize, timeout, batch) && this.clock == clock
    {
      cfg := Config(maxSize, timeout, batch);
      this.clock := clock;
      m_size, m_map, m_evict_flag := 0, map[], false;
      var head := new ListNode.Sentinel();
      var tail := new ListNode.Sentinel();
      m_head, m_tail := head, tail;
      Chain, Contents, Deleted, Repr := [head, tail], [], {}, {head, tail};
      new;
      m_head.m_prev := Null;
      m_head.m_next := m_tail;
      m_tail.m_prev := At(m_head);
    }

    /** The map and the item sequence answer a lookup alike. */
    lemma MapIsLookup(k: Key)
      requires Mapped()
      ensures k in m_map <==> Lookup(Contents, k).Some?
      ensures k in m_map ==> exists i :: 0 <= i < |Contents| && Contents[i] == Lookup(Contents, k).value
                                      && m_map[k] == HashMapValue(Contents[i].value, Chain[i + 1])
    {
      LookupFacts(Contents, k);
      if k in m_map {
        var i :| 0 <= i < |Contents| && Contents[i].key == k;
        LookupIs(Contents, Contents[i]);
      }
    }

    method Find(key: Key) returns (r: Option<Value>)
      requires Valid()
      modifies clock
      ensures Valid() && Contents == old(Contents)
      ensures r == LruModel.Find(cfg, Contents, key, clock.readings(old(clock.tick)))
      ensures clock.tick == old(clock.tick) + (if Lookup(Contents, key).Some? then 1 else 0)
    {
      MapIsLookup(key);
      if key !in m_map {
        return None;
      }
      var cur_time := clock.Time();
      if cfg.timeout != 0 && cur_time - m_map[key].node.m_timestamp > cfg.timeout {
        // as good as not there: the entry stays until an eviction
        return None;
      }
      return Some(m_map[key].value);
    }

    // ----- list surgery

    /** Unlinks the node at position i, wherever it stands; only its neighbours change besides. */
    method Delink(node: ListNode, ghost i: nat)
      requires Linked() && Labelled() && 0 < i < |Chain| - 1 && Chain[i] == node
      modifies `Chain, `Contents, Repr`m_prev, Repr`m_next
      ensures Linked() && Labelled() && !node.IsInList() && node !in Chain
      ensures Chain == old(Chain)[..i] + old(Chain)[i + 1..]
      ensures Contents == old(Contents)[..i - 1] + old(Contents)[i..]
    {
      var prev, next := node.m_prev.node, node.m_next;
      prev.m_next := next;
      next.m_prev := At(prev);
      node.m_prev := OutOfList;
      Chain := Chain[..i] + Chain[i + 1..];
      Contents := Contents[..i - 1] + Contents[i..];
    }

    /** Links a node that is in no list right behind the head; x is the item it carries. */
    method PushFront(node: ListNode, ghost x: Item)
      requires Linked() && Labelled() && node !in Chain
      requires node.m_key == x.key && node.m_timestamp == x.stamp
      modifies `Chain, `Contents, `Repr, Repr`m_prev, Repr`m_next, node`m_prev, node`m_next
      ensures Linked() && Labelled() && Repr == old(Repr) + {node}
      ensures Chain == [m_head, node] + old(Chain)[1..]
      ensures Contents == [x] + old(Contents)
    {
      var oldRealHead := m_head.m_next;
      node.m_prev := At(m_head);
      node.m_next := oldRealHead;
      oldRealHead.m_prev := At(node);
      m_head.m_next := node;
      Chain := [m_head, node] + Chain[1..];
      Contents := [x] + Contents;
      Repr := Repr + {node};
    }

    // ----- operations

    method SetEntry(key: Key, value: Value) returns (ok: bool)
      requires Consistent()
      modifies `m_map, `m_size, `Chain, `Contents, `Repr, Repr, clock
      ensures Consistent() && fresh(Repr - old(Repr))
      ensures View() == SetEntryRun(clock.readings, old(View()), key, value) && ok
    {
      var newFlag := key !in m_map;
      if !newFlag {
        // the node stays the key's own, with a new stamp and in front
        UpdateEntry(key, value);
      } else {
        InsertEntry(key, value);
      }
      return true;
    }

    method UpdateEntry(key: Key, value: Value)
      requires Consistent() && key in m_map
      modifies `m_map, `Chain, `Contents, `Repr, Repr, clock
      ensures Consistent() && Repr == old(Repr)
      ensures View() == SetEntryRun(clock.readings, old(View()), key, value)
    {
      hide MapsItems, Linked, Labelled;
      ghost var i := ReorderedMap(key, value, clock.readings(clock.tick));
      m_map := m_map[key := m_map[key].(value := value)];
      var node := m_map[key].node;
      if node != null && node.IsInList() {
        MoveToFront(node, i + 1, value);
      }
    }

    /** What moving the node of an existing key to the front makes of map, chain and items. */
    lemma ReorderedMap(key: Key, value: Value, now: int) returns (i: nat)
      requires Linked() && Mapped() && key in m_map
      ensures i < |Contents| == |Chain| - 2 && Contents[i].key == key
      ensures Chain[0] == m_head && Chain[i + 1].IsInList() && m_map[key].node == Chain[i + 1]
      ensures LruModel.SetEntry(Contents, key, value, now) == [Item(key, value, now)] + (Contents[..i] + Contents[i + 1..])
      ensures var chain := [m_head, Chain[i + 1]] + (Chain[..i + 1] + Chain[i + 2..])[1..];
        && MapsItems(m_map[key := m_map[key].(value := value)], chain, LruModel.SetEntry(Contents, key, value, now))
        && (forall n :: n in chain ==> n in Chain)
    {
      i :| 0 <= i < |Contents| && Contents[i].key == key;
      var node, item := Chain[i + 1], Item(key, value, now);
      MapsErased(m_map, Chain, Contents, i);
      MapsInserted(m_map - {key}, Chain[..i + 1] + Chain[i + 2..], Contents[..i] + Contents[i + 1..], item, node);
      assert m_map[key := m_map[key].(value := value)] == (m_map - {key})[key := HashMapValue(value, node)];
      WithoutAt(Contents, i);
      SplicedWithin(Chain, i + 1);
    }

    /** Restamps the node at position i and moves it to the front; v is the value its item now has. */
    method MoveToFront(node: ListNode, ghost i: nat, ghost v: Value)
      requires Linked() && Labelled() && 0 < i < |Chain| - 1 && Chain[i] == node
      modifies `Chain, `Contents, `Repr, Repr, clock
      ensures Linked() && Labelled() && Repr == old(Repr) && clock.tick == old(clock.tick) + 1
      ensures Chain == [m_head, node] + (old(Chain)[..i] + old(Chain)[i + 1..])[1..]
      ensures Contents == [Item(old(Contents)[i - 1].key, v, clock.readings(old(clock.tick)))]
                        + (old(Contents)[..i - 1] + old(Contents)[i..])
    {
      node.m_timestamp := clock.Time();
      ghost var item := Item(Contents[i - 1].key, v, node.m_timestamp);
      assert Repr == Repr + {node};
      Contents := Contents[i - 1 := item];
      Delink(node, i);
      PushFront(node, item);
    }

    method InsertEntry(key: Key, value: Value)
      requires Consistent() && key !in m_map
      modifies `m_map, `m_size, `Chain, `Contents, `Repr, Repr, clock
      ensures Consistent() && fresh(Repr - old(Repr))
      ensures View() == SetEntryRun(clock.readings, old(View()), key, value)
    {
      hide MapsItems, Linked, Labelled;
      var now := clock.Time();
      var node := new ListNode(key, now);
      ExtendedMap(key, value, now, node);
      m_map := m_map[key := HashMapValue(value, node)];
      PushFront(node, Item(key, value, now));
      m_size := m_size + 1;
    }

    /** What a node for a missing key in front makes of map, chain and items. */
    lemma ExtendedMap(key: Key, value: Value, now: int, node: ListNode)
      requires Linked() && Mapped() && key !in m_map
      ensures LruModel.SetEntry(Contents, key, value, now) == [Item(key, value, now)] + Contents
      ensures var chain := [m_head, node] + Chain[1..];
        && MapsItems(m_map[key := HashMapValue(value, node)], chain, LruModel.SetEntry(Contents, key, value, now))
        && (forall n :: n in chain ==> n in Chain || n == node)
    {
      MapIsLookup(key);
      WithoutMissing(Contents, key);
      MapsInserted(m_map, Chain, Contents, Item(key, value, now), node);
    }

    // ----- eviction

    method RemoveNode(timeoutCheck: bool)
      requires Consistent()
      modifies `m_map, `m_size, `Chain, `Contents, `Deleted, Repr, clock
      ensures Consistent()
      ensures View() == LruModel.RemoveNode(cfg, clock.readings, old(View()), timeoutCheck)
    {
      hide MapsItems, Linked, Labelled;
      LastNode();
      var moribund := m_tail.m_prev.node;
      if moribund == m_head {
        // only the sentinels are left
        return;
      }
      if timeoutCheck {
        var cur_time := clock.Time();
        if cur_time - moribund.m_timestamp <= cfg.timeout {
          // not old enough at this reading
          return;
        }
      }
      ShortenedMap();
      Delink(moribund, |Chain| - 2);
      assert Contents == DropLast(old(Contents));
      if moribund.m_key !in m_map {
        // never taken: every linked node has its entry
        return;
      }
      m_map := m_map - {moribund.m_key};
      Deleted := Deleted + {moribund};
      m_size := m_size - 1;
    }

    /** The node before the tail sentinel is the head sentinel, or carries the last item. */
    lemma LastNode()
      requires Linked() && Labelled()
      ensures |Chain| == |Contents| + 2
      ensures m_tail in Chain && m_tail.m_prev.At? && m_tail.m_prev.node == Chain[|Chain| - 2]
      ensures m_tail.m_prev.node == m_head <==> Contents == []
      ensures var node := m_tail.m_prev.node;
        Contents != [] ==> node.m_key == Contents[|Contents| - 1].key && node.m_timestamp == Contents[|Contents| - 1].stamp
    {
      assert Chain[|Chain| - 1] == m_tail;
    }

    /** What dropping the last node makes of map, chain and items. */
    lemma ShortenedMap()
      requires Linked() && Mapped() && Contents != []
      ensures var n, k := |Chain|, Contents[|Contents| - 1].key;
        && k in m_map
        && MapsItems(m_map - {k}, Chain[..n - 2] + Chain[n - 1..], DropLast(Contents))
        && (forall m :: m in Chain[..n - 2] + Chain[n - 1..] ==> m in Chain && m != Chain[n - 2])
    {
      var n := |Chain|;
      MapsErased(m_map, Chain, Contents, |Contents| - 1);
      assert DropLast(Contents) == Contents[..|Contents| - 1] + Contents[|Contents|..];
      forall m | m in Chain[..n - 2] + Chain[n - 1..] ensures m in Chain && m != Chain[n - 2] {
      }
    }

    method IsLastNodeTimeout() returns (expired: bool)
      requires Consistent()
      modifies clock
      ensures (expired, View()) == TestLast(cfg, clock.readings, old(View()))
    {
      if cfg.timeout == 0 {
        return false;
      }
      hide MapsItems, Linked, Labelled;
      LastNode();
      var moribund := m_tail.m_prev.node;
      if moribund == m_head {
        // nothing that could expire
        return false;
      }
      var cur_time := clock.Time();
      if cur_time - moribund.m_timestamp > cfg.timeout {
        return true;
      }
      return false;
    }

    method Evict()
      requires Consistent()
      modifies `m_map, `m_size, `m_evict_flag, `Chain, `Contents, `Deleted, Repr, clock
      ensures Consistent() && m_evict_flag == old(m_evict_flag)
      ensures View() == if old(m_evict_flag) then old(View()) else LruModel.Evict(cfg, clock.readings, old(View()))
    {
      hide Linked, Labelled, Mapped;
      if m_evict_flag {
        // one pass at a time
        return;
      }
      m_evict_flag := true;
      if !cfg.batch {
        EvictOne();
      } else {
        EvictBatch();
      }
      m_evict_flag := false;
    }

    method EvictOne()
      requires Consistent() && !cfg.batch
      modifies `m_map, `m_size, `Chain, `Contents, `Deleted, Repr, clock
      ensures Consistent()
      ensures View() == LruModel.Evict(cfg, clock.readings, old(View()))
    {
      hide Linked, Labelled, Mapped;
      if m_size > cfg.maxSize {
        // one item, which is as many as a single insert can bring too many
        RemoveNode(false);
      }
      var expired := IsLastNodeTimeout();
      if expired {
        RemoveNode(true);
      }
    }

    method EvictBatch()
      requires Consistent() && cfg.batch
      modifies `m_map, `m_size, `Chain, `Contents, `Deleted, Repr, clock
      ensures Consistent()
      ensures View() == LruModel.Evict(cfg, clock.readings, old(View()))
    {
      hide Linked, Labelled, Mapped;
      var cnt: nat := 0;
      while cnt < MAX_EVICT_BATCH && m_size > cfg.maxSize
        invariant Consistent()
        invariant OverloadLoop(cfg, clock.readings, View(), cnt) == OverloadLoop(cfg, clock.readings, old(View()), 0)
      {
        RemoveNode(false);
        cnt := cnt + 1;
      }
      ghost var first, rounds := View(), cnt;
      while cnt < MAX_EVICT_BATCH
        invariant Consistent()
        invariant TimeoutLoop(cfg, clock.readings, View(), cnt) == TimeoutLoop(cfg, clock.readings, first, rounds)
      {
        var expired := IsLastNodeTimeout();
        if !expired {
          break;
        }
        RemoveNode(true);
        cnt := cnt + 1;
      }
    }

    // ----- the public operations

    method Insert(key: Key, value: Value) returns (flag: bool)
      requires Valid()
      modifies this, Repr, clock
      ensures Valid() && fresh(Repr - old(Repr)) && flag
      ensures View() == LruModel.Insert(cfg, clock.readings, old(View()), key, value)
    {
      flag := SetEntry(key, value);
      if flag {
        Evict();
      }
    }

    /** Both batch overloads: the pairs in whatever order the unordered map yields them. */
    method InsertBatch(data: seq<(Key, Value)>)
      requires Valid()
      modifies this, Repr, clock
      ensures Valid() && fresh(Repr - old(Repr))
      ensures View() == LruModel.InsertBatch(cfg, clock.readings, old(View()), data)
    {
      for i := 0 to |data|
        invariant Consistent() && !m_evict_flag && fresh(Repr - old(Repr))
        invariant SetAll(clock.readings, View(), data[i..]) == SetAll(clock.readings, old(View()), data)
      {
        assert data[i..][1..] == data[i + 1..];
        var ok := SetEntry(data[i].0, data[i].1);
      }
      Evict();
    }

    method SnapshotKeys(keys: seq<Key>) returns (r: seq<Key>)
      requires Valid()
      ensures r == keys + Keys(Contents)
    {
      r := keys;
      ghost var i := 0;
      var node := m_head.m_next;
      while node != m_tail
        invariant 0 <= i <= |Contents| && node == Chain[i + 1]
        invariant r == keys + Keys(Contents)[..i]
        decreases |Contents| - i
      {
        assert node == Chain[i + 1] && Contents[i].key == node.m_key;
        r := r + [node.m_key];
        node := node.m_next;
        i := i + 1;
      }
      assert Chain[|Chain| - 1] == m_tail;
    }

    method Size() returns (size: int)
      requires Valid()
      ensures size == |Contents|
    {
      size := m_size;
    }

    method Clear()
      requires Valid()
      modifies this, Repr
      ensures Valid() && Repr == old(Repr) && Contents == []
      ensures Deleted == old(Deleted) + SetOf(old(Chain)[1..|old(Chain)| - 1])
    {
      m_map := map[];
      var node := m_head.m_next;
      ghost var i, gone := 1, {};
      while node != m_tail
        invariant 1 <= i < |Chain| && node == Chain[i]
        invariant gone == SetOf(Chain[1..i])
        decreases |Chain| - i
      {
        var next := node.m_next;
        assert Chain[1..i + 1] == Chain[1..i] + [node];
        gone := gone + {node};
        node := next;
        i := i + 1;
      }
      assert Chain[|Chain| - 1] == m_tail && Chain[0] == m_head;
      m_head.m_next := m_tail;
      m_tail.m_prev := At(m_head);
      m_size := 0;
      Chain, Contents, Deleted := [m_head, m_tail], [], Deleted + gone;
    }
  }

  /** Moving node i to the front adds no node. */
  lemma SplicedWithin(c: seq<ListNode>, i: nat)
    requires 0 < i < |c|
    ensures forall n :: n in [c[0], c[i]] + (c[..i] + c[i + 1..])[1..] ==> n in c
  {
  }
}
