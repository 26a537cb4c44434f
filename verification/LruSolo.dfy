/**
 The step machine and the sequential specification agree: a thread that runs alone takes the cache from one settled
 state to the one that the specification gives, at the same clock readings.
 */
module LruSolo {
  import opened Domain
  import opened LruProtocol
  import opened LruInvariant
  import opened LruAccounts
  import opened LruHistory
  import opened LruSafety
  import M = LruModel

  /** Who runs, under which clock; `op` is what it begins when idle. */
  datatype Env = Env(cfg: Config, clock: M.Readings, t: Tid, op: Op)

  /** A state of the machine, and how often the clock has been read. */
  datatype Solo = Solo(s: State, tick: nat)

  /** How often t's next step reads the clock. */
  function Reads(s: State, t: Tid): nat
    requires t < |s.pcs|
  {
    match s.pcs[t]
    case Setting(_, Create(_)) => 1
    case Setting(k, Refresh) =>
      if k in s.entries && s.entries[k].node.Some? && s.entries[k].node.value in s.list then 1 else 0
    case Getting(_, Check) => 1
    case Evicting(Timeout(_)) => if s.list == [] then 0 else 1
    case Removing(r, Detach) => if s.list == [] || r.overload then 0 else 1
    case _ => 0
  }

  function Step(e: Env, x: Solo): Solo
    requires Enabled(x.s, e.t)
  {
    Solo(Exec(e.cfg, x.s, e.t, Choice(e.op, e.clock(x.tick))), x.tick + Reads(x.s, e.t))
  }

  /** n steps lead from x to y. */
  ghost predicate Leads(e: Env, n: nat, x: Solo, y: Solo)
    decreases n
  {
    if n == 0 then x == y else Enabled(x.s, e.t) && Leads(e, n - 1, Step(e, x), y)
  }

  ghost predicate Reaches(e: Env, x: Solo, y: Solo) {
    exists n: nat :: Leads(e, n, x, y)
  }

  lemma {:induction false} LeadsOn(e: Env, n: nat, x: Solo, m: nat, y: Solo, z: Solo)
    requires Leads(e, n, x, y) && Leads(e, m, y, z)
    ensures Leads(e, n + m, x, z)
    decreases n
  {
    hide Enabled, Step;
    if n > 0 {
      LeadsOn(e, n - 1, Step(e, x), m, y, z);
    }
  }

  lemma ReachesOn(e: Env, x: Solo, y: Solo, z: Solo)
    requires Reaches(e, x, y) && Reaches(e, y, z)
    ensures Reaches(e, x, z)
  {
    var n: nat :| Leads(e, n, x, y);
    var m: nat :| Leads(e, m, y, z);
    LeadsOn(e, n, x, m, y, z);
  }

  /** Every thread but t is idle. */
  ghost predicate Alone(s: State, t: Tid) {
    t < |s.pcs| && forall u :: 0 <= u < |s.pcs| && u != t ==> s.pcs[u].Idle?
  }

  lemma {:induction false} LeadsKeeps(e: Env, n: nat, x: Solo, y: Solo)
    requires Leads(e, n, x, y) && Inv(e.cfg, x.s) && Alone(x.s, e.t)
    ensures Inv(e.cfg, y.s) && Alone(y.s, e.t)
    decreases n
  {
    hide Inv, Reads;
    if n > 0 {
      var c := Choice(e.op, e.clock(x.tick));
      InvStep(e.cfg, x.s, e.t, c);
      DeltaStep(e.cfg, x.s, e.t, c);
      LeadsKeeps(e, n - 1, Step(e, x), y);
    }
  }

  // ----- what holds where t holds nothing

  predicate Calm(pc: Pc) {
    pc.Idle? || (pc.Evicting? && !pc.e.Timeout?) || (pc.Removing? && pc.m.Lock?)
  }

  /** Map, list and counter agree, and nothing is locked. */
  ghost predicate Settled(s: State) {
    && (forall k :: k in s.entries ==> Full(s, k))
    && (forall n :: n in s.list ==> Stored(s, n))
    && DistinctKeys(s.list)
    && s.size == |s.list|
    && s.mutex == Unlocked
  }

  predicate Full(s: State, k: Key)
    requires k in s.entries
  {
    var e := s.entries[k];
    && e.value.Some? && e.accessor == Unlocked && e.node.Some?
    && e.node.value.key == k && e.node.value in s.list && e.node.value in s.stamps
  }

  lemma CalmIsSettled(cfg: Config, s: State, t: Tid)
    requires Inv(cfg, s) && Alone(s, t) && Calm(s.pcs[t])
    ensures Settled(s)
  {
    forall u | 0 <= u < |s.pcs| ensures Calm(s.pcs[u]) {
    }
    TallyZero(s, Linked);
    TallyZero(s, Detached);
    assert s.mutex == Unlocked by { CalmMutex(s); }
    forall k | k in s.entries ensures Full(s, k) {
      assert EntryOk(s, k) && LiveEntry(s, k);
      assert AccessorOk(s, k);
      CalmEntry(s, k);
    }
  }

  lemma CalmMutex(s: State)
    requires MutexInv(s) && forall u :: 0 <= u < |s.pcs| ==> Calm(s.pcs[u])
    ensures s.mutex == Unlocked
  {
    assert s.mutex.readers == {};
  }

  lemma CalmEntry(s: State, k: Key)
    requires k in s.entries && AccessorOk(s, k) && EntryOk(s, k) && LiveEntry(s, k)
    requires forall u :: 0 <= u < |s.pcs| ==> Calm(s.pcs[u])
    ensures Full(s, k)
  {
    assert s.entries[k].accessor.readers == {};
  }

  /** What the specification sees of a settled state. */
  ghost function Items(s: State): seq<M.Item>
    requires Settled(s)
  {
    ItemsIn(s, s.list)
  }

  ghost predicate Listed(s: State, l: seq<Node>) {
    forall n :: n in l ==> n in s.list
  }

  ghost function ItemsIn(s: State, l: seq<Node>): seq<M.Item>
    requires Settled(s) && Listed(s, l)
  {
    seq(|l|, i requires 0 <= i < |l| => ItemOf(s, l[i]))
  }

  ghost function ItemOf(s: State, n: Node): M.Item
    requires Settled(s) && n in s.list
  {
    assert Stored(s, n);
    M.Item(n.key, s.entries[n.key].value.value, s.stamps[n])
  }

  lemma ItemsJoin(s: State, a: seq<Node>, b: seq<Node>)
    requires Settled(s) && Listed(s, a) && Listed(s, b)
    ensures Listed(s, a + b) && ItemsIn(s, a + b) == ItemsIn(s, a) + ItemsIn(s, b)
  {
    hide Settled;
  }

  lemma ItemsKept(s: State, s': State, l: seq<Node>)
    requires Settled(s) && Settled(s') && Listed(s, l) && Listed(s', l)
    requires forall n :: n in l ==>
      && n.key in s.entries && n.key in s'.entries && s'.entries[n.key].value == s.entries[n.key].value
      && n in s.stamps && n in s'.stamps && s'.stamps[n] == s.stamps[n]
    ensures ItemsIn(s', l) == ItemsIn(s, l)
  {
    forall i | 0 <= i < |l| ensures ItemOf(s', l[i]) == ItemOf(s, l[i]) {
      assert l[i] in l;
      assert Stored(s, l[i]) && Full(s, l[i].key);
    }
  }

  // ----- set_entry

  /** x1 is one step on from x. */
  predicate Goes(e: Env, x: Solo, x1: Solo) {
    Enabled(x.s, e.t) && Step(e, x) == x1
  }

  lemma ThreeSteps(e: Env, x: Solo, x1: Solo, x2: Solo, x3: Solo)
    requires Goes(e, x, x1) && Goes(e, x1, x2) && Goes(e, x2, x3)
    ensures Leads(e, 3, x, x3)
  {
    hide Enabled, Step;
    assert Leads(e, 0, x3, x3);
    assert Leads(e, 1, x2, x3);
    assert Leads(e, 2, x1, x3);
  }

  /** A new key, its entry filled and its node not yet in the list. */
  function Filled(s: State, t: Tid, k: Key, v: Value, now: int): State
    requires t < |s.pcs|
  {
    var n := Node(s.nextId, k);
    s.(entries := s.entries[k := Entry(Some(v), Some(n), RwLock(Some(t), {}))],
       stamps := s.stamps[n := now], nextId := s.nextId + 1,
       history := s.history + [SetEvent(k, v)], pcs := s.pcs[t := Setting(k, LinkWait(n))])
  }

  /** A new key, set. */
  function Inserted(s: State, t: Tid, k: Key, v: Value, now: int): State
    requires t < |s.pcs|
  {
    var n := Node(s.nextId, k);
    s.(entries := s.entries[k := Entry(Some(v), Some(n), Unlocked)], list := [n] + s.list,
       stamps := s.stamps[n := now], nextId := s.nextId + 1, size := s.size + 1,
       history := s.history + [SetEvent(k, v)], pcs := s.pcs[t := Idle])
  }

  lemma Twice(m: map<Key, Entry>, k: Key, a: Entry, b: Entry)
    ensures m[k := a][k := b] == m[k := b]
  {
  }

  lemma Begins(e: Env, s: State, tick: nat, k: Key, v: Value)
    requires e.t < |s.pcs| && s.pcs[e.t] == Idle && e.op == Set(k, v)
    ensures Goes(e, Solo(s, tick), Solo(Goto(s, e.t, Setting(k, Insert(v))), tick))
  {
  }

  /** The entry is made and locked. */
  function Made(s: State, t: Tid, k: Key, v: Value): State
    requires t < |s.pcs|
  {
    Goto(s, t, Setting(k, Create(v))).(entries := s.entries[k := Entry(None, None, RwLock(Some(t), {}))])
  }

  lemma Makes(e: Env, s: State, tick: nat, k: Key, v: Value)
    requires e.t < |s.pcs| && k !in s.entries
    ensures Goes(e, Solo(Goto(s, e.t, Setting(k, Insert(v))), tick), Solo(Made(s, e.t, k, v), tick))
  {
  }

  lemma Fills(e: Env, s: State, tick: nat, k: Key, v: Value)
    requires e.t < |s.pcs|
    ensures Goes(e, Solo(Made(s, e.t, k, v), tick), Solo(Filled(s, e.t, k, v, e.clock(tick)), tick + 1))
  {
    var n := Node(s.nextId, k);
    Twice(s.entries, k, Entry(None, None, RwLock(Some(e.t), {})), Entry(Some(v), Some(n), RwLock(Some(e.t), {})));
  }

  lemma InsertFills(e: Env, s: State, tick: nat, k: Key, v: Value)
    requires e.t < |s.pcs| && s.pcs[e.t] == Idle && e.op == Set(k, v) && k !in s.entries
    ensures Leads(e, 3, Solo(s, tick), Solo(Filled(s, e.t, k, v, e.clock(tick)), tick + 1))
  {
    hide Goes, Made, Filled;
    Begins(e, s, tick, k, v);
    Makes(e, s, tick, k, v);
    Fills(e, s, tick, k, v);
    ThreeSteps(e, Solo(s, tick), Solo(Goto(s, e.t, Setting(k, Insert(v))), tick), Solo(Made(s, e.t, k, v), tick),
               Solo(Filled(s, e.t, k, v, e.clock(tick)), tick + 1));
  }

  lemma FilledLinks(e: Env, s: State, tick: nat, k: Key, v: Value, now: int)
    requires e.t < |s.pcs| && s.mutex == Unlocked
    ensures Leads(e, 4, Solo(Filled(s, e.t, k, v, now), tick), Solo(Inserted(s, e.t, k, v, now), tick))
  {
    var n := Node(s.nextId, k);
    var s0 := Filled(s, e.t, k, v, now);
    var s1 := Goto(s0, e.t, Setting(k, Link(n))).(mutex := Acquire(Unlocked, e.t));
    var s2 := Goto(s0, e.t, Setting(k, Count)).(list := [n] + s.list);
    var s3 := Goto(s2, e.t, Setting(k, Unlock)).(size := s.size + 1);
    assert Goes(e, Solo(s0, tick), Solo(s1, tick));
    assert Goes(e, Solo(s1, tick), Solo(s2, tick));
    assert Goes(e, Solo(s2, tick), Solo(s3, tick));
    assert Goes(e, Solo(s3, tick), Solo(Inserted(s, e.t, k, v, now), tick));
    ThreeSteps(e, Solo(s1, tick), Solo(s2, tick), Solo(s3, tick), Solo(Inserted(s, e.t, k, v, now), tick));
  }

  /** A key that is there, set. */
  function Updated(s: State, t: Tid, k: Key, v: Value, now: int): State
    requires t < |s.pcs| && k in s.entries && s.entries[k].node.Some?
  {
    var n := s.entries[k].node.value;
    s.(entries := s.entries[k := s.entries[k].(value := Some(v))], list := [n] + Delink(s.list, n),
       stamps := s.stamps[n := now], history := s.history + [SetEvent(k, v)], pcs := s.pcs[t := Idle])
  }

  /** The entry is locked. */
  function Taken(s: State, t: Tid, k: Key, v: Value): State
    requires t < |s.pcs| && k in s.entries
  {
    Goto(s, t, Setting(k, Store(v))).(entries := s.entries[k := LockEntry(s.entries[k], t)])
  }

  lemma Takes(e: Env, s: State, tick: nat, k: Key, v: Value)
    requires e.t < |s.pcs| && k in s.entries && s.entries[k].accessor == Unlocked
    ensures Goes(e, Solo(Goto(s, e.t, Setting(k, Insert(v))), tick), Solo(Taken(s, e.t, k, v), tick))
  {
  }

  /** The value is overwritten. */
  function Overwritten(s: State, t: Tid, k: Key, v: Value): State
    requires t < |s.pcs| && k in s.entries
  {
    Goto(s, t, Setting(k, RefreshWait)).(
      entries := s.entries[k := LockEntry(s.entries[k], t).(value := Some(v))], history := s.history + [SetEvent(k, v)])
  }

  lemma Overwrites(e: Env, s: State, tick: nat, k: Key, v: Value)
    requires e.t < |s.pcs| && k in s.entries
    ensures Goes(e, Solo(Taken(s, e.t, k, v), tick), Solo(Overwritten(s, e.t, k, v), tick))
  {
    var en := LockEntry(s.entries[k], e.t);
    Twice(s.entries, k, en, en.(value := Some(v)));
  }

  lemma UpdateOverwrites(e: Env, s: State, tick: nat, k: Key, v: Value)
    requires e.t < |s.pcs| && s.pcs[e.t] == Idle && e.op == Set(k, v)
    requires k in s.entries && s.entries[k].accessor == Unlocked
    ensures Leads(e, 3, Solo(s, tick), Solo(Overwritten(s, e.t, k, v), tick))
  {
    hide Goes, Taken, Overwritten;
    Begins(e, s, tick, k, v);
    Takes(e, s, tick, k, v);
    Overwrites(e, s, tick, k, v);
    ThreeSteps(e, Solo(s, tick), Solo(Goto(s, e.t, Setting(k, Insert(v))), tick), Solo(Taken(s, e.t, k, v), tick),
               Solo(Overwritten(s, e.t, k, v), tick));
  }

  /** The node is restamped and moved to the front. */
  function Moved(s: State, t: Tid, k: Key, v: Value, now: int): State
    requires t < |s.pcs| && k in s.entries && s.entries[k].node.Some?
  {
    var n := s.entries[k].node.value;
    Goto(Overwritten(s, t, k, v), t, Setting(k, Unlock)).(
      list := [n] + Delink(s.list, n), stamps := s.stamps[n := now])
  }

  lemma Relocks(e: Env, s: State, tick: nat, k: Key, v: Value)
    requires e.t < |s.pcs| && k in s.entries && s.mutex == Unlocked
    ensures Goes(e, Solo(Overwritten(s, e.t, k, v), tick),
      Solo(Goto(Overwritten(s, e.t, k, v), e.t, Setting(k, Refresh)).(mutex := Acquire(Unlocked, e.t)), tick))
  {
  }

  lemma MovesToFront(e: Env, s: State, tick: nat, k: Key, v: Value)
    requires e.t < |s.pcs| && k in s.entries && Full(s, k) && s.mutex == Unlocked
    ensures Goes(e,
      Solo(Goto(Overwritten(s, e.t, k, v), e.t, Setting(k, Refresh)).(mutex := Acquire(Unlocked, e.t)), tick),
      Solo(Moved(s, e.t, k, v, e.clock(tick)), tick + 1))
  {
  }

  lemma Unlocks(e: Env, s: State, tick: nat, k: Key, v: Value, now: int)
    requires e.t < |s.pcs| && k in s.entries && Full(s, k)
    ensures Goes(e, Solo(Moved(s, e.t, k, v, now), tick), Solo(Updated(s, e.t, k, v, now), tick))
  {
    var en := s.entries[k].(value := Some(v));
    Twice(s.entries, k, LockEntry(en, e.t), en);
  }

  lemma OverwrittenRefreshes(e: Env, s: State, tick: nat, k: Key, v: Value)
    requires e.t < |s.pcs| && k in s.entries && Full(s, k) && s.mutex == Unlocked
    ensures Leads(e, 3, Solo(Overwritten(s, e.t, k, v), tick), Solo(Updated(s, e.t, k, v, e.clock(tick)), tick + 1))
  {
    Relocks(e, s, tick, k, v);
    MovesToFront(e, s, tick, k, v);
    Unlocks(e, s, tick + 1, k, v, e.clock(tick));
    var s1 := Goto(Overwritten(s, e.t, k, v), e.t, Setting(k, Refresh)).(mutex := Acquire(Unlocked, e.t));
    hide Goes, Overwritten, Updated, Moved;
    ThreeSteps(e, Solo(Overwritten(s, e.t, k, v), tick), Solo(s1, tick), Solo(Moved(s, e.t, k, v, e.clock(tick)), tick + 1),
               Solo(Updated(s, e.t, k, v, e.clock(tick)), tick + 1));
  }

  // ----- what set_entry does to the items

  lemma ItemsDistinct(s: State)
    requires Settled(s)
    ensures M.DistinctKeys(Items(s)) && |Items(s)| == |s.list|
  {
  }

  /** The map and the items answer a lookup alike. */
  lemma ItemsLookup(s: State, k: Key)
    requires Settled(s)
    ensures k !in s.entries ==> M.Lookup(Items(s), k).None?
    ensures k in s.entries ==> Full(s, k) && M.Lookup(Items(s), k) == Some(ItemOf(s, s.entries[k].node.value))
  {
    ItemsDistinct(s);
    if k in s.entries {
      assert Full(s, k);
      var n := s.entries[k].node.value;
      assert Stored(s, n);
      var i :| 0 <= i < |s.list| && s.list[i] == n;
      assert Items(s)[i] == ItemOf(s, n);
      M.LookupIs(Items(s), ItemOf(s, n));
    } else {
      M.LookupFacts(Items(s), k);
      forall i | 0 <= i < |s.list| ensures Items(s)[i].key != k {
        assert Stored(s, s.list[i]);
      }
    }
  }

  /** Every listed node has its entry and its stamp. */
  lemma ListedFull(s: State, n: Node)
    requires Settled(s) && n in s.list
    ensures n.key in s.entries && s.entries[n.key].node == Some(n) && n in s.stamps
  {
    assert Stored(s, n) && Full(s, n.key);
  }

  lemma InsertedRest(s: State, t: Tid, k: Key, v: Value, now: int)
    requires Settled(s) && t < |s.pcs| && k !in s.entries && Settled(Inserted(s, t, k, v, now))
    ensures Listed(Inserted(s, t, k, v, now), s.list) && ItemsIn(Inserted(s, t, k, v, now), s.list) == Items(s)
  {
    hide Settled;
    forall m | m in s.list ensures m.key in s.entries && m in s.stamps {
      ListedFull(s, m);
    }
    ItemsKept(s, Inserted(s, t, k, v, now), s.list);
  }

  /** A node before others: its item before theirs. */
  lemma ItemsAfter(s: State, n: Node, rest: seq<Node>)
    requires Settled(s) && s.list == [n] + rest
    ensures Listed(s, rest) && Items(s) == [ItemOf(s, n)] + ItemsIn(s, rest)
  {
    hide Settled;
    assert n == s.list[0];
    assert forall i :: 0 <= i < |rest| ==> rest[i] == s.list[i + 1];
  }

  lemma InsertedItems(s: State, t: Tid, k: Key, v: Value, now: int)
    requires Settled(s) && t < |s.pcs| && k !in s.entries && Settled(Inserted(s, t, k, v, now))
    ensures Items(Inserted(s, t, k, v, now)) == M.SetEntry(Items(s), k, v, now)
  {
    hide Settled;
    var n := Node(s.nextId, k);
    ItemsLookup(s, k);
    M.WithoutMissing(Items(s), k);
    InsertedRest(s, t, k, v, now);
    ItemsAfter(Inserted(s, t, k, v, now), n, s.list);
    assert ItemOf(Inserted(s, t, k, v, now), n) == M.Item(k, v, now);
  }

  lemma {:induction false} DelinkAt(before: seq<Node>, n: Node, behind: seq<Node>)
    requires n !in before
    ensures Delink(before + [n] + behind, n) == before + behind
  {
    if before == [] {
      assert before + [n] + behind == [n] + behind;
    } else {
      assert (before + [n] + behind)[1..] == before[1..] + [n] + behind;
      DelinkAt(before[1..], n, behind);
    }
  }

  lemma DelinkList(l: seq<Node>, i: nat)
    requires i < |l| && DistinctKeys(l)
    ensures Delink(l, l[i]) == l[..i] + l[i + 1..]
  {
    assert l == l[..i] + [l[i]] + l[i + 1..];
    DelinkAt(l[..i], l[i], l[i + 1..]);
  }

  /** The items without one of them are those of the list without its node. */
  lemma ItemsWithout(s: State, i: nat)
    requires Settled(s) && i < |s.list|
    ensures var rest := s.list[..i] + s.list[i + 1..];
      Listed(s, rest) && ItemsIn(s, rest) == M.Without(Items(s), s.list[i].key)
  {
    ItemsDistinct(s);
    hide Settled;
    var rest := s.list[..i] + s.list[i + 1..];
    forall j | 0 <= j < |rest| ensures rest[j] == s.list[if j < i then j else j + 1] {
    }
    M.WithoutAt(Items(s), i);
    assert Items(s)[i] == ItemOf(s, s.list[i]);
  }

  lemma UpdatedItems(s: State, t: Tid, k: Key, v: Value, now: int)
    requires Settled(s) && t < |s.pcs| && k in s.entries && Full(s, k) && Settled(Updated(s, t, k, v, now))
    ensures Items(Updated(s, t, k, v, now)) == M.SetEntry(Items(s), k, v, now)
  {
    var s', n := Updated(s, t, k, v, now), s.entries[k].node.value;
    var i :| 0 <= i < |s.list| && s.list[i] == n;
    hide Settled, ItemsIn;
    ItemsWithout(s, i);
    RestKept(s, t, k, v, now, i);
    ItemsAfter(s', n, s.list[..i] + s.list[i + 1..]);
    assert ItemOf(s', n) == M.Item(k, v, now);
  }

  lemma RestKept(s: State, t: Tid, k: Key, v: Value, now: int, i: nat)
    requires Settled(s) && t < |s.pcs| && k in s.entries && Full(s, k) && Settled(Updated(s, t, k, v, now))
    requires i < |s.list| && s.list[i] == s.entries[k].node.value
    ensures var rest, s' := s.list[..i] + s.list[i + 1..], Updated(s, t, k, v, now);
      s'.list == [s.list[i]] + rest && Listed(s, rest) && Listed(s', rest) && ItemsIn(s', rest) == ItemsIn(s, rest)
  {
    var rest, s' := s.list[..i] + s.list[i + 1..], Updated(s, t, k, v, now);
    DelinkList(s.list, i);
    forall j | 0 <= j < |rest|
      ensures rest[j] in s.list && rest[j].key in s.entries && rest[j] in s.stamps && rest[j].key != k
    {
      var j0 := if j < i then j else j + 1;
      assert rest[j] == s.list[j0] && s.list[j0].key != s.list[i].key;
      ListedFull(s, rest[j]);
    }
    ItemsKept(s, s', rest);
  }

  // ----- a thread alone

  /** Thread t stands at pc, alone, in a state where the invariant holds. */
  ghost predicate Stands(e: Env, x: Solo, pc: Pc) {
    e.t < |x.s.pcs| && x.s.pcs[e.t] == pc && Inv(e.cfg, x.s) && Alone(x.s, e.t)
  }

  ghost function View(x: Solo): M.Run
    requires Settled(x.s)
  {
    M.Run(Items(x.s), x.tick)
  }

  lemma Arrives(e: Env, n: nat, x: Solo, pc: Pc, y: Solo)
    requires Stands(e, x, pc) && Leads(e, n, x, y)
    ensures Reaches(e, x, y) && e.t < |y.s.pcs| && Stands(e, y, y.s.pcs[e.t])
    ensures Calm(y.s.pcs[e.t]) ==> Settled(y.s)
  {
    hide Inv, Leads;
    LeadsKeeps(e, n, x, y);
    if Calm(y.s.pcs[e.t]) {
      CalmIsSettled(e.cfg, y.s, e.t);
    }
  }

  lemma InsertLeads(e: Env, s: State, tick: nat, k: Key, v: Value)
    requires e.t < |s.pcs| && s.pcs[e.t] == Idle && e.op == Set(k, v) && k !in s.entries && s.mutex == Unlocked
    ensures Leads(e, 7, Solo(s, tick), Solo(Inserted(s, e.t, k, v, e.clock(tick)), tick + 1))
  {
    hide Leads, Filled, Inserted;
    var now := e.clock(tick);
    InsertFills(e, s, tick, k, v);
    FilledLinks(e, s, tick + 1, k, v, now);
    LeadsOn(e, 3, Solo(s, tick), 4, Solo(Filled(s, e.t, k, v, now), tick + 1), Solo(Inserted(s, e.t, k, v, now), tick + 1));
  }

  lemma UpdateLeads(e: Env, s: State, tick: nat, k: Key, v: Value)
    requires e.t < |s.pcs| && s.pcs[e.t] == Idle && e.op == Set(k, v) && k in s.entries && Full(s, k) && s.mutex == Unlocked
    ensures Leads(e, 6, Solo(s, tick), Solo(Updated(s, e.t, k, v, e.clock(tick)), tick + 1))
  {
    hide Leads, Overwritten, Updated;
    UpdateOverwrites(e, s, tick, k, v);
    OverwrittenRefreshes(e, s, tick, k, v);
    LeadsOn(e, 3, Solo(s, tick), 3, Solo(Overwritten(s, e.t, k, v), tick),
            Solo(Updated(s, e.t, k, v, e.clock(tick)), tick + 1));
  }

  lemma SetNew(e: Env, x: Solo, k: Key, v: Value) returns (y: Solo)
    requires Stands(e, x, Idle) && e.op == Set(k, v) && Settled(x.s) && k !in x.s.entries
    ensures Reaches(e, x, y) && Stands(e, y, Idle) && Settled(y.s)
    ensures View(y) == M.SetEntryRun(e.clock, View(x), k, v)
  {
    hide Inv, Alone;
    var now := e.clock(x.tick);
    y := Solo(Inserted(x.s, e.t, k, v, now), x.tick + 1);
    assert y.s.pcs[e.t] == Idle;
    InsertLeads(e, x.s, x.tick, k, v);
    hide Leads, Inserted, Settled, Reaches;
    Arrives(e, 7, x, Idle, y);
    InsertedItems(x.s, e.t, k, v, now);
  }

  lemma SetOld(e: Env, x: Solo, k: Key, v: Value) returns (y: Solo)
    requires Stands(e, x, Idle) && e.op == Set(k, v) && Settled(x.s) && k in x.s.entries
    ensures Reaches(e, x, y) && Stands(e, y, Idle) && Settled(y.s)
    ensures View(y) == M.SetEntryRun(e.clock, View(x), k, v)
  {
    hide Inv, Alone;
    var now := e.clock(x.tick);
    assert Full(x.s, k);
    y := Solo(Updated(x.s, e.t, k, v, now), x.tick + 1);
    assert y.s.pcs[e.t] == Idle;
    UpdateLeads(e, x.s, x.tick, k, v);
    hide Leads, Updated, Settled, Reaches;
    Arrives(e, 6, x, Idle, y);
    UpdatedItems(x.s, e.t, k, v, now);
  }

  /** A set that runs alone does to the items what the specification says, with one clock reading. */
  lemma SoloSet(e: Env, x: Solo, k: Key, v: Value) returns (y: Solo)
    requires Stands(e, x, Idle) && e.op == Set(k, v) && Settled(x.s)
    ensures Reaches(e, x, y) && Stands(e, y, Idle) && Settled(y.s)
    ensures View(y) == M.SetEntryRun(e.clock, View(x), k, v)
  {
    hide Inv, Alone, Settled, Reaches;
    if k in x.s.entries {
      y := SetOld(e, x, k, v);
    } else {
      y := SetNew(e, x, k, v);
    }
  }
}
