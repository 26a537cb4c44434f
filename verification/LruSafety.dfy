/** What holds in every reachable state: how map, list and counter correspond, and that no node outlives its deletion. */
module LruSafety {
  import opened Domain
  import opened LruProtocol
  import opened LruInvariant
  import opened LruAccounts
  import opened LruHistory

  // ----- runs

  lemma PrefixIsReachable(cfg: Config, states: seq<State>, moves: seq<Move>, i: nat)
    requires IsRun(cfg, states, moves) && Init(states[0]) && i < |states|
    ensures Reachable(cfg, states[i])
  {
    var prefix, path := states[..i + 1], moves[..i];
    forall m | 0 <= m < |path| ensures Follows(cfg, prefix, path, m) {
      assert Follows(cfg, states, moves, m);
    }
    assert IsRun(cfg, prefix, path) && Init(prefix[0]) && prefix[|path|] == states[i];
  }

  // ----- the map is the list plus what is in flight

  /** Keys whose inserter has not linked a node yet. */
  ghost function UnlinkedKeys(s: State): set<Key> {
    set k | k in s.entries && match s.entries[k].node case None => true case Some(n) => AtStage(s, Linking(n))
  }

  /** Keys whose node is in the list. */
  ghost function ListedKeys(s: State): set<Key> {
    set k | k in s.entries && s.entries[k].node.Some? && s.entries[k].node.value in s.list
  }

  /** Keys whose node the evictor has delinked. */
  ghost function DelinkedKeys(s: State): set<Key> {
    set k | k in s.entries && s.entries[k].node.Some? && AtStage(s, Unmapping(s.entries[k].node.value))
  }

  lemma StagesOk(s: State)
    requires ShapeInv(s)
    ensures forall n :: AtStage(s, Linking(n)) ==> n !in s.list
    ensures forall n :: AtStage(s, Unmapping(n)) ==> n !in s.list && !AtStage(s, Linking(n)) && Stored(s, n)
  {
    assert forall t :: 0 <= t < |s.pcs| ==> StageOk(s, s.pcs[t]);
  }

  lemma OneUnmapping(s: State, m: Node, n: Node)
    requires EvictorInv(s) && AtStage(s, Unmapping(m)) && AtStage(s, Unmapping(n))
    ensures m == n
  {
    var t :| 0 <= t < |s.pcs| && StageOf(s.pcs[t]) == Unmapping(m);
    var u :| 0 <= u < |s.pcs| && StageOf(s.pcs[u]) == Unmapping(n);
    assert Evictor(s.pcs[t]) && Evictor(s.pcs[u]);
  }

  lemma MapIsListPlusInFlight(cfg: Config, s: State)
    requires Reachable(cfg, s)
    ensures s.entries.Keys == UnlinkedKeys(s) + ListedKeys(s) + DelinkedKeys(s)
    ensures UnlinkedKeys(s) !! ListedKeys(s) !! DelinkedKeys(s)
    ensures forall j, k :: j in DelinkedKeys(s) && k in DelinkedKeys(s) ==> j == k
  {
    InvReachable(cfg, s);
    hide LifeInv, CountInv, GuardInv, HistoryInv, AccessorInv, MutexInv;
    OneDelinked(s);
    EachKeyOnce(s);
  }

  lemma OneDelinked(s: State)
    requires EvictorInv(s) && ShapeInv(s)
    ensures forall j, k :: j in DelinkedKeys(s) && k in DelinkedKeys(s) ==> j == k
  {
    forall j, k | j in DelinkedKeys(s) && k in DelinkedKeys(s) ensures j == k {
      OneUnmapping(s, s.entries[j].node.value, s.entries[k].node.value);
      assert EntryOk(s, j) && EntryOk(s, k);
    }
  }

  lemma EachKeyOnce(s: State)
    requires ShapeInv(s)
    ensures s.entries.Keys == UnlinkedKeys(s) + ListedKeys(s) + DelinkedKeys(s)
    ensures UnlinkedKeys(s) !! ListedKeys(s) !! DelinkedKeys(s)
  {
    StagesOk(s);
    assert forall k :: k in s.entries ==> EntryOk(s, k);
  }

  /** The list has distinct keys, and each of its nodes is the one its entry stores. */
  lemma ListedNodesAreStored(cfg: Config, s: State)
    requires Reachable(cfg, s)
    ensures forall i, j :: 0 <= i < j < |s.list| ==> s.list[i].key != s.list[j].key
    ensures forall i :: 0 <= i < |s.list| ==>
      s.list[i].key in s.entries && s.entries[s.list[i].key].node == Some(s.list[i])
    ensures ListedKeys(s) == set n | n in s.list :: n.key
  {
    InvReachable(cfg, s);
    forall n | n in s.list ensures Stored(s, n) {
    }
    forall i | 0 <= i < |s.list| ensures Stored(s, s.list[i]) {
    }
    forall k | k in ListedKeys(s) ensures k in set n | n in s.list :: n.key {
      assert EntryOk(s, k) && s.entries[k].node.value in s.list;
    }
  }

  // ----- one evictor, whose removals for overload always complete

  lemma OneEvictor(cfg: Config, s: State)
    requires Reachable(cfg, s)
    ensures forall t, u :: 0 <= t < |s.pcs| && 0 <= u < |s.pcs| && Evictor(s.pcs[t]) && Evictor(s.pcs[u]) ==> t == u
    ensures s.evicting <==> exists t :: 0 <= t < |s.pcs| && Evictor(s.pcs[t])
  {
    InvReachable(cfg, s);
  }

  lemma TallyZero(s: State, p: Pc -> bool)
    requires forall u :: 0 <= u < |s.pcs| ==> !p(s.pcs[u])
    ensures Tally(s.pcs, p) == 0
  {
    assert ThreadsAt(s.pcs, p) == {};
  }

  lemma CounterAgainstList(s: State, t: Tid)
    requires EvictorInv(s) && CountInv(s) && t < |s.pcs| && Evictor(s.pcs[t]) && !Detached(s.pcs[t])
    ensures s.size <= |s.list|
  {
    forall u | 0 <= u < |s.pcs| ensures !Detached(s.pcs[u]) {
      assert Detached(s.pcs[u]) ==> Evictor(s.pcs[u]);
    }
    TallyZero(s, Detached);
  }

  /** While the evictor has nothing detached, the counter does not exceed the list. */
  lemma CounterWithinList(cfg: Config, s: State, t: Tid)
    requires Reachable(cfg, s) && t < |s.pcs| && Evictor(s.pcs[t]) && !Detached(s.pcs[t])
    ensures s.size <= |s.list|
  {
    InvReachable(cfg, s);
    CounterAgainstList(s, t);
  }

  /** A removal for overload finds a node, finds its entry, takes exactly that entry, and leaves the counter
      at the maximum or above, whatever else runs in between. */
  lemma OverloadRemovalCompletes(cfg: Config, s: State, t: Tid, c: Choice)
    requires Reachable(cfg, s) && Enabled(s, t) && s.pcs[t].Removing? && s.pcs[t].r.overload
    ensures s.size > cfg.maxSize
    ensures var s', r := Exec(cfg, s, t, c), s.pcs[t].r;
      match s.pcs[t].m
      case Lock => s'.pcs[t] == Removing(r, Detach)
      case Detach => s.list != [] && s'.pcs[t] == Removing(r, Find(s.list[|s.list| - 1]))
      case Find(n) => s'.pcs[t] == Removing(r, Erase(n))
      case Erase(n) =>
        s'.pcs[t] == Removing(r, Delete(n)) && n.key in s.entries && s'.entries == s.entries - {n.key}
      case Delete(_) => s'.pcs[t] == Removing(r, Decrement)
      case Decrement => s'.size == s.size - 1 >= cfg.maxSize
  {
    InvReachable(cfg, s);
    assert GuardOk(cfg, s, s.pcs[t]) && StageOk(s, s.pcs[t]);
    if s.pcs[t].m.Detach? {
      CounterAgainstList(s, t);
    }
  }

  /** The evictor always finds the entry of the node that it has delinked. */
  lemma EvictorFindsItsEntry(cfg: Config, s: State, t: Tid)
    requires Reachable(cfg, s) && t < |s.pcs|
    requires s.pcs[t].Removing? && (s.pcs[t].m.Find? || s.pcs[t].m.Erase?)
    ensures s.pcs[t].m.n.key in s.entries && s.entries[s.pcs[t].m.n.key].node == Some(s.pcs[t].m.n)
  {
    InvReachable(cfg, s);
    assert StageOk(s, s.pcs[t]);
  }

  // ----- the counter

  lemma {:induction false} InjectionBound(ts: set<Tid>, keys: set<Key>, f: Tid -> Key)
    requires forall t :: t in ts ==> f(t) in keys
    requires forall t, u :: t in ts && u in ts && f(t) == f(u) ==> t == u
    ensures |ts| <= |keys|
  {
    if ts != {} {
      var t :| t in ts;
      InjectionBound(ts - {t}, keys - {f(t)}, f);
    }
  }

  function KeyOf(pcs: seq<Pc>, t: Tid, k: Key): Key {
    if t < |pcs| && pcs[t].Setting? then pcs[t].k else k
  }

  /** Threads with an uncounted entry hold different entries. */
  lemma UncountedWithinMap(s: State)
    requires AccessorInv(s)
    ensures Tally(s.pcs, Uncounted) <= |s.entries|
  {
    var ts := ThreadsAt(s.pcs, Uncounted);
    if ts != {} {
      var w :| w in ts;
      var k := s.pcs[w].k;
      var f := (t: Tid) => KeyOf(s.pcs, t, k);
      forall t | t in ts ensures f(t) in s.entries.Keys && s.entries[f(t)].accessor.writer == Some(t) {
        assert HoldsAccessors(s, t);
      }
      InjectionBound(ts, s.entries.Keys, f);
    }
    assert |s.entries| == |s.entries.Keys|;
  }

  predicate Between(s: State) {
    exists t :: 0 <= t < |s.pcs| && Erased(s.pcs[t])
  }

  lemma ErasedIsBetween(s: State)
    requires EvictorInv(s)
    ensures Tally(s.pcs, Erased) == if Between(s) then 1 else 0
  {
    var ts := ThreadsAt(s.pcs, Erased);
    if Between(s) {
      var t :| 0 <= t < |s.pcs| && Erased(s.pcs[t]);
      forall u | u in ts ensures u == t {
        assert Evictor(s.pcs[u]) && Evictor(s.pcs[t]);
      }
      assert ts == {t};
    } else {
      assert ts == {};
    }
  }

  /** m_size plus the inserts not yet counted is the map's size, plus one between erase and decrement. */
  lemma CounterConserved(cfg: Config, s: State)
    requires Reachable(cfg, s)
    ensures s.size + |ThreadsAt(s.pcs, Uncounted)| == |s.entries| + (if Between(s) then 1 else 0)
  {
    InvReachable(cfg, s);
    ErasedIsBetween(s);
  }

  /** The unsigned counter never goes below zero. */
  lemma CounterNeverUnderflows(cfg: Config, s: State, t: Tid)
    requires Reachable(cfg, s)
    ensures 0 <= s.size
    ensures t < |s.pcs| && s.pcs[t].Removing? && s.pcs[t].m.Decrement? ==> 1 <= s.size
  {
    InvReachable(cfg, s);
    UncountedWithinMap(s);
    ErasedIsBetween(s);
    if t < |s.pcs| && s.pcs[t].Removing? && s.pcs[t].m.Decrement? {
      assert Erased(s.pcs[t]);
    }
  }

  predicate Quiescent(s: State) {
    forall t :: 0 <= t < |s.pcs| ==> s.pcs[t].Idle?
  }

  /** With no operation in flight, counter, map and list agree. */
  lemma QuiescentAgrees(cfg: Config, s: State)
    requires Reachable(cfg, s) && Quiescent(s)
    ensures s.size == |s.entries| == |s.list|
    ensures s.entries.Keys == set n | n in s.list :: n.key
  {
    InvReachable(cfg, s);
    TallyZero(s, Uncounted);
    TallyZero(s, Linked);
    TallyZero(s, Detached);
    TallyZero(s, Erased);
    ListedNodesAreStored(cfg, s);
    forall k | k in s.entries ensures k in ListedKeys(s) {
      assert EntryOk(s, k);
    }
  }

  /** With no operation in flight, nothing is locked and the evict flag is down. */
  lemma QuiescentUnlocked(cfg: Config, s: State)
    requires Reachable(cfg, s) && Quiescent(s)
    ensures !s.evicting && s.mutex == Unlocked
    ensures forall k :: k in s.entries ==> s.entries[k].accessor == Unlocked
  {
    InvReachable(cfg, s);
    assert s.mutex.readers == {};
    forall k | k in s.entries ensures s.entries[k].accessor == Unlocked {
      assert AccessorOk(s, k) && s.entries[k].accessor.readers == {};
    }
  }

  // ----- lifetimes

  /** Nodes whose fields the thread's next step reads or writes. */
  ghost function Touched(s: State, t: Tid): set<Node>
    requires t < |s.pcs|
  {
    match s.pcs[t]
    case Setting(_, Link(n)) => {n} + (set m | m in s.list)
    case Setting(k, Refresh) => Own(s, k) + (set m | m in s.list)
    case Getting(k, Check) => Own(s, k)
    case Snapping(locked) => if locked then set m | m in s.list else {}
    case Evicting(Timeout(_)) => set m | m in s.list
    case Removing(_, Detach) => set m | m in s.list
    case Removing(_, Find(n)) => {n}
    case Removing(_, Delete(n)) => {n}
    case _ => {}
  }

  /** The node that k's entry points to. */
  ghost function Own(s: State, k: Key): set<Node> {
    if k in s.entries && s.entries[k].node.Some? then {s.entries[k].node.value} else {}
  }

  lemma LinkedAlive(s: State)
    requires ShapeInv(s) && LifeInv(s)
    ensures forall n :: n in s.list ==> n !in s.freed
    ensures forall k :: k in s.entries && s.entries[k].node.Some? ==> s.entries[k].node.value !in s.freed
  {
    forall k | k in s.entries && s.entries[k].node.Some? ensures s.entries[k].node.value !in s.freed {
      assert LiveEntry(s, k);
    }
    forall n | n in s.list ensures n !in s.freed {
      assert Stored(s, n);
    }
  }

  lemma TouchedAlive(s: State, t: Tid)
    requires t < |s.pcs| && StageOk(s, s.pcs[t]) && LiveThread(s, s.pcs[t])
    requires forall n :: n in s.list ==> n !in s.freed
    requires forall k :: k in s.entries && s.entries[k].node.Some? ==> s.entries[k].node.value !in s.freed
    ensures Touched(s, t) !! s.freed
  {
  }

  /** Nothing a thread can reach through the list, an entry or its own variables is deleted. In particular a
      node about to be deleted is not deleted yet, so each is deleted at most once. */
  lemma NoUseAfterDelete(cfg: Config, s: State, t: Tid)
    requires Reachable(cfg, s) && t < |s.pcs|
    ensures Touched(s, t) !! s.freed
    ensures forall n :: n in s.list ==> n !in s.freed
    ensures forall k :: k in s.entries && s.entries[k].node.Some? ==> s.entries[k].node.value !in s.freed
  {
    hide Touched;
    InvReachable(cfg, s);
    LinkedAlive(s);
    TouchedAlive(s, t);
  }

  /** The thread holds a node it has delinked and not deleted. */
  predicate Retiring(pc: Pc, n: Node) {
    pc.Removing? && (pc.m == Find(n) || pc.m == Erase(n) || pc.m == Delete(n))
  }

  /** The evictor has taken n out of the list. */
  ghost predicate Retired(s: State, n: Node) {
    n in s.freed || exists t :: 0 <= t < |s.pcs| && Retiring(s.pcs[t], n)
  }

  lemma RetiredStep(cfg: Config, s: State, t: Tid, c: Choice, n: Node)
    requires Inv(cfg, s) && Enabled(s, t) && Retired(s, n)
    ensures Retired(Exec(cfg, s, t, c), n)
  {
    var s' := Exec(cfg, s, t, c);
    DeltaStep(cfg, s, t, c);
    if n in s.freed {
      FreedStays(cfg, s, t, c);
    } else {
      var u :| 0 <= u < |s.pcs| && Retiring(s.pcs[u], n);
      if u == t {
        assert StageOk(s, s.pcs[t]);
        RetiringStep(cfg, s, t, s.pcs[t].r, c.now, n);
      } else {
        assert Retiring(s'.pcs[u], n);
      }
    }
  }

  lemma FreedStays(cfg: Config, s: State, t: Tid, c: Choice)
    requires Enabled(s, t)
    ensures s.freed <= Exec(cfg, s, t, c).freed
  {
    match s.pcs[t] {
      case Idle =>
      case Setting(k, _) => SetFreesNothing(s, t, k, c.now);
      case Getting(_, _) =>
      case Snapping(_) =>
      case Evicting(_) =>
      case Removing(r, _) => RemoveKeepsFreed(cfg, s, t, r, c.now);
    }
  }

  lemma SetFreesNothing(s: State, t: Tid, k: Key, now: int)
    requires t < |s.pcs| && s.pcs[t].Setting?
    ensures SetStep(s, t, k, now).freed == s.freed
  {
  }

  lemma RemoveKeepsFreed(cfg: Config, s: State, t: Tid, r: Removal, now: int)
    requires t < |s.pcs| && s.pcs[t].Removing?
    ensures s.freed <= RemoveStep(cfg, s, t, r, now).freed
  {
  }

  lemma RetiringStep(cfg: Config, s: State, t: Tid, r: Removal, now: int, n: Node)
    requires t < |s.pcs| && Retiring(s.pcs[t], n) && StageOk(s, s.pcs[t])
    ensures Retired(RemoveStep(cfg, s, t, r, now), n)
  {
    var s' := RemoveStep(cfg, s, t, r, now);
    assert n in s'.freed || Retiring(s'.pcs[t], n);
  }

  lemma RetiredNotListed(cfg: Config, s: State, n: Node)
    requires Inv(cfg, s) && Retired(s, n)
    ensures n !in s.list
  {
    assert n in s.list ==> Stored(s, n);
    assert Stored(s, n) ==> LiveEntry(s, n.key);
    if n !in s.freed {
      var u :| 0 <= u < |s.pcs| && Retiring(s.pcs[u], n);
      assert StageOk(s, s.pcs[u]) && LiveThread(s, s.pcs[u]);
    }
  }

  /** A node the evictor delinks is retired. */
  lemma DetachRetires(cfg: Config, s: State, t: Tid, c: Choice)
    requires Enabled(s, t) && s.pcs[t].Removing? && s.pcs[t].m.Detach?
    requires Exec(cfg, s, t, c).list != s.list
    ensures s.list != [] && Retired(Exec(cfg, s, t, c), s.list[|s.list| - 1])
  {
    assert Retiring(Exec(cfg, s, t, c).pcs[t], s.list[|s.list| - 1]);
  }

  /** A node the evictor has delinked never re-enters the list. */
  lemma {:induction false} RetiredForever(cfg: Config, states: seq<State>, moves: seq<Move>, i: nat, j: nat, n: Node)
    requires IsRun(cfg, states, moves) && Init(states[0]) && i <= j < |states| && Retired(states[i], n)
    ensures Retired(states[j], n) && n !in states[j].list
  {
    hide Inv, Init, Retired;
    if i < j {
      RetiredForever(cfg, states, moves, i, j - 1, n);
      InvRun(cfg, states, moves, j - 1);
      assert Follows(cfg, states, moves, j - 1);
      RetiredStep(cfg, states[j - 1], moves[j - 1].t, moves[j - 1].c, n);
    }
    InvRun(cfg, states, moves, j);
    RetiredNotListed(cfg, states[j], n);
  }
}
