/** Every step keeps node lifetimes, the counters and the history of visible effects in order. */
module LruAccounts {
  import opened Domain
  import opened LruProtocol
  import opened LruInvariant
  import opened LruShape

  // ----- lifetimes

  ghost predicate LifeInv(s: State) {
    && (forall n :: n in s.freed ==> n.id < s.nextId)
    && (forall k :: k in s.entries ==> LiveEntry(s, k))
    && (forall t :: 0 <= t < |s.pcs| ==> LiveThread(s, s.pcs[t]))
  }

  /** An entry has its value exactly when it has its node, and that node is stamped and not deleted. */
  predicate LiveEntry(s: State, k: Key)
    requires k in s.entries
  {
    var e := s.entries[k];
    && e.value.None? == e.node.None?
    && (e.node.Some? ==> e.node.value !in s.freed && e.node.value in s.stamps)
  }

  /** A node about to be deleted is not deleted yet, and no entry stores it. */
  predicate LiveThread(s: State, pc: Pc) {
    pc.Removing? && pc.m.Delete? ==> pc.m.n !in s.freed && pc.m.n.id < s.nextId && !Stored(s, pc.m.n)
  }

  /** Nodes, stamps and deletions stay; the thread does not come to delete a node. */
  lemma LifeUntouched(s: State, s': State, t: Tid)
    requires LifeInv(s) && Moves(s, s', t) && SameNodes(s, s')
    requires forall k :: k in s.entries ==> s'.entries[k].value.None? == s.entries[k].value.None?
    requires s'.freed == s.freed && s'.nextId == s.nextId && s.stamps.Keys <= s'.stamps.Keys
    requires LiveThread(s, s'.pcs[t])
    ensures LifeInv(s')
  {
    forall k | k in s'.entries ensures LiveEntry(s', k) {
      assert LiveEntry(s, k);
    }
    forall u | 0 <= u < |s'.pcs| ensures LiveThread(s', s'.pcs[u]) {
      if u != t { assert LiveThread(s, s.pcs[u]); }
    }
  }

  lemma LifeInsert(s: State, s': State, t: Tid, k: Key)
    requires LifeInv(s) && Moves(s, s', t) && !s'.pcs[t].Removing?
    requires k in s'.entries && s'.entries[k].node == None && s'.entries[k].value == None && SameBut(s, s', k)
    requires s'.freed == s.freed && s'.nextId == s.nextId && s'.stamps == s.stamps
    ensures LifeInv(s')
  {
    forall j | j in s'.entries ensures LiveEntry(s', j) {
      if j != k { assert LiveEntry(s, j); }
    }
    forall u | 0 <= u < |s'.pcs| ensures LiveThread(s', s'.pcs[u]) {
      if u != t { assert LiveThread(s, s.pcs[u]); }
    }
  }

  lemma LifeCreate(s: State, s': State, t: Tid, k: Key, n: Node)
    requires LifeInv(s) && Moves(s, s', t) && !s'.pcs[t].Removing?
    requires k in s'.entries && s'.entries[k].node == Some(n) && s'.entries[k].value.Some? && SameBut(s, s', k)
    requires n.id == s.nextId && s'.nextId == s.nextId + 1
    requires s'.freed == s.freed && s'.stamps.Keys == s.stamps.Keys + {n}
    ensures LifeInv(s')
  {
    forall j | j in s'.entries ensures LiveEntry(s', j) {
      if j != k { assert LiveEntry(s, j); }
    }
    forall u | 0 <= u < |s'.pcs| ensures LiveThread(s', s'.pcs[u]) {
      if u != t { assert LiveThread(s, s.pcs[u]); }
    }
  }

  lemma LifeInsertStep(s: State, t: Tid, k: Key, now: int)
    requires LifeInv(s) && t < |s.pcs| && s.pcs[t].Setting? && s.pcs[t].s.Insert?
    ensures LifeInv(SetStep(s, t, k, now))
  {
    var s' := SetStep(s, t, k, now);
    if k in s.entries { LifeUntouched(s, s', t); } else { LifeInsert(s, s', t, k); }
  }

  lemma LifeSetStep(s: State, t: Tid, k: Key, now: int)
    requires LifeInv(s) && t < |s.pcs| && s.pcs[t].Setting?
    requires !s.pcs[t].s.Insert? ==> k in s.entries
    requires s.pcs[t].s.Store? ==> s.entries[k].node.Some?
    ensures LifeInv(SetStep(s, t, k, now))
  {
    var s' := SetStep(s, t, k, now);
    match s.pcs[t].s {
      case Insert(_) => LifeInsertStep(s, t, k, now);
      case Create(_) => LifeCreate(s, s', t, k, Node(s.nextId, k));
      case Store(_) => assert LiveEntry(s, k); LifeUntouched(s, s', t);
      case LinkWait(_) => LifeUntouched(s, s', t);
      case Link(_) => LifeUntouched(s, s', t);
      case Count => LifeUntouched(s, s', t);
      case RefreshWait => LifeUntouched(s, s', t);
      case Refresh => LifeUntouched(s, s', t);
      case Unlock => LifeUntouched(s, s', t);
    }
  }

  lemma LifeErase(s: State, s': State, t: Tid, n: Node)
    requires ShapeInv(s) && LifeInv(s) && Moves(s, s', t)
    requires Stored(s, n) && s'.pcs[t].Removing? && s'.pcs[t].m == Delete(n)
    requires s'.entries == s.entries - {n.key} && s'.freed == s.freed && s'.nextId == s.nextId && s'.stamps == s.stamps
    ensures LifeInv(s')
  {
    assert LiveEntry(s, n.key) && EntryOk(s, n.key);
    forall j | j in s'.entries ensures LiveEntry(s', j) {
      assert LiveEntry(s, j);
    }
    forall u | 0 <= u < |s'.pcs| ensures LiveThread(s', s'.pcs[u]) {
      if u != t { assert LiveThread(s, s.pcs[u]); }
    }
  }

  lemma LifeDelete(s: State, s': State, t: Tid, n: Node)
    requires EvictorInv(s) && ShapeInv(s) && LifeInv(s) && Moves(s, s', t)
    requires s.pcs[t].Removing? && s.pcs[t].m == Delete(n) && s'.pcs[t].Removing? && s'.pcs[t].m == Decrement
    requires s'.entries == s.entries && s'.freed == s.freed + {n} && s'.nextId == s.nextId && s'.stamps == s.stamps
    ensures LifeInv(s')
  {
    assert LiveThread(s, s.pcs[t]);
    forall j | j in s'.entries ensures LiveEntry(s', j) {
      assert LiveEntry(s, j) && EntryOk(s, j);
    }
    forall u | 0 <= u < |s'.pcs| ensures LiveThread(s', s'.pcs[u]) {
      assert LiveThread(s, s.pcs[u]);
      assert u != t ==> !Evictor(s.pcs[u]);
    }
  }

  lemma LifeRemoveStep(cfg: Config, s: State, t: Tid, r: Removal, now: int)
    requires EvictorInv(s) && ShapeInv(s) && LifeInv(s) && t < |s.pcs| && s.pcs[t].Removing?
    ensures LifeInv(RemoveStep(cfg, s, t, r, now))
  {
    var s' := RemoveStep(cfg, s, t, r, now);
    match s.pcs[t].m {
      case Erase(n) => assert StageOk(s, s.pcs[t]); LifeErase(s, s', t, n);
      case Delete(n) => LifeDelete(s, s', t, n);
      case Lock => LifeUntouched(s, s', t);
      case Detach => LifeUntouched(s, s', t);
      case Find(_) => LifeUntouched(s, s', t);
      case Decrement => LifeUntouched(s, s', t);
    }
  }

  lemma LifeGetStep(cfg: Config, s: State, t: Tid, k: Key, now: int)
    requires LifeInv(s) && t < |s.pcs| && s.pcs[t].Getting?
    ensures LifeInv(GetStep(cfg, s, t, k, now))
  {
    var s' := GetStep(cfg, s, t, k, now);
    if k in s.entries {
      assert s'.entries == s.entries[k := s.entries[k].(accessor := s'.entries[k].accessor)];
    }
    assert s'.freed == s.freed && s'.nextId == s.nextId && s'.stamps == s.stamps;
    LifeUntouched(s, s', t);
  }

  lemma LifeOtherStep(cfg: Config, s: State, t: Tid, c: Choice)
    requires LifeInv(s) && Enabled(s, t) && (s.pcs[t].Idle? || s.pcs[t].Snapping? || s.pcs[t].Evicting?)
    ensures LifeInv(Exec(cfg, s, t, c))
  {
    LifeUntouched(s, Exec(cfg, s, t, c), t);
  }

  /** A thread storing into an existing entry finds it filled. */
  lemma HeldEntry(s: State, t: Tid)
    requires AccessorInv(s) && ShapeInv(s) && t < |s.pcs| && s.pcs[t].Setting?
    ensures !s.pcs[t].s.Insert? ==> s.pcs[t].k in s.entries
    ensures !s.pcs[t].s.Insert? && !s.pcs[t].s.Create? ==> s.entries[s.pcs[t].k].node.Some?
  {
    var k := s.pcs[t].k;
    assert HoldsAccessors(s, t);
    if !s.pcs[t].s.Insert? && s.entries[k].node.None? {
      assert EntryOk(s, k);
      var u :| 0 <= u < |s.pcs| && StageOf(s.pcs[u]) == Creating(k);
      assert HoldsAccessors(s, u);
    }
  }

  lemma LifeStep(cfg: Config, s: State, t: Tid, c: Choice)
    requires LockInv(s) && ShapeInv(s) && LifeInv(s) && Enabled(s, t)
    ensures LifeInv(Exec(cfg, s, t, c))
  {
    match s.pcs[t] {
      case Setting(k, _) => HeldEntry(s, t); LifeSetStep(s, t, k, c.now);
      case Removing(r, _) => LifeRemoveStep(cfg, s, t, r, c.now);
      case Getting(k, _) => LifeGetStep(cfg, s, t, k, c.now);
      case _ => LifeOtherStep(cfg, s, t, c);
    }
  }

  // ----- counters

  /** The threads that stand at a pc with property p. */
  ghost function ThreadsAt(pcs: seq<Pc>, p: Pc -> bool): set<Tid> {
    set t | 0 <= t < |pcs| && p(pcs[t])
  }

  ghost function Tally(pcs: seq<Pc>, p: Pc -> bool): nat {
    |ThreadsAt(pcs, p)|
  }

  lemma TallyMoved(pcs: seq<Pc>, t: Tid, pc: Pc, p: Pc -> bool)
    requires t < |pcs|
    ensures Tally(pcs[t := pc], p) == Tally(pcs, p) - (if p(pcs[t]) then 1 else 0) + (if p(pc) then 1 else 0)
  {
    var pcs' := pcs[t := pc];
    var rest := ThreadsAt(pcs, p) - {t};
    assert ThreadsAt(pcs, p) == if p(pcs[t]) then rest + {t} else rest;
    assert ThreadsAt(pcs', p) == if p(pc) then rest + {t} else rest;
  }

  /** Its entry is in the map and not yet in m_size. */
  predicate Uncounted(pc: Pc) {
    pc.Setting? && (pc.s.Create? || pc.s.LinkWait? || pc.s.Link? || pc.s.Count?)
  }

  /** Its node is linked and its entry not yet in m_size. */
  predicate Linked(pc: Pc) { pc.Setting? && pc.s.Count? }

  /** Its node has left the list and is still in m_size. */
  predicate Detached(pc: Pc) {
    pc.Removing? && (pc.m.Find? || pc.m.Erase? || pc.m.Delete? || pc.m.Decrement?)
  }

  /** Its entry has left the map and is still in m_size. */
  predicate Erased(pc: Pc) { pc.Removing? && (pc.m.Delete? || pc.m.Decrement?) }

  ghost predicate CountInv(s: State) {
    && s.size + Tally(s.pcs, Uncounted) == |s.entries| + Tally(s.pcs, Erased)
    && s.size + Tally(s.pcs, Linked) == |s.list| + Tally(s.pcs, Detached)
  }

  function One(b: bool): int { if b then 1 else 0 }

  /** What a step adds to the counter, the map and the list is what it takes off the threads in between. */
  ghost predicate CountDelta(s: State, s': State, t: Tid)
    requires Moves(s, s', t)
  {
    var pc, pc' := s.pcs[t], s'.pcs[t];
    && s'.size - s.size + One(Uncounted(pc')) - One(Uncounted(pc))
       == |s'.entries| - |s.entries| + One(Erased(pc')) - One(Erased(pc))
    && s'.size - s.size + One(Linked(pc')) - One(Linked(pc))
       == |s'.list| - |s.list| + One(Detached(pc')) - One(Detached(pc))
  }

  lemma CountKept(s: State, s': State, t: Tid)
    requires CountInv(s) && Moves(s, s', t) && CountDelta(s, s', t)
    ensures CountInv(s')
  {
    TallyMoved(s.pcs, t, s'.pcs[t], Uncounted);
    TallyMoved(s.pcs, t, s'.pcs[t], Linked);
    TallyMoved(s.pcs, t, s'.pcs[t], Detached);
    TallyMoved(s.pcs, t, s'.pcs[t], Erased);
  }

  lemma SizeAfterSet(m: map<Key, Entry>, k: Key, e: Entry)
    ensures |m[k := e]| == if k in m then |m| else |m| + 1
  {
    assert m[k := e].Keys == m.Keys + {k};
    assert |m[k := e]| == |m[k := e].Keys| && |m| == |m.Keys|;
    if k in m { assert m.Keys + {k} == m.Keys; }
  }

  lemma SizeAfterErase(m: map<Key, Entry>, k: Key)
    requires k in m
    ensures |m - {k}| == |m| - 1
  {
    assert (m - {k}).Keys == m.Keys - {k};
    assert |m - {k}| == |(m - {k}).Keys| && |m| == |m.Keys|;
  }

  lemma CountSetStep(s: State, t: Tid, k: Key, now: int)
    requires Enabled(s, t) && s.pcs[t].Setting? && DistinctKeys(s.list)
    requires !s.pcs[t].s.Insert? ==> k in s.entries
    ensures Moves(s, SetStep(s, t, k, now), t) && CountDelta(s, SetStep(s, t, k, now), t)
  {
    var s' := SetStep(s, t, k, now);
    match s.pcs[t].s {
      case Insert(_) => SizeAfterSet(s.entries, k, s'.entries[k]);
      case Create(_) => SizeAfterSet(s.entries, k, s'.entries[k]);
      case Store(_) => SizeAfterSet(s.entries, k, s'.entries[k]);
      case Unlock => SizeAfterSet(s.entries, k, s'.entries[k]);
      case Refresh =>
        var e := s.entries[k];
        if e.node.Some? && e.node.value in s.list { DelinkFacts(s.list, e.node.value); }
      case LinkWait(_) =>
      case Link(_) =>
      case Count =>
      case RefreshWait =>
    }
  }

  lemma CountRemoveStep(cfg: Config, s: State, t: Tid, r: Removal, now: int)
    requires Enabled(s, t) && s.pcs[t].Removing? && StageOk(s, s.pcs[t])
    ensures Moves(s, RemoveStep(cfg, s, t, r, now), t) && CountDelta(s, RemoveStep(cfg, s, t, r, now), t)
  {
    match s.pcs[t].m {
      case Find(n) => SizeAfterSet(s.entries, n.key, LockEntry(s.entries[n.key], t));
      case Erase(n) => SizeAfterErase(s.entries, n.key);
      case _ => CountRemoveOther(cfg, s, t, r, now);
    }
  }

  lemma CountRemoveOther(cfg: Config, s: State, t: Tid, r: Removal, now: int)
    requires t < |s.pcs| && s.pcs[t].Removing? && !s.pcs[t].m.Find? && !s.pcs[t].m.Erase?
    ensures Moves(s, RemoveStep(cfg, s, t, r, now), t) && CountDelta(s, RemoveStep(cfg, s, t, r, now), t)
  {
    match s.pcs[t].m {
      case Lock =>
      case Detach =>
      case Delete(_) =>
      case Decrement =>
    }
  }

  lemma CountGetStep(cfg: Config, s: State, t: Tid, k: Key, now: int)
    requires Enabled(s, t) && s.pcs[t].Getting?
    ensures Moves(s, GetStep(cfg, s, t, k, now), t) && CountDelta(s, GetStep(cfg, s, t, k, now), t)
  {
    var s' := GetStep(cfg, s, t, k, now);
    if k in s.entries { SizeAfterSet(s.entries, k, s'.entries[k]); }
  }

  lemma CountOtherStep(cfg: Config, s: State, t: Tid, c: Choice)
    requires Enabled(s, t) && (s.pcs[t].Idle? || s.pcs[t].Snapping? || s.pcs[t].Evicting?)
    ensures Moves(s, Exec(cfg, s, t, c), t) && CountDelta(s, Exec(cfg, s, t, c), t)
  {
    match s.pcs[t] {
      case Idle =>
      case Snapping(_) =>
      case Evicting(_) =>
    }
  }

  lemma CountStep(cfg: Config, s: State, t: Tid, c: Choice)
    requires LockInv(s) && ShapeInv(s) && CountInv(s) && Enabled(s, t)
    ensures CountInv(Exec(cfg, s, t, c))
  {
    match s.pcs[t] {
      case Setting(k, _) => HeldEntry(s, t); CountSetStep(s, t, k, c.now);
      case Removing(r, _) => assert StageOk(s, s.pcs[t]); CountRemoveStep(cfg, s, t, r, c.now);
      case Getting(k, _) => CountGetStep(cfg, s, t, k, c.now);
      case _ => CountOtherStep(cfg, s, t, c);
    }
    CountKept(s, Exec(cfg, s, t, c), t);
  }

  // ----- the evictor's guard

  /** While the evictor removes for overload, the counter stays above the maximum; the rounds stay bounded. */
  ghost predicate GuardInv(cfg: Config, s: State) {
    forall t :: 0 <= t < |s.pcs| ==> GuardOk(cfg, s, s.pcs[t])
  }

  predicate GuardOk(cfg: Config, s: State, pc: Pc) {
    match pc
    case Removing(r, _) =>
      r.cnt < MAX_EVICT_BATCH && (if r.overload then s.size > cfg.maxSize else cfg.timeout != 0)
    case Evicting(SizeCheck(cnt)) => cnt <= MAX_EVICT_BATCH
    case Evicting(TimeoutCheck(cnt)) => cnt <= MAX_EVICT_BATCH
    case Evicting(TimeoutWait(cnt)) => cnt < MAX_EVICT_BATCH && cfg.timeout != 0
    case Evicting(Timeout(cnt)) => cnt < MAX_EVICT_BATCH && cfg.timeout != 0
    case _ => true
  }

  /** Only the removing thread lowers the counter. */
  ghost predicate GuardDelta(cfg: Config, s: State, s': State, t: Tid) {
    && Moves(s, s', t)
    && GuardOk(cfg, s', s'.pcs[t])
    && (s'.size < s.size ==> s.pcs[t].Removing?)
  }

  lemma GuardRemoveStep(cfg: Config, s: State, t: Tid, r: Removal, now: int)
    requires t < |s.pcs| && s.pcs[t].Removing? && s.pcs[t].r == r && GuardOk(cfg, s, s.pcs[t])
    ensures GuardDelta(cfg, s, RemoveStep(cfg, s, t, r, now), t)
  {
    match s.pcs[t].m {
      case Lock =>
      case Detach =>
      case Find(_) =>
      case Erase(_) =>
      case Delete(_) =>
      case Decrement =>
    }
  }

  lemma GuardEvictStep(cfg: Config, s: State, t: Tid, now: int)
    requires t < |s.pcs| && s.pcs[t].Evicting? && GuardOk(cfg, s, s.pcs[t])
    ensures GuardDelta(cfg, s, EvictStep(cfg, s, t, now), t)
  {
  }

  lemma GuardSetStep(cfg: Config, s: State, t: Tid, k: Key, now: int)
    requires t < |s.pcs| && s.pcs[t].Setting?
    ensures GuardDelta(cfg, s, SetStep(s, t, k, now), t)
  {
  }

  lemma GuardMove(cfg: Config, s: State, t: Tid, c: Choice)
    requires Enabled(s, t) && GuardOk(cfg, s, s.pcs[t])
    ensures GuardDelta(cfg, s, Exec(cfg, s, t, c), t)
  {
    match s.pcs[t] {
      case Setting(k, _) => GuardSetStep(cfg, s, t, k, c.now);
      case Removing(r, _) => GuardRemoveStep(cfg, s, t, r, c.now);
      case Evicting(_) => GuardEvictStep(cfg, s, t, c.now);
      case _ =>
    }
  }

  lemma GuardStep(cfg: Config, s: State, t: Tid, c: Choice)
    requires EvictorInv(s) && GuardInv(cfg, s) && Enabled(s, t)
    ensures GuardInv(cfg, Exec(cfg, s, t, c))
  {
    var s' := Exec(cfg, s, t, c);
    GuardMove(cfg, s, t, c);
    forall u | 0 <= u < |s'.pcs| ensures GuardOk(cfg, s', s'.pcs[u]) {
      assert GuardOk(cfg, s, s.pcs[u]);
      assert u != t && s.pcs[u].Removing? ==> !Evictor(s.pcs[t]);
    }
  }
}
