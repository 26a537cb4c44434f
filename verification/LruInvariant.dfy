/** The invariant of the step machine, kept by every step of every thread. */
module LruInvariant {
  import opened Domain
  import opened LruProtocol

  // ----- what a program counter implies

  /** The key whose accessor the thread holds for writing. */
  function WriteKey(pc: Pc): Option<Key> {
    match pc
    case Setting(k, s) => if s.Insert? then None else Some(k)
    case Removing(_, Erase(n)) => Some(n.key)
    case _ => None
  }

  /** The key whose accessor the thread holds for reading. */
  function ReadKey(pc: Pc): Option<Key> {
    if pc.Getting? && !pc.g.Lookup? then Some(pc.k) else None
  }

  predicate HoldsMutex(pc: Pc) {
    (pc.Setting? && (pc.s.Link? || pc.s.Refresh?)) || (pc.Removing? && pc.m.Detach?)
  }

  predicate SharesMutex(pc: Pc) {
    (pc.Snapping? && pc.locked) || (pc.Evicting? && pc.e.Timeout?)
  }

  /** Inside `evict`, between winning the flag and clearing it. */
  predicate Evictor(pc: Pc) {
    (pc.Evicting? && !pc.e.Enter?) || pc.Removing?
  }

  /** What a thread holds that the list does not show yet, or no longer. */
  datatype Stage =
    | NoNode
    | Creating(k: Key)      // k's entry has no node yet
    | Linking(n: Node)      // n is stored in its entry and not yet linked
    | Unmapping(n: Node)    // n is delinked and its entry not yet erased

  function StageOf(pc: Pc): Stage {
    match pc
    case Setting(k, Create(_)) => Creating(k)
    case Setting(_, LinkWait(n)) => Linking(n)
    case Setting(_, Link(n)) => Linking(n)
    case Removing(_, Find(n)) => Unmapping(n)
    case Removing(_, Erase(n)) => Unmapping(n)
    case _ => NoNode
  }

  ghost predicate AtStage(s: State, st: Stage) {
    exists t :: 0 <= t < |s.pcs| && StageOf(s.pcs[t]) == st
  }

  // ----- the invariant

  ghost predicate AccessorInv(s: State) {
    && (forall k :: k in s.entries ==> AccessorOk(s, k))
    && (forall t :: 0 <= t < |s.pcs| ==> HoldsAccessors(s, t))
  }

  /** The lock of an entry names exactly threads that stand where they hold it. */
  ghost predicate AccessorOk(s: State, k: Key)
    requires k in s.entries
  {
    var l := s.entries[k].accessor;
    && (l.writer.Some? ==> l.readers == {} && l.writer.value < |s.pcs| && WriteKey(s.pcs[l.writer.value]) == Some(k))
    && (forall t :: t in l.readers ==> t < |s.pcs| && ReadKey(s.pcs[t]) == Some(k))
  }

  ghost predicate HoldsAccessors(s: State, t: Tid)
    requires t < |s.pcs|
  {
    && (WriteKey(s.pcs[t]).Some? ==>
        WriteKey(s.pcs[t]).value in s.entries && s.entries[WriteKey(s.pcs[t]).value].accessor.writer == Some(t))
    && (ReadKey(s.pcs[t]).Some? ==>
        ReadKey(s.pcs[t]).value in s.entries && t in s.entries[ReadKey(s.pcs[t]).value].accessor.readers)
  }

  ghost predicate MutexInv(s: State) {
    && (s.mutex.writer.Some? ==>
        s.mutex.readers == {} && s.mutex.writer.value < |s.pcs| && HoldsMutex(s.pcs[s.mutex.writer.value]))
    && (forall t :: t in s.mutex.readers ==> t < |s.pcs| && SharesMutex(s.pcs[t]))
    && (forall t :: 0 <= t < |s.pcs| ==>
        && (HoldsMutex(s.pcs[t]) ==> s.mutex.writer == Some(t))
        && (SharesMutex(s.pcs[t]) ==> t in s.mutex.readers))
  }

  /** At most one thread evicts, and the flag is up exactly while one does. */
  ghost predicate EvictorInv(s: State) {
    && (forall t, u :: 0 <= t < |s.pcs| && 0 <= u < |s.pcs| && Evictor(s.pcs[t]) && Evictor(s.pcs[u]) ==> t == u)
    && (forall t :: 0 <= t < |s.pcs| && Evictor(s.pcs[t]) ==> s.evicting)
    && (s.evicting ==> exists t :: 0 <= t < |s.pcs| && Evictor(s.pcs[t]))
  }


  ghost predicate ShapeInv(s: State) {
    && (forall k :: k in s.entries ==> EntryOk(s, k))
    && (forall n :: n in s.list ==> Stored(s, n))
    && DistinctKeys(s.list)
    && (forall t :: 0 <= t < |s.pcs| ==> StageOk(s, s.pcs[t]))
    && (forall n :: AtStage(s, Linking(n)) ==> !AtStage(s, Unmapping(n)))
  }

  /** An entry is being filled, or its node is about to be linked, in the list, or delinked by the evictor. */
  ghost predicate EntryOk(s: State, k: Key)
    requires k in s.entries
  {
    match s.entries[k].node
    case None => AtStage(s, Creating(k))
    case Some(n) =>
      && n.key == k
      && n.id < s.nextId
      && (n in s.list || AtStage(s, Linking(n)) || AtStage(s, Unmapping(n)))
  }

  /** The entry of n's key is there and its node is n. */
  predicate Stored(s: State, n: Node) {
    n.key in s.entries && s.entries[n.key].node == Some(n)
  }

  predicate DistinctKeys(l: seq<Node>) {
    forall i, j :: 0 <= i < j < |l| ==> l[i].key != l[j].key
  }

  ghost predicate StageOk(s: State, pc: Pc) {
    match StageOf(pc)
    case NoNode => true
    case Creating(k) => k in s.entries && s.entries[k].node == None
    case Linking(n) => Stored(s, n) && n !in s.list && pc.k == n.key
    case Unmapping(n) => Stored(s, n) && n !in s.list
  }

  // ----- one step keeps the accessor locks consistent

  ghost predicate Moves(s: State, s': State, t: Tid) {
    && t < |s.pcs| == |s'.pcs|
    && s'.pcs == s.pcs[t := s'.pcs[t]]
  }

  ghost predicate SameAccessors(s: State, s': State) {
    && s'.entries.Keys == s.entries.Keys
    && forall k :: k in s.entries ==> s'.entries[k].accessor == s.entries[k].accessor
  }

  /** Every entry but k's is untouched. */
  ghost predicate SameBut(s: State, s': State, k: Key) {
    forall j :: j != k ==>
      && (j in s.entries <==> j in s'.entries)
      && (j in s.entries ==> s'.entries[j] == s.entries[j])
  }

  lemma AccessorsUntouched(s: State, s': State, t: Tid)
    requires AccessorInv(s) && Moves(s, s', t) && SameAccessors(s, s')
    requires WriteKey(s'.pcs[t]) == WriteKey(s.pcs[t]) && ReadKey(s'.pcs[t]) == ReadKey(s.pcs[t])
    ensures AccessorInv(s')
  {
    forall u | 0 <= u < |s'.pcs| ensures HoldsAccessors(s', u) {
      assert HoldsAccessors(s, u);
    }
    forall k | k in s'.entries ensures AccessorOk(s', k) {
      assert AccessorOk(s, k);
    }
  }

  /** The thread takes k for writing: a fresh entry, or one nobody holds. */
  lemma AccessorTaken(s: State, s': State, t: Tid, k: Key)
    requires AccessorInv(s) && Moves(s, s', t) && SameBut(s, s', k)
    requires k in s.entries ==> CanWrite(s.entries[k].accessor)
    requires k in s'.entries && s'.entries[k].accessor == RwLock(Some(t), {})
    requires WriteKey(s.pcs[t]) == None && ReadKey(s.pcs[t]) == None
    requires WriteKey(s'.pcs[t]) == Some(k) && ReadKey(s'.pcs[t]) == None
    ensures AccessorInv(s')
  {
    forall u | 0 <= u < |s'.pcs| ensures HoldsAccessors(s', u) {
      assert HoldsAccessors(s, u);
    }
    forall j | j in s'.entries ensures AccessorOk(s', j) {
      if j != k { assert AccessorOk(s, j); }
    }
  }

  /** The thread gives up k, which it held for writing; the entry stays unlocked or goes. */
  lemma AccessorGiven(s: State, s': State, t: Tid, k: Key)
    requires AccessorInv(s) && Moves(s, s', t) && SameBut(s, s', k)
    requires WriteKey(s.pcs[t]) == Some(k) && ReadKey(s.pcs[t]) == None
    requires k in s'.entries ==> s'.entries[k].accessor == Unlocked
    requires WriteKey(s'.pcs[t]) == None && ReadKey(s'.pcs[t]) == None
    ensures AccessorInv(s')
  {
    assert HoldsAccessors(s, t);
    forall u | 0 <= u < |s'.pcs| ensures HoldsAccessors(s', u) {
      assert HoldsAccessors(s, u);
      assert AccessorOk(s, k);
    }
    forall j | j in s'.entries ensures AccessorOk(s', j) {
      if j != k { assert AccessorOk(s, j); }
    }
  }

  /** The thread joins or leaves the readers of k. */
  lemma AccessorRead(s: State, s': State, t: Tid, k: Key)
    requires AccessorInv(s) && Moves(s, s', t) && SameBut(s, s', k)
    requires k in s.entries && k in s'.entries && CanRead(s.entries[k].accessor)
    requires WriteKey(s.pcs[t]) == None && WriteKey(s'.pcs[t]) == None
    requires || (ReadKey(s.pcs[t]) == None && ReadKey(s'.pcs[t]) == Some(k)
                 && s'.entries[k].accessor == AcquireShared(s.entries[k].accessor, t))
             || (ReadKey(s.pcs[t]) == Some(k) && ReadKey(s'.pcs[t]) == None
                 && s'.entries[k].accessor == ReleaseShared(s.entries[k].accessor, t))
    ensures AccessorInv(s')
  {
    assert AccessorOk(s, k);
    forall u | 0 <= u < |s'.pcs| ensures HoldsAccessors(s', u) {
      assert HoldsAccessors(s, u);
    }
    forall j | j in s'.entries ensures AccessorOk(s', j) {
      assert AccessorOk(s, j);
    }
  }

  lemma EntriesUntouched(s: State, s': State, t: Tid)
    requires AccessorInv(s) && Moves(s, s', t) && s'.entries == s.entries
    requires WriteKey(s'.pcs[t]) == WriteKey(s.pcs[t]) && ReadKey(s'.pcs[t]) == ReadKey(s.pcs[t])
    ensures AccessorInv(s')
  {
    AccessorsUntouched(s, s', t);
  }

  lemma AccessorSetStep(s: State, t: Tid, k: Key, now: int)
    requires AccessorInv(s) && Enabled(s, t) && s.pcs[t].Setting? && s.pcs[t].k == k
    ensures AccessorInv(SetStep(s, t, k, now))
  {
    var s' := SetStep(s, t, k, now);
    assert HoldsAccessors(s, t);
    match s.pcs[t].s {
      case Insert(_) => AccessorTaken(s, s', t, k);
      case Unlock => assert AccessorOk(s, k); AccessorGiven(s, s', t, k);
      case _ => AccessorsUntouched(s, s', t);
    }
  }

  lemma AccessorGetStep(cfg: Config, s: State, t: Tid, k: Key, now: int)
    requires AccessorInv(s) && Enabled(s, t) && s.pcs[t].Getting? && s.pcs[t].k == k
    ensures AccessorInv(GetStep(cfg, s, t, k, now))
  {
    var s' := GetStep(cfg, s, t, k, now);
    assert HoldsAccessors(s, t);
    if k in s.entries && (s.pcs[t].g.Lookup? || s'.pcs[t].Idle?) {
      assert AccessorOk(s, k);
      AccessorRead(s, s', t, k);
    } else {
      EntriesUntouched(s, s', t);
    }
  }

  lemma AccessorRemoveStep(cfg: Config, s: State, t: Tid, r: Removal, now: int)
    requires AccessorInv(s) && Enabled(s, t) && s.pcs[t].Removing?
    ensures AccessorInv(RemoveStep(cfg, s, t, r, now))
  {
    var s' := RemoveStep(cfg, s, t, r, now);
    assert HoldsAccessors(s, t);
    match s.pcs[t].m {
      case Find(n) =>
        if n.key in s.entries { AccessorTaken(s, s', t, n.key); } else { EntriesUntouched(s, s', t); }
      case Erase(n) => AccessorGiven(s, s', t, n.key);
      case _ => EntriesUntouched(s, s', t);
    }
  }

  lemma AccessorStep(cfg: Config, s: State, t: Tid, c: Choice)
    requires AccessorInv(s) && Enabled(s, t)
    ensures AccessorInv(Exec(cfg, s, t, c))
  {
    match s.pcs[t] {
      case Setting(k, _) => AccessorSetStep(s, t, k, c.now);
      case Getting(k, _) => AccessorGetStep(cfg, s, t, k, c.now);
      case Removing(r, _) => AccessorRemoveStep(cfg, s, t, r, c.now);
      case _ => EntriesUntouched(s, Exec(cfg, s, t, c), t);
    }
  }

  // ----- one step keeps the list mutex and the evict flag consistent

  /** The five ways a step can touch a lock that it holds or asks for. */
  ghost predicate MutexDelta(s: State, s': State, pc: Pc, pc': Pc, t: Tid) {
    || (s'.mutex == s.mutex && HoldsMutex(pc) == HoldsMutex(pc') && SharesMutex(pc) == SharesMutex(pc'))
    || (CanWrite(s.mutex) && s'.mutex == Acquire(s.mutex, t)
        && !HoldsMutex(pc) && HoldsMutex(pc') && !SharesMutex(pc'))
    || (HoldsMutex(pc) && s'.mutex == Release(s.mutex) && !HoldsMutex(pc') && !SharesMutex(pc'))
    || (CanRead(s.mutex) && s'.mutex == AcquireShared(s.mutex, t)
        && !SharesMutex(pc) && SharesMutex(pc') && !HoldsMutex(pc'))
    || (SharesMutex(pc) && s'.mutex == ReleaseShared(s.mutex, t) && !SharesMutex(pc') && !HoldsMutex(pc'))
  }

  ghost predicate FlagDelta(s: State, s': State, pc: Pc, pc': Pc) {
    || (s'.evicting == s.evicting && Evictor(pc) == Evictor(pc'))
    || (!s.evicting && s'.evicting && !Evictor(pc) && Evictor(pc'))
    || (!s'.evicting && Evictor(pc) && !Evictor(pc'))
  }

  /** A step moves only its own thread, and touches the list mutex and the flag only in those ways. */
  ghost predicate StepDelta(s: State, s': State, t: Tid) {
    && Moves(s, s', t)
    && MutexDelta(s, s', s.pcs[t], s'.pcs[t], t)
    && FlagDelta(s, s', s.pcs[t], s'.pcs[t])
  }

  lemma SetDelta(s: State, t: Tid, k: Key, now: int)
    requires Enabled(s, t) && s.pcs[t].Setting? && s.pcs[t].k == k
    ensures StepDelta(s, SetStep(s, t, k, now), t)
  {
  }

  lemma RemoveDelta(cfg: Config, s: State, t: Tid, r: Removal, now: int)
    requires Enabled(s, t) && s.pcs[t].Removing?
    ensures StepDelta(s, RemoveStep(cfg, s, t, r, now), t)
  {
    match s.pcs[t].m {
      case Lock =>
      case Detach =>
      case Find(_) =>
      case Erase(_) =>
      case Delete(_) =>
      case Decrement =>
    }
  }

  lemma OtherDelta(cfg: Config, s: State, t: Tid, c: Choice)
    requires Enabled(s, t) && !s.pcs[t].Setting? && !s.pcs[t].Removing?
    ensures StepDelta(s, Exec(cfg, s, t, c), t)
  {
    match s.pcs[t] {
      case Idle =>
      case Getting(k, _) => GetDelta(cfg, s, t, k, c.now);
      case Snapping(_) =>
      case Evicting(_) => EvictDelta(cfg, s, t, c.now);
    }
  }

  lemma GetDelta(cfg: Config, s: State, t: Tid, k: Key, now: int)
    requires t < |s.pcs| && s.pcs[t].Getting?
    ensures StepDelta(s, GetStep(cfg, s, t, k, now), t)
  {
  }

  lemma EvictDelta(cfg: Config, s: State, t: Tid, now: int)
    requires Enabled(s, t) && s.pcs[t].Evicting?
    ensures StepDelta(s, EvictStep(cfg, s, t, now), t)
  {
  }

  lemma DeltaStep(cfg: Config, s: State, t: Tid, c: Choice)
    requires Enabled(s, t)
    ensures StepDelta(s, Exec(cfg, s, t, c), t)
  {
    match s.pcs[t] {
      case Setting(k, _) => SetDelta(s, t, k, c.now);
      case Removing(r, _) => RemoveDelta(cfg, s, t, r, c.now);
      case _ => OtherDelta(cfg, s, t, c);
    }
  }

  lemma MutexKept(s: State, s': State, t: Tid)
    requires MutexInv(s) && Moves(s, s', t) && MutexDelta(s, s', s.pcs[t], s'.pcs[t], t)
    ensures MutexInv(s')
  {
    forall u | 0 <= u < |s'.pcs|
      ensures HoldsMutex(s'.pcs[u]) ==> s'.mutex.writer == Some(u)
      ensures SharesMutex(s'.pcs[u]) ==> u in s'.mutex.readers
    {
      assert u != t ==> s'.pcs[u] == s.pcs[u];
    }
  }

  lemma EvictorKept(s: State, s': State, t: Tid)
    requires EvictorInv(s) && Moves(s, s', t) && FlagDelta(s, s', s.pcs[t], s'.pcs[t])
    ensures EvictorInv(s')
  {
    if s'.evicting {
      if s.evicting {
        var u :| 0 <= u < |s.pcs| && Evictor(s.pcs[u]);
        assert Evictor(s'.pcs[u]);
      } else {
        assert Evictor(s'.pcs[t]);
      }
    }
  }
}
