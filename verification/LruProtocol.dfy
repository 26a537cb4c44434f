/**
 The concurrent cache as a step machine: any number of threads, each running `insert`, `find`,
 `snapshot_keys` or `evict` one shared access at a time. A blocked lock request is a disabled step.

 The concurrent hash map is represented by its contract: insert, find and erase are atomic, and each
 entry carries a reader/writer lock (the accessor). List surgery happens inside the list mutex, so a
 critical section is one step between taking and releasing the mutex.
 */
module LruProtocol {
  import opened Domain

  type Tid = nat

  /** A reader/writer lock: a list mutex or the per-entry accessor lock. */
  datatype RwLock = RwLock(writer: Option<Tid>, readers: set<Tid>)

  const Unlocked := RwLock(None, {})

  /** A list node: its identity and its immutable copy of the key. */
  datatype Node = Node(id: nat, key: Key)

  /** What the hash map stores; `value` and `node` are None while default-constructed. */
  datatype Entry = Entry(value: Option<Value>, node: Option<Node>, accessor: RwLock)

  /** One call of `remove_node`: for overload or for timeout, as loop round `cnt`. */
  datatype Removal = Removal(overload: bool, cnt: nat)

  /** Where a thread stands. The name says what the thread does next. */
  datatype Pc =
    | Idle
    | Setting(k: Key, s: SetPc)
    | Getting(k: Key, g: GetPc)
    | Snapping(locked: bool)
    | Evicting(e: EvictPc)
    | Removing(r: Removal, m: RemovePc)

  /** Inside `set_entry`. From Create or Store on, the thread holds the accessor of its key. */
  datatype SetPc =
    | Insert(v: Value)     // m_map.insert
    | Create(v: Value)     // allocate the node, fill the entry
    | LinkWait(n: Node)    // request the list mutex
    | Link(n: Node)        // push_front
    | Count                // m_size++
    | Store(v: Value)      // overwrite the value
    | RefreshWait          // request the list mutex
    | Refresh              // restamp and move to the front
    | Unlock               // release the accessor

  /** Inside `find`, and the caller reading through its accessor. */
  datatype GetPc = Lookup | Check | Read

  /** Inside `evict` and `is_last_node_timeout`. */
  datatype EvictPc =
    | Enter                        // raise the flag
    | SizeCheck(cnt: nat)          // m_size.load() > m_max_size
    | TimeoutCheck(cnt: nat)       // m_timeout == 0
    | TimeoutWait(cnt: nat)        // request the list mutex, shared
    | Timeout(cnt: nat)            // look at the last node
    | Leave                        // lower the flag

  /** Inside `remove_node`. */
  datatype RemovePc =
    | Lock                 // request the list mutex
    | Detach               // delink the last node
    | Find(n: Node)        // m_map.find
    | Erase(n: Node)       // m_map.erase
    | Delete(n: Node)      // delete moribund
    | Decrement            // m_size--

  /** What an operation did to the map as callers see it, recorded at the step where it did so. */
  datatype Event =
    | SetEvent(k: Key, v: Value)
    | EraseEvent(k: Key)
    | HitEvent(k: Key, v: Value)
    | MissEvent(k: Key)
    | ExpiredEvent(k: Key)

  datatype State = State(
    entries: map<Key, Entry>,   // m_map
    list: seq<Node>,            // between the sentinels, most recent first
    stamps: map<Node, int>,     // m_timestamp of every node ever allocated
    nextId: nat,                // no node with this identity or above exists yet
    freed: set<Node>,           // deleted nodes
    size: int,                  // m_size
    evicting: bool,             // m_evict_flag
    mutex: RwLock,              // m_list_mutex
    pcs: seq<Pc>,               // one per thread
    history: seq<Event>)

  datatype Op = Set(k: Key, v: Value) | Get(k: Key) | Snapshot | Evict

  /** What a step leaves open: the operation an idle thread begins, and the clock reading. */
  datatype Choice = Choice(op: Op, now: int)

  predicate Init(s: State) {
    && s.entries == map[] && s.list == [] && s.stamps == map[] && s.nextId == 0 && s.freed == {}
    && s.size == 0 && !s.evicting && s.mutex == Unlocked && s.history == []
    && forall t :: 0 <= t < |s.pcs| ==> s.pcs[t] == Idle
  }

  // ----- locks

  predicate CanWrite(l: RwLock) { l.writer.None? && l.readers == {} }

  predicate CanRead(l: RwLock) { l.writer.None? }

  function Acquire(l: RwLock, t: Tid): RwLock { l.(writer := Some(t)) }

  function Release(l: RwLock): RwLock { l.(writer := None) }

  function AcquireShared(l: RwLock, t: Tid): RwLock { l.(readers := l.readers + {t}) }

  function ReleaseShared(l: RwLock, t: Tid): RwLock { l.(readers := l.readers - {t}) }

  // ----- steps

  /** May thread t take its next step? Only lock requests can be refused. */
  predicate Enabled(s: State, t: Tid) {
    && t < |s.pcs|
    && match s.pcs[t]
       case Setting(k, Insert(_)) => k in s.entries ==> CanWrite(s.entries[k].accessor)
       case Getting(k, Lookup) => k in s.entries ==> CanRead(s.entries[k].accessor)
       case Removing(_, Find(n)) => n.key in s.entries ==> CanWrite(s.entries[n.key].accessor)
       case Setting(_, LinkWait(_)) => CanWrite(s.mutex)
       case Setting(_, RefreshWait) => CanWrite(s.mutex)
       case Removing(_, Lock) => CanWrite(s.mutex)
       case Snapping(locked) => locked || CanRead(s.mutex)
       case Evicting(TimeoutWait(_)) => CanRead(s.mutex)
       case _ => true
  }

  function Goto(s: State, t: Tid, pc: Pc): State
    requires t < |s.pcs|
  {
    s.(pcs := s.pcs[t := pc])
  }

  /** The thread's next step. A thread whose pc promises an entry that is not there stands still;
      the invariant shows that this never happens. */
  function Exec(cfg: Config, s: State, t: Tid, c: Choice): State
    requires Enabled(s, t)
  {
    match s.pcs[t]
    case Idle => Goto(s, t, Begin(c.op))
    case Setting(k, _) => SetStep(s, t, k, c.now)
    case Getting(k, _) => GetStep(cfg, s, t, k, c.now)
    case Snapping(locked) => SnapStep(s, t, locked)
    case Evicting(_) => EvictStep(cfg, s, t, c.now)
    case Removing(r, _) => RemoveStep(cfg, s, t, r, c.now)
  }

  function Begin(op: Op): Pc {
    match op
    case Set(k, v) => Setting(k, Insert(v))
    case Get(k) => Getting(k, Lookup)
    case Snapshot => Snapping(false)
    case Evict => Evicting(Enter)
  }

  function SetStep(s: State, t: Tid, k: Key, now: int): State
    requires t < |s.pcs| && s.pcs[t].Setting?
  {
    match s.pcs[t].s
    case Insert(v) =>
      if k in s.entries then
        Goto(s, t, Setting(k, Store(v))).(entries := s.entries[k := LockEntry(s.entries[k], t)])
      else
        Goto(s, t, Setting(k, Create(v))).(entries := s.entries[k := Entry(None, None, Acquire(Unlocked, t))])
    case Create(v) =>
      if k !in s.entries then s else
      var n := Node(s.nextId, k);
      Goto(s, t, Setting(k, LinkWait(n))).(
        nextId := s.nextId + 1,
        stamps := s.stamps[n := now],
        entries := s.entries[k := s.entries[k].(value := Some(v), node := Some(n))],
        history := s.history + [SetEvent(k, v)])
    case LinkWait(n) => Goto(s, t, Setting(k, Link(n))).(mutex := Acquire(s.mutex, t))
    case Link(n) => Goto(s, t, Setting(k, Count)).(list := [n] + s.list, mutex := Release(s.mutex))
    case Count => Goto(s, t, Setting(k, Unlock)).(size := s.size + 1)
    case Store(v) =>
      if k !in s.entries then s else
      Goto(s, t, Setting(k, RefreshWait)).(
        entries := s.entries[k := s.entries[k].(value := Some(v))],
        history := s.history + [SetEvent(k, v)])
    case RefreshWait => Goto(s, t, Setting(k, Refresh)).(mutex := Acquire(s.mutex, t))
    case Refresh => MoveToFront(Goto(s, t, Setting(k, Unlock)).(mutex := Release(s.mutex)), k, now)
    case Unlock =>
      if k !in s.entries then s else
      Goto(s, t, Idle).(entries := s.entries[k := s.entries[k].(accessor := Release(s.entries[k].accessor))])
  }

  function LockEntry(e: Entry, t: Tid): Entry { e.(accessor := Acquire(e.accessor, t)) }

  /** Restamp the node of k's entry and move it to the front, if it is in the list. */
  function MoveToFront(s: State, k: Key, now: int): State {
    if k in s.entries && s.entries[k].node.Some? && s.entries[k].node.value in s.list then
      var n := s.entries[k].node.value;
      s.(stamps := s.stamps[n := now], list := [n] + Delink(s.list, n))
    else s
  }

  /** The list without its first occurrence of n. */
  function Delink(l: seq<Node>, n: Node): seq<Node> {
    if l == [] then [] else if l[0] == n then l[1..] else [l[0]] + Delink(l[1..], n)
  }

  function GetStep(cfg: Config, s: State, t: Tid, k: Key, now: int): State
    requires t < |s.pcs| && s.pcs[t].Getting?
  {
    if k !in s.entries then
      if s.pcs[t].g.Lookup? then Goto(s, t, Idle).(history := s.history + [MissEvent(k)]) else s
    else
      var e := s.entries[k];
      match s.pcs[t].g
      case Lookup =>
        Goto(s, t, Getting(k, Check)).(entries := s.entries[k := e.(accessor := AcquireShared(e.accessor, t))])
      case Check =>
        if e.node.None? || e.node.value !in s.stamps then s
        else if cfg.timeout != 0 && Expired(cfg, now, s.stamps[e.node.value]) then
          Goto(s, t, Idle).(entries := s.entries[k := e.(accessor := ReleaseShared(e.accessor, t))],
                            history := s.history + [ExpiredEvent(k)])
        else Goto(s, t, Getting(k, Read))
      case Read =>
        if e.value.None? then s else
        Goto(s, t, Idle).(entries := s.entries[k := e.(accessor := ReleaseShared(e.accessor, t))],
                          history := s.history + [HitEvent(k, e.value.value)])
  }

  function SnapStep(s: State, t: Tid, locked: bool): State
    requires t < |s.pcs|
  {
    if locked then Goto(s, t, Idle).(mutex := ReleaseShared(s.mutex, t))
    else Goto(s, t, Snapping(true)).(mutex := AcquireShared(s.mutex, t))
  }

  function EvictStep(cfg: Config, s: State, t: Tid, now: int): State
    requires t < |s.pcs| && s.pcs[t].Evicting?
  {
    match s.pcs[t].e
    case Enter => if s.evicting then Goto(s, t, Idle) else Goto(s, t, Evicting(SizeCheck(0))).(evicting := true)
    case SizeCheck(cnt) =>
      Goto(s, t, if cnt < MAX_EVICT_BATCH && s.size > cfg.maxSize then Removing(Removal(true, cnt), Lock)
                 else Evicting(TimeoutCheck(cnt)))
    case TimeoutCheck(cnt) =>
      Goto(s, t, Evicting(if cnt < MAX_EVICT_BATCH && cfg.timeout != 0 then TimeoutWait(cnt) else Leave))
    case TimeoutWait(cnt) => Goto(s, t, Evicting(Timeout(cnt))).(mutex := AcquireShared(s.mutex, t))
    case Timeout(cnt) =>
      Goto(s, t, if LastExpired(cfg, s, now) then Removing(Removal(false, cnt), Lock) else Evicting(Leave)).(
        mutex := ReleaseShared(s.mutex, t))
    case Leave => Goto(s, t, Idle).(evicting := false)
  }

  predicate LastExpired(cfg: Config, s: State, now: int) {
    s.list != [] && s.list[|s.list| - 1] in s.stamps && Expired(cfg, now, s.stamps[s.list[|s.list| - 1]])
  }

  function RemoveStep(cfg: Config, s: State, t: Tid, r: Removal, now: int): State
    requires t < |s.pcs| && s.pcs[t].Removing?
  {
    match s.pcs[t].m
    case Lock => Goto(s, t, Removing(r, Detach)).(mutex := Acquire(s.mutex, t))
    case Detach =>
      if s.list == [] || (!r.overload && !LastExpired(cfg, s, now)) then
        Goto(s, t, Evicting(AfterRemoval(cfg, r))).(mutex := Release(s.mutex))
      else
        Goto(s, t, Removing(r, Find(s.list[|s.list| - 1]))).(
          list := s.list[..|s.list| - 1], mutex := Release(s.mutex))
    case Find(n) =>
      if n.key !in s.entries then Goto(s, t, Evicting(AfterRemoval(cfg, r)))   // never taken
      else Goto(s, t, Removing(r, Erase(n))).(entries := s.entries[n.key := LockEntry(s.entries[n.key], t)])
    case Erase(n) =>
      Goto(s, t, Removing(r, Delete(n))).(
        entries := s.entries - {n.key}, history := s.history + [EraseEvent(n.key)])
    case Delete(n) => Goto(s, t, Removing(r, Decrement)).(freed := s.freed + {n})
    case Decrement => Goto(s, t, Evicting(AfterRemoval(cfg, r))).(size := s.size - 1)
  }

  /** Where `evict` goes on when `remove_node` returns: next round of the batch loop, or the single second half. */
  function AfterRemoval(cfg: Config, r: Removal): EvictPc {
    if cfg.batch then
      if r.overload then SizeCheck(r.cnt + 1) else TimeoutCheck(r.cnt + 1)
    else
      if r.overload then TimeoutCheck(0) else Leave
  }

  // ----- runs

  /** A schedule: which thread moves, and how its step resolves what is left open. */
  datatype Move = Move(t: Tid, c: Choice)

  ghost predicate IsRun(cfg: Config, states: seq<State>, moves: seq<Move>) {
    && |states| == |moves| + 1
    && forall i :: 0 <= i < |moves| ==> Follows(cfg, states, moves, i)
  }

  ghost predicate Follows(cfg: Config, states: seq<State>, moves: seq<Move>, i: nat)
    requires i < |moves| && |states| == |moves| + 1
  {
    Enabled(states[i], moves[i].t) && states[i + 1] == Exec(cfg, states[i], moves[i].t, moves[i].c)
  }

  ghost predicate Reachable(cfg: Config, s: State) {
    exists states, moves :: IsRun(cfg, states, moves) && Init(states[0]) && states[|moves|] == s
  }
}
