/**
 No two threads are ever about to touch the same unprotected memory, one of them writing. This is what makes one step of a
 critical section, or of an access to an entry, and lets runs be sequences of such steps.
 */
module LruRaces {
  import opened Domain
  import opened LruProtocol
  import opened LruInvariant
  import opened LruAccounts
  import opened LruHistory
  import opened LruSafety

  /** Memory that is not atomic by itself: the hash map's own structure, the counter and the flag are. */
  datatype Location =
    | Links            // m_prev and m_next of all nodes and sentinels
    | Stamp(n: Node)   // m_timestamp
    | Cell(k: Key)     // the HashMapValue of k's entry
    | Memory(n: Node)  // the node itself, which deleting gives back

  /** What t's next step writes. The node that Create allocates is its own until it is stored in the entry. */
  ghost predicate Writes(s: State, t: Tid, x: Location)
    requires t < |s.pcs|
  {
    match s.pcs[t]
    case Setting(k, Create(_)) => x == Cell(k)
    case Setting(k, Store(_)) => x == Cell(k)
    case Setting(_, Link(_)) => x == Links
    case Setting(k, Refresh) => x == Links || (x.Stamp? && x.n in Own(s, k))
    case Removing(_, Detach) => x == Links
    case Removing(_, Erase(n)) => x == Cell(n.key)
    case Removing(_, Delete(n)) => x == Memory(n)
    case _ => false
  }

  /** What it reads. Whoever touches a field of a node needs the node to be there. */
  ghost predicate Reads(s: State, t: Tid, x: Location)
    requires t < |s.pcs|
  {
    (x.Memory? && x.n in Touched(s, t)) ||
    match s.pcs[t]
    case Setting(k, Refresh) => x == Cell(k)
    case Getting(k, Check) => x == Cell(k) || (x.Stamp? && x.n in Own(s, k))
    case Getting(k, Read) => x == Cell(k)
    case Snapping(locked) => locked && x == Links
    case Evicting(Timeout(_)) => x == Links || (x.Stamp? && x.n in s.list)
    case Removing(_, Detach) => x == Links || (x.Stamp? && x.n in s.list)
    case _ => false
  }

  ghost predicate Accesses(s: State, t: Tid, x: Location)
    requires t < |s.pcs|
  {
    Writes(s, t, x) || Reads(s, t, x)
  }

  // ----- what protects each

  lemma LinksNeedMutex(s: State, t: Tid)
    requires t < |s.pcs|
    ensures Writes(s, t, Links) ==> HoldsMutex(s.pcs[t])
    ensures Accesses(s, t, Links) ==> HoldsMutex(s.pcs[t]) || SharesMutex(s.pcs[t])
  {
  }

  /** The exclusive holder of the list mutex has it to itself. */
  lemma MutexExcludes(s: State, t: Tid, u: Tid)
    requires MutexInv(s) && t < |s.pcs| && u < |s.pcs| && t != u && HoldsMutex(s.pcs[t])
    ensures !HoldsMutex(s.pcs[u]) && !SharesMutex(s.pcs[u])
  {
  }

  lemma CellsNeedAccessor(s: State, t: Tid, k: Key)
    requires t < |s.pcs|
    ensures Writes(s, t, Cell(k)) ==> WriteKey(s.pcs[t]) == Some(k)
    ensures Accesses(s, t, Cell(k)) ==> WriteKey(s.pcs[t]) == Some(k) || ReadKey(s.pcs[t]) == Some(k)
  {
  }

  /** The writing holder of an accessor has it to itself. */
  lemma AccessorExcludes(s: State, t: Tid, u: Tid, k: Key)
    requires AccessorInv(s) && t < |s.pcs| && u < |s.pcs| && t != u && WriteKey(s.pcs[t]) == Some(k)
    ensures WriteKey(s.pcs[u]) != Some(k) && ReadKey(s.pcs[u]) != Some(k)
  {
    assert HoldsAccessors(s, t) && HoldsAccessors(s, u) && AccessorOk(s, k);
  }

  lemma StampsNeedBoth(s: State, t: Tid, n: Node)
    requires ShapeInv(s) && t < |s.pcs|
    ensures Writes(s, t, Stamp(n)) ==> HoldsMutex(s.pcs[t]) && WriteKey(s.pcs[t]) == Some(n.key)
    ensures Accesses(s, t, Stamp(n)) ==>
      HoldsMutex(s.pcs[t]) || SharesMutex(s.pcs[t]) || ReadKey(s.pcs[t]) == Some(n.key)
  {
    forall k | n in Own(s, k) ensures n.key == k {
      assert EntryOk(s, k);
    }
  }

  /** A node about to be deleted is out of every other thread's reach. */
  lemma DeletedUnreached(s: State, t: Tid, u: Tid, n: Node)
    requires EvictorInv(s) && ShapeInv(s) && LifeInv(s) && t < |s.pcs| && u < |s.pcs| && t != u
    requires Writes(s, t, Memory(n))
    ensures !Accesses(s, u, Memory(n))
  {
    assert LiveThread(s, s.pcs[t]) && !Stored(s, n);
    assert Evictor(s.pcs[t]) && !Evictor(s.pcs[u]);
    assert StageOk(s, s.pcs[u]);
    forall k ensures n !in Own(s, k) {
      if k in s.entries {
        assert EntryOk(s, k);
      }
    }
    assert n !in s.list;
  }

  /** In every reachable state: what one thread is about to write, no other is about to read or write. */
  lemma RaceFree(cfg: Config, s: State, t: Tid, u: Tid, x: Location)
    requires Reachable(cfg, s) && t < |s.pcs| && u < |s.pcs| && t != u && Writes(s, t, x)
    ensures !Reads(s, u, x) && !Writes(s, u, x)
  {
    InvReachable(cfg, s);
    hide Writes, Reads, AccessorInv, MutexInv, EvictorInv, ShapeInv, LifeInv, CountInv, GuardInv, HistoryInv;
    match x {
      case Links =>
        LinksNeedMutex(s, t);
        LinksNeedMutex(s, u);
        MutexExcludes(s, t, u);
      case Cell(k) =>
        CellsNeedAccessor(s, t, k);
        CellsNeedAccessor(s, u, k);
        AccessorExcludes(s, t, u, k);
      case Stamp(n) =>
        StampsNeedBoth(s, t, n);
        StampsNeedBoth(s, u, n);
        MutexExcludes(s, t, u);
        AccessorExcludes(s, t, u, n.key);
      case Memory(n) => DeletedUnreached(s, t, u, n);
    }
  }
}
