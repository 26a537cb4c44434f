/** No deadlock, and every run that starts no new operation ends with all threads idle. */
module LruProgress {
  import opened Domain
  import opened LruProtocol
  import opened LruInvariant
  import opened LruAccounts
  import opened LruHistory
  import opened LruSafety
  import opened LruRefinement

  // ----- locking discipline

  predicate HoldsAccessor(s: State, t: Tid, k: Key) {
    k in s.entries && (s.entries[k].accessor.writer == Some(t) || t in s.entries[k].accessor.readers)
  }

  /** The thread asks for the accessor of an entry. */
  predicate WantsAccessor(pc: Pc) {
    (pc.Setting? && pc.s.Insert?) || (pc.Getting? && pc.g.Lookup?) || (pc.Removing? && pc.m.Find?)
  }

  /** The thread asks for the list mutex. */
  predicate WantsMutex(pc: Pc) {
    || (pc.Setting? && (pc.s.LinkWait? || pc.s.RefreshWait?))
    || (pc.Snapping? && !pc.locked)
    || (pc.Evicting? && pc.e.TimeoutWait?)
    || (pc.Removing? && pc.m.Lock?)
  }

  lemma HoldsWhatPcSays(s: State, t: Tid, k: Key)
    requires AccessorInv(s) && HoldsAccessor(s, t, k)
    ensures t < |s.pcs| && (WriteKey(s.pcs[t]) == Some(k) || ReadKey(s.pcs[t]) == Some(k))
  {
    assert AccessorOk(s, k);
  }

  /** A thread holds at most one accessor, and none while it asks for one. */
  lemma OneAccessorEach(cfg: Config, s: State, t: Tid, j: Key, k: Key)
    requires Reachable(cfg, s) && HoldsAccessor(s, t, j) && HoldsAccessor(s, t, k)
    ensures j == k && t < |s.pcs| && !WantsAccessor(s.pcs[t])
  {
    InvReachable(cfg, s);
    HoldsWhatPcSays(s, t, j);
    HoldsWhatPcSays(s, t, k);
  }

  /** The list mutex is never held while asking for an accessor, or for the mutex again. */
  lemma MutexHeldOnlyBriefly(cfg: Config, s: State, t: Tid)
    requires Reachable(cfg, s) && (s.mutex.writer == Some(t) || t in s.mutex.readers)
    ensures t < |s.pcs| && !WantsAccessor(s.pcs[t]) && !WantsMutex(s.pcs[t])
  {
    InvReachable(cfg, s);
  }

  /** Whoever asks to read waits only for a writer: a find for a set or an erasure of its key, a snapshot or an expiry test
      for a change of the list. Readers do not wait for readers. */
  lemma ReadersWaitForWriters(cfg: Config, s: State, t: Tid)
    requires Reachable(cfg, s) && t < |s.pcs| && !Enabled(s, t)
    ensures s.pcs[t].Getting? ==> exists u :: 0 <= u < |s.pcs| && WriteKey(s.pcs[u]) == Some(s.pcs[t].k)
    ensures s.pcs[t].Snapping? || s.pcs[t].Evicting? ==> exists u :: 0 <= u < |s.pcs| && HoldsMutex(s.pcs[u])
  {
    InvReachable(cfg, s);
    match s.pcs[t] {
      case Getting(k, _) =>
        assert AccessorOk(s, k) && s.entries[k].accessor.writer.Some?;
        assert WriteKey(s.pcs[s.entries[k].accessor.writer.value]) == Some(k);
      case Snapping(_) => assert HoldsMutex(s.pcs[s.mutex.writer.value]);
      case Evicting(_) => assert HoldsMutex(s.pcs[s.mutex.writer.value]);
      case _ =>
    }
  }

  // ----- some thread can always move

  lemma OnlyRequestsBlock(s: State, t: Tid)
    requires t < |s.pcs| && !WantsAccessor(s.pcs[t]) && !WantsMutex(s.pcs[t])
    ensures Enabled(s, t)
  {
  }

  /** Who stands in the way of a blocked accessor request holds that accessor. */
  lemma AccessorBlocker(s: State, t: Tid, k: Key) returns (u: Tid)
    requires AccessorInv(s) && t < |s.pcs| && k in s.entries && !CanWrite(s.entries[k].accessor)
    ensures u < |s.pcs| && !s.pcs[u].Idle? && !WantsAccessor(s.pcs[u])
  {
    assert AccessorOk(s, k);
    var l := s.entries[k].accessor;
    if l.writer.Some? {
      u := l.writer.value;
    } else {
      u :| u in l.readers;
    }
  }

  lemma MutexBlocker(s: State) returns (u: Tid)
    requires MutexInv(s) && !CanWrite(s.mutex)
    ensures u < |s.pcs| && !s.pcs[u].Idle? && !WantsAccessor(s.pcs[u]) && !WantsMutex(s.pcs[u])
  {
    if s.mutex.writer.Some? {
      u := s.mutex.writer.value;
    } else {
      u :| u in s.mutex.readers;
    }
  }

  lemma BlockedAccessor(s: State, t: Tid)
    requires t < |s.pcs| && WantsAccessor(s.pcs[t]) && !Enabled(s, t)
    ensures exists k :: k in s.entries && !CanWrite(s.entries[k].accessor)
  {
    match s.pcs[t] {
      case Setting(k, _) => assert k in s.entries && !CanWrite(s.entries[k].accessor);
      case Getting(k, _) => assert k in s.entries && !CanWrite(s.entries[k].accessor);
      case Removing(_, Find(n)) => assert n.key in s.entries && !CanWrite(s.entries[n.key].accessor);
    }
  }

  /** If t waits for an accessor, someone who does not is under way. */
  lemma PastAccessor(s: State, t: Tid) returns (u: Tid)
    requires AccessorInv(s) && t < |s.pcs| && !s.pcs[t].Idle?
    ensures u < |s.pcs| && !s.pcs[u].Idle? && (Enabled(s, u) || !WantsAccessor(s.pcs[u]))
  {
    u := t;
    if WantsAccessor(s.pcs[t]) && !Enabled(s, t) {
      BlockedAccessor(s, t);
      var k :| k in s.entries && !CanWrite(s.entries[k].accessor);
      u := AccessorBlocker(s, t, k);
    }
  }

  /** If t waits for the list mutex, someone who waits for nothing is under way. */
  lemma PastMutex(s: State, t: Tid) returns (u: Tid)
    requires MutexInv(s) && t < |s.pcs| && !s.pcs[t].Idle? && (Enabled(s, t) || !WantsAccessor(s.pcs[t]))
    ensures u < |s.pcs| && !s.pcs[u].Idle? && Enabled(s, u)
  {
    u := t;
    if !Enabled(s, t) {
      if WantsMutex(s.pcs[t]) {
        MutexWanted(s, t);
        u := MutexBlocker(s);
      }
      OnlyRequestsBlock(s, u);
    }
  }

  lemma MutexWanted(s: State, t: Tid)
    requires t < |s.pcs| && WantsMutex(s.pcs[t]) && !Enabled(s, t)
    ensures !CanWrite(s.mutex)
  {
  }

  /** In every reachable state with an unfinished operation, some unfinished operation can take a step. */
  lemma DeadlockFree(cfg: Config, s: State)
    requires Reachable(cfg, s) && !Quiescent(s)
    ensures exists t :: 0 <= t < |s.pcs| && !s.pcs[t].Idle? && Enabled(s, t)
  {
    InvReachable(cfg, s);
    hide AccessorInv, MutexInv, Enabled;
    var t :| 0 <= t < |s.pcs| && !s.pcs[t].Idle?;
    t := PastAccessor(s, t);
    t := PastMutex(s, t);
  }

  // ----- every operation ends

  /** More than the steps a thread can still take before it is idle. */
  function Rank(pc: Pc): nat {
    match pc
    case Idle => 0
    case Setting(_, s) => SetRank(s)
    case Getting(_, g) => (match g case Lookup => 3 case Check => 2 case Read => 1)
    case Snapping(locked) => if locked then 1 else 2
    case Evicting(e) => EvictRank(e)
    case Removing(r, m) => RoundRank(r.overload, r.cnt) + RemoveRank(m)
  }

  function SetRank(s: SetPc): nat {
    match s
    case Insert(_) => 6
    case Create(_) => 5
    case LinkWait(_) => 4
    case Link(_) => 3
    case Count => 2
    case Store(_) => 4
    case RefreshWait => 3
    case Refresh => 2
    case Unlock => 1
  }

  /** What the rounds after the present one can still cost; each round costs less than 10. */
  function RoundRank(overload: bool, cnt: nat): nat {
    (if overload then 1000 else 2) + 10 * (if cnt < MAX_EVICT_BATCH then MAX_EVICT_BATCH - cnt else 0)
  }

  function EvictRank(e: EvictPc): nat {
    match e
    case Enter => 2000
    case SizeCheck(cnt) => RoundRank(true, cnt) + 9
    case TimeoutCheck(cnt) => RoundRank(false, cnt) + 9
    case TimeoutWait(cnt) => RoundRank(false, cnt) + 8
    case Timeout(cnt) => RoundRank(false, cnt) + 7
    case Leave => 1
  }

  function RemoveRank(m: RemovePc): nat {
    match m
    case Lock => 6
    case Detach => 5
    case Find(_) => 4
    case Erase(_) => 3
    case Delete(_) => 2
    case Decrement => 1
  }

  function TotalRank(pcs: seq<Pc>): nat {
    if pcs == [] then 0 else Rank(pcs[0]) + TotalRank(pcs[1..])
  }

  lemma {:induction false} TotalRankMoved(pcs: seq<Pc>, t: Tid, pc: Pc)
    requires t < |pcs|
    ensures TotalRank(pcs[t := pc]) == TotalRank(pcs) - Rank(pcs[t]) + Rank(pc)
  {
    if t == 0 {
      assert pcs[t := pc][1..] == pcs[1..];
    } else {
      assert pcs[t := pc][1..] == pcs[1..][t - 1 := pc];
      TotalRankMoved(pcs[1..], t - 1, pc);
    }
  }

  lemma SetRankDrops(s: State, t: Tid, k: Key, now: int)
    requires t < |s.pcs| && s.pcs[t].Setting? && (!s.pcs[t].s.Insert? ==> k in s.entries)
    ensures t < |SetStep(s, t, k, now).pcs| && Rank(SetStep(s, t, k, now).pcs[t]) < Rank(s.pcs[t])
  {
    var pcs' := SetStep(s, t, k, now).pcs;
    match s.pcs[t].s {
      case Insert(v) => assert pcs'[t] == Setting(k, if k in s.entries then Store(v) else Create(v));
      case Create(_) => assert pcs'[t] == Setting(k, LinkWait(Node(s.nextId, k)));
      case Refresh => assert pcs'[t] == Setting(k, Unlock);
      case Unlock => assert pcs'[t] == Idle;
      case _ => assert pcs'[t].Setting?;
    }
  }

  lemma GetRankDrops(cfg: Config, s: State, t: Tid, k: Key, now: int)
    requires t < |s.pcs| && s.pcs[t].Getting?
    requires !s.pcs[t].g.Lookup? ==> k in s.entries && s.entries[k].node.Some? && LiveEntry(s, k)
    ensures t < |GetStep(cfg, s, t, k, now).pcs| && Rank(GetStep(cfg, s, t, k, now).pcs[t]) < Rank(s.pcs[t])
  {
  }

  lemma EvictRankDrops(cfg: Config, s: State, t: Tid, now: int)
    requires t < |s.pcs| && s.pcs[t].Evicting? && GuardOk(cfg, s, s.pcs[t])
    ensures t < |EvictStep(cfg, s, t, now).pcs| && Rank(EvictStep(cfg, s, t, now).pcs[t]) < Rank(s.pcs[t])
  {
  }

  lemma RemoveRankDrops(cfg: Config, s: State, t: Tid, r: Removal, now: int)
    requires t < |s.pcs| && s.pcs[t].Removing? && s.pcs[t].r == r && GuardOk(cfg, s, s.pcs[t])
    ensures t < |RemoveStep(cfg, s, t, r, now).pcs| && Rank(RemoveStep(cfg, s, t, r, now).pcs[t]) < Rank(s.pcs[t])
  {
    var pcs' := RemoveStep(cfg, s, t, r, now).pcs;
    assert Rank(Evicting(AfterRemoval(cfg, r))) < RoundRank(r.overload, r.cnt) + 1;
    match s.pcs[t].m {
      case Lock => assert pcs'[t] == Removing(r, Detach);
      case Detach => assert pcs'[t].Removing? ==> pcs'[t].r == r && pcs'[t].m.Find?;
      case Find(n) => assert pcs'[t].Removing? ==> pcs'[t] == Removing(r, Erase(n));
      case Erase(n) => assert pcs'[t] == Removing(r, Delete(n));
      case Delete(_) => assert pcs'[t] == Removing(r, Decrement);
      case Decrement => assert pcs'[t] == Evicting(AfterRemoval(cfg, r));
    }
  }

  /** Every step of an unfinished operation brings its thread closer to idle; none stands still. */
  lemma OwnRankDrops(cfg: Config, s: State, t: Tid, c: Choice)
    requires Inv(cfg, s) && Enabled(s, t) && !s.pcs[t].Idle?
    ensures t < |Exec(cfg, s, t, c).pcs| && Rank(Exec(cfg, s, t, c).pcs[t]) < Rank(s.pcs[t])
  {
    assert GuardOk(cfg, s, s.pcs[t]);
    match s.pcs[t] {
      case Setting(k, _) => HeldEntry(s, t); SetRankDrops(s, t, k, c.now);
      case Getting(k, g) =>
        if !g.Lookup? { HeldForReading(s, t); assert LiveEntry(s, k); }
        GetRankDrops(cfg, s, t, k, c.now);
      case Evicting(_) => EvictRankDrops(cfg, s, t, c.now);
      case Removing(r, _) => RemoveRankDrops(cfg, s, t, r, c.now);
      case Snapping(_) =>
    }
  }

  lemma RankDrops(cfg: Config, s: State, t: Tid, c: Choice)
    requires Inv(cfg, s) && Enabled(s, t) && !s.pcs[t].Idle?
    ensures TotalRank(Exec(cfg, s, t, c).pcs) < TotalRank(s.pcs)
  {
    var s' := Exec(cfg, s, t, c);
    hide Inv, Rank;
    DeltaStep(cfg, s, t, c);
    OwnRankDrops(cfg, s, t, c);
    TotalRankMoved(s.pcs, t, s'.pcs[t]);
  }

  // ----- each operation by itself, whatever the others do

  /** How many of the steps from i up to j are t's. */
  function OwnSteps(moves: seq<Move>, t: Tid, i: nat, j: nat): nat
    requires i <= j <= |moves|
    decreases j
  {
    if i == j then 0 else OwnSteps(moves, t, i, j - 1) + if moves[j - 1].t == t then 1 else 0
  }

  /** From step i up to step j thread t is never idle. */
  ghost predicate InFlight(states: seq<State>, t: Tid, i: nat, j: nat)
    requires i <= j < |states|
  {
    forall m :: i <= m < j ==> t < |states[m].pcs| && !states[m].pcs[t].Idle?
  }

  lemma OwnRankAfter(cfg: Config, s: State, t: Tid, u: Tid, c: Choice)
    requires Inv(cfg, s) && Enabled(s, u) && t < |s.pcs| && !s.pcs[t].Idle?
    ensures t < |Exec(cfg, s, u, c).pcs|
    ensures Rank(Exec(cfg, s, u, c).pcs[t]) + (if u == t then 1 else 0) <= Rank(s.pcs[t])
  {
    hide Inv, Rank;
    DeltaStep(cfg, s, u, c);
    if u == t {
      OwnRankDrops(cfg, s, t, c);
    }
  }

  lemma OwnStepLowersRank(cfg: Config, states: seq<State>, moves: seq<Move>, t: Tid, j: nat)
    requires IsRun(cfg, states, moves) && Init(states[0]) && j < |moves|
    requires t < |states[j].pcs| && !states[j].pcs[t].Idle?
    ensures t < |states[j + 1].pcs|
    ensures Rank(states[j + 1].pcs[t]) + (if moves[j].t == t then 1 else 0) <= Rank(states[j].pcs[t])
  {
    hide Inv, Init, Rank, Enabled;
    InvRun(cfg, states, moves, j);
    assert Follows(cfg, states, moves, j);
    OwnRankAfter(cfg, states[j], t, moves[j].t, moves[j].c);
  }

  /** While an operation is in flight each of its own steps brings it closer to its end, whatever other threads do or begin. */
  lemma {:induction false} OwnStepsLowerRank(cfg: Config, states: seq<State>, moves: seq<Move>, t: Tid, i: nat, j: nat)
    requires IsRun(cfg, states, moves) && Init(states[0]) && i <= j < |states| && InFlight(states, t, i, j)
    requires t < |states[i].pcs|
    ensures t < |states[j].pcs| && OwnSteps(moves, t, i, j) + Rank(states[j].pcs[t]) <= Rank(states[i].pcs[t])
    decreases j
  {
    hide IsRun, Init, Rank;
    if i < j {
      assert |states| == |moves| + 1 by { RunShape(cfg, states, moves); }
      OwnStepsLowerRank(cfg, states, moves, t, i, j - 1);
      OwnStepLowersRank(cfg, states, moves, t, j - 1);
    }
  }

  lemma RunShape(cfg: Config, states: seq<State>, moves: seq<Move>)
    requires IsRun(cfg, states, moves)
    ensures |states| == |moves| + 1
  {
  }

  /** The steps that an operation takes at most. */
  function StepBound(op: Op): nat {
    match op
    case Set(_, _) => 6
    case Get(_) => 3
    case Snapshot => 2
    case Evict => 2000
  }

  /** No operation takes more steps of its own than that, in any run, with any other operations under way or beginning. */
  lemma OwnStepsBounded(cfg: Config, states: seq<State>, moves: seq<Move>, i: nat, j: nat)
    requires IsRun(cfg, states, moves) && Init(states[0]) && i < j < |states|
    requires moves[i].t < |states[i].pcs| && states[i].pcs[moves[i].t].Idle? && InFlight(states, moves[i].t, i + 1, j)
    ensures OwnSteps(moves, moves[i].t, i + 1, j) <= StepBound(moves[i].c.op)
  {
    var t := moves[i].t;
    assert Follows(cfg, states, moves, i);
    assert states[i + 1] == Goto(states[i], t, Begin(moves[i].c.op));
    OwnStepsLowerRank(cfg, states, moves, t, i + 1, j);
  }

  // ----- all operations together

  /** From step i on, no idle thread begins an operation. */
  ghost predicate NothingBegins(states: seq<State>, moves: seq<Move>, i: int)
    requires 0 <= i && |states| == |moves| + 1
  {
    forall m :: i <= m < |moves| ==> moves[m].t < |states[m].pcs| && !states[m].pcs[moves[m].t].Idle?
  }

  lemma MoveShortens(cfg: Config, states: seq<State>, moves: seq<Move>, j: nat)
    requires IsRun(cfg, states, moves) && Init(states[0]) && j < |moves|
    requires moves[j].t < |states[j].pcs| && !states[j].pcs[moves[j].t].Idle?
    ensures TotalRank(states[j + 1].pcs) < TotalRank(states[j].pcs)
  {
    InvRun(cfg, states, moves, j);
    assert Follows(cfg, states, moves, j);
    RankDrops(cfg, states[j], moves[j].t, moves[j].c);
  }

  lemma {:induction false} RunShortens(cfg: Config, states: seq<State>, moves: seq<Move>, i: nat, j: nat)
    requires IsRun(cfg, states, moves) && Init(states[0]) && i <= j < |states| && NothingBegins(states, moves, i)
    ensures TotalRank(states[j].pcs) + (j - i) <= TotalRank(states[i].pcs)
  {
    if i < j {
      RunShortens(cfg, states, moves, i, j - 1);
      MoveShortens(cfg, states, moves, j - 1);
    }
  }

  /** Once nothing new begins, a run is no longer than the rank it starts from, and when nobody can move any
      more, every operation has finished. */
  lemma EveryOperationFinishes(cfg: Config, states: seq<State>, moves: seq<Move>, i: nat)
    requires IsRun(cfg, states, moves) && Init(states[0]) && i < |states| && NothingBegins(states, moves, i)
    ensures |moves| - i <= TotalRank(states[i].pcs)
    ensures var last := states[|moves|];
      (forall t :: 0 <= t < |last.pcs| && Enabled(last, t) ==> last.pcs[t].Idle?) ==> Quiescent(last)
  {
    RunShortens(cfg, states, moves, i, |moves|);
    var last := states[|moves|];
    PrefixIsReachable(cfg, states, moves, |moves|);
    if !Quiescent(last) {
      DeadlockFree(cfg, last);
    }
  }
}
