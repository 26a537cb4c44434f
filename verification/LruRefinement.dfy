/** Over every run, callers see a plain map: reads return the latest write, and each operation takes effect once. */
module LruRefinement {
  import opened Domain
  import opened LruProtocol
  import opened LruInvariant
  import opened LruAccounts
  import opened LruHistory

  /** The recorded effects are ones a plain map allows, and they add up to what callers see. */
  lemma RefinesPlainMap(cfg: Config, s: State)
    requires Reachable(cfg, s)
    ensures Legal(s.history) && Replay(s.history) == Visible(s)
  {
    InvReachable(cfg, s);
  }

  // ----- reads return the latest write

  predicate Changes(e: Event, k: Key) {
    (e.SetEvent? || e.EraseEvent?) && e.k == k
  }

  /** Event j is the last one before event i that set or erased k. */
  ghost predicate LatestChange(h: seq<Event>, k: Key, j: int, i: int) {
    0 <= j < i <= |h| && Changes(h[j], k) && forall m :: j < m < i ==> !Changes(h[m], k)
  }

  /** Event j is the latest change of k before event i, and it set k to v. */
  ghost predicate LatestSet(h: seq<Event>, k: Key, v: Value, j: int, i: int) {
    LatestChange(h, k, j, i) && h[j] == SetEvent(k, v)
  }

  lemma {:induction false} ReplayIsLatestChange(h: seq<Event>, k: Key, i: nat)
    requires i <= |h|
    ensures k in Replay(h[..i]) ==> exists j :: LatestSet(h, k, Replay(h[..i])[k], j, i)
    ensures k !in Replay(h[..i]) ==> forall j :: LatestChange(h, k, j, i) ==> h[j] == EraseEvent(k)
  {
    if i > 0 {
      ReplayIsLatestChange(h, k, i - 1);
      assert h[..i][..i - 1] == h[..i - 1];
      if Changes(h[i - 1], k) {
        if h[i - 1].SetEvent? { assert LatestSet(h, k, h[i - 1].v, i - 1, i); }
        assert forall j :: LatestChange(h, k, j, i) ==> j == i - 1;
      } else {
        assert forall j :: LatestChange(h, k, j, i - 1) ==> LatestChange(h, k, j, i);
        forall j | LatestChange(h, k, j, i) ensures LatestChange(h, k, j, i - 1) {
        }
        if k in Replay(h[..i]) {
          var j :| LatestSet(h, k, Replay(h[..i - 1])[k], j, i - 1);
          assert LatestSet(h, k, Replay(h[..i])[k], j, i);
        }
      }
    }
  }

  /** A find that hits returns the value of the latest set of its key, and no erase came after that set. */
  lemma HitReturnsLatestSet(cfg: Config, s: State, i: nat)
    requires Reachable(cfg, s) && i < |s.history| && s.history[i].HitEvent?
    ensures exists j :: LatestSet(s.history, s.history[i].k, s.history[i].v, j, i)
  {
    InvReachable(cfg, s);
    assert LegalAt(s.history, i);
    ReplayIsLatestChange(s.history, s.history[i].k, i);
  }

  /** A find misses only a key that was never set, or was erased since its latest set. */
  lemma MissMeansErased(cfg: Config, s: State, i: nat, j: nat)
    requires Reachable(cfg, s) && i < |s.history| && s.history[i].MissEvent?
    requires LatestChange(s.history, s.history[i].k, j, i)
    ensures s.history[j] == EraseEvent(s.history[i].k)
  {
    InvReachable(cfg, s);
    assert LegalAt(s.history, i);
    ReplayIsLatestChange(s.history, s.history[i].k, i);
  }

  // ----- every set and get takes effect exactly once, between its first and last step

  predicate EffectOf(op: Op, e: Event) {
    match op
    case Set(k, v) => e == SetEvent(k, v)
    case Get(k) => (e.HitEvent? || e.MissEvent? || e.ExpiredEvent?) && e.k == k
    case _ => false
  }

  /** The thread is inside op and has not caused its effect yet. */
  predicate Pending(pc: Pc, op: Op) {
    match op
    case Set(k, v) => pc == Setting(k, Insert(v)) || pc == Setting(k, Create(v)) || pc == Setting(k, Store(v))
    case Get(k) => pc.Getting? && pc.k == k
    case _ => false
  }

  /** The thread is inside a set that has caused its effect, or is back from its operation. */
  predicate Effected(pc: Pc) {
    pc.Idle? || (pc.Setting? && !pc.s.Insert? && !pc.s.Create? && !pc.s.Store?)
  }

  /** The step adds op's effect to the history. */
  predicate Adds(s: State, s': State, op: Op) {
    |s'.history| == |s.history| + 1 && s'.history[..|s.history|] == s.history
    && EffectOf(op, s'.history[|s.history|])
  }

  lemma PendingSet(s: State, t: Tid, k: Key, v: Value, now: int)
    requires t < |s.pcs| && Pending(s.pcs[t], Set(k, v))
    requires !s.pcs[t].s.Insert? ==> k in s.entries
    ensures t < |SetStep(s, t, k, now).pcs|
    ensures var s' := SetStep(s, t, k, now);
      if s.pcs[t].s.Insert? then s'.history == s.history && Pending(s'.pcs[t], Set(k, v))
      else Adds(s, s', Set(k, v)) && Effected(s'.pcs[t])
  {
  }

  lemma PendingGet(cfg: Config, s: State, t: Tid, k: Key, now: int)
    requires t < |s.pcs| && Pending(s.pcs[t], Get(k))
    requires !s.pcs[t].g.Lookup? ==> k in s.entries
    requires k in s.entries && !s.pcs[t].g.Lookup? ==> s.entries[k].node.Some? && LiveEntry(s, k)
    ensures t < |GetStep(cfg, s, t, k, now).pcs|
    ensures var s' := GetStep(cfg, s, t, k, now);
      if s'.pcs[t].Idle? then Adds(s, s', Get(k))
      else s'.history == s.history && Pending(s'.pcs[t], Get(k))
  {
  }

  /** An entry without a node is held for writing. */
  lemma FillerWrites(s: State, k: Key)
    requires AccessorInv(s) && ShapeInv(s) && k in s.entries && s.entries[k].node.None?
    ensures s.entries[k].accessor.writer.Some?
  {
    assert EntryOk(s, k);
    var u :| 0 <= u < |s.pcs| && StageOf(s.pcs[u]) == Creating(k);
    assert HoldsAccessors(s, u);
  }

  /** A reader's entry is there and filled: whoever fills an entry holds it for writing. */
  lemma HeldForReading(s: State, t: Tid)
    requires AccessorInv(s) && ShapeInv(s) && t < |s.pcs| && s.pcs[t].Getting? && !s.pcs[t].g.Lookup?
    ensures s.pcs[t].k in s.entries && s.entries[s.pcs[t].k].node.Some?
  {
    var k := s.pcs[t].k;
    assert HoldsAccessors(s, t) && AccessorOk(s, k);
    if s.entries[k].node.None? {
      FillerWrites(s, k);
    }
  }

  /** What the step of an operation that is yet to take effect does. */
  predicate PendingMove(s: State, s': State, t: Tid, op: Op) {
    && t < |s'.pcs|
    && ((s'.history == s.history && Pending(s'.pcs[t], op)) || (Adds(s, s', op) && Effected(s'.pcs[t])))
  }

  lemma PendingSetStep(s: State, t: Tid, op: Op, now: int)
    requires AccessorInv(s) && ShapeInv(s) && t < |s.pcs| && s.pcs[t].Setting? && Pending(s.pcs[t], op)
    ensures PendingMove(s, SetStep(s, t, op.k, now), t, op)
  {
    HeldEntry(s, t);
    PendingSet(s, t, op.k, op.v, now);
    hide SetStep, AccessorInv, ShapeInv;
  }

  lemma PendingGetStep(cfg: Config, s: State, t: Tid, op: Op, now: int)
    requires AccessorInv(s) && ShapeInv(s) && LifeInv(s) && t < |s.pcs| && s.pcs[t].Getting? && Pending(s.pcs[t], op)
    ensures PendingMove(s, GetStep(cfg, s, t, op.k, now), t, op)
  {
    if !s.pcs[t].g.Lookup? {
      HeldForReading(s, t);
      assert LiveEntry(s, op.k);
    }
    PendingGet(cfg, s, t, op.k, now);
  }

  lemma PendingStep(cfg: Config, s: State, t: Tid, c: Choice, op: Op)
    requires Inv(cfg, s) && Enabled(s, t) && Pending(s.pcs[t], op)
    ensures PendingMove(s, Exec(cfg, s, t, c), t, op)
  {
    hide PendingMove, SetStep, GetStep, AccessorInv, MutexInv, EvictorInv, ShapeInv, LifeInv, CountInv, GuardInv, HistoryInv;
    if s.pcs[t].Setting? {
      PendingSetStep(s, t, op, c.now);
    } else {
      PendingGetStep(cfg, s, t, op, c.now);
    }
  }

  lemma EffectedStep(cfg: Config, s: State, t: Tid, c: Choice)
    requires Inv(cfg, s) && Enabled(s, t) && Effected(s.pcs[t]) && !s.pcs[t].Idle?
    ensures var s' := Exec(cfg, s, t, c);
      t < |s'.pcs| && s'.history == s.history && Effected(s'.pcs[t])
  {
    HeldEntry(s, t);
    EffectedSet(s, t, s.pcs[t].k, c.now);
  }

  lemma EffectedSet(s: State, t: Tid, k: Key, now: int)
    requires t < |s.pcs| && s.pcs[t].Setting? && Effected(s.pcs[t]) && s.pcs[t].k == k && k in s.entries
    ensures var s' := SetStep(s, t, k, now);
      t < |s'.pcs| && s'.history == s.history && Effected(s'.pcs[t])
  {
    match s.pcs[t].s {
      case LinkWait(_) =>
      case Link(_) =>
      case Count =>
      case RefreshWait =>
      case Refresh =>
      case Unlock =>
    }
  }

  /** Thread t's steps from i up to j leave the history alone. */
  ghost predicate NoEffect(states: seq<State>, moves: seq<Move>, t: Tid, i: int, j: int)
    requires 0 <= i && j <= |moves| && |states| == |moves| + 1
  {
    forall m :: i <= m < j && moves[m].t == t ==> states[m + 1].history == states[m].history
  }

  /** Thread t's only effect in steps i up to j is that of op, at step m strictly in between. */
  ghost predicate OnlyEffectAt(states: seq<State>, moves: seq<Move>, t: Tid, op: Op, i: int, j: int, m: int)
    requires 0 <= i && j <= |moves| && |states| == |moves| + 1
  {
    && i < m < j && moves[m].t == t && Adds(states[m], states[m + 1], op)
    && NoEffect(states, moves, t, i, m) && NoEffect(states, moves, t, m + 1, j)
  }

  ghost predicate EffectOnce(states: seq<State>, moves: seq<Move>, t: Tid, op: Op, i: int, j: int)
    requires 0 <= i && j <= |moves| && |states| == |moves| + 1
  {
    exists m :: OnlyEffectAt(states, moves, t, op, i, j, m)
  }

  /** The set or get begun at step i, as seen before step j. */
  ghost predicate Progress(states: seq<State>, moves: seq<Move>, i: int, j: int)
    requires 0 <= i < j <= |moves| && |states| == |moves| + 1
  {
    var t, op := moves[i].t, moves[i].c.op;
    && t < |states[j].pcs|
    && ((Pending(states[j].pcs[t], op) && NoEffect(states, moves, t, i, j))
        || (Effected(states[j].pcs[t]) && EffectOnce(states, moves, t, op, i, j)))
  }

  /** At step i a thread begins a set or get, and it is not back before step j. */
  ghost predicate Begun(states: seq<State>, moves: seq<Move>, i: int, j: int)
    requires 0 <= i < j <= |moves| && |states| == |moves| + 1
  {
    var t := moves[i].t;
    && (moves[i].c.op.Set? || moves[i].c.op.Get?)
    && t < |states[i].pcs| && states[i].pcs[t].Idle?
    && (forall m :: i < m < j ==> t < |states[m].pcs| && !states[m].pcs[t].Idle?)
  }

  lemma ProgressByOther(states: seq<State>, moves: seq<Move>, i: nat, j: nat)
    requires i < j < |moves| && |states| == |moves| + 1 && Progress(states, moves, i, j)
    requires moves[j].t != moves[i].t && Moves(states[j], states[j + 1], moves[j].t)
    ensures Progress(states, moves, i, j + 1)
  {
    var t, op := moves[i].t, moves[i].c.op;
    if !Pending(states[j].pcs[t], op) {
      var m :| OnlyEffectAt(states, moves, t, op, i, j, m);
      assert OnlyEffectAt(states, moves, t, op, i, j + 1, m);
    }
  }

  /** What one of the operation's own steps does. */
  ghost predicate OwnStep(s: State, s': State, t: Tid, op: Op)
    requires t < |s.pcs|
  {
    && t < |s'.pcs|
    && (Pending(s.pcs[t], op) ==>
        (s'.history == s.history && Pending(s'.pcs[t], op)) || (Adds(s, s', op) && Effected(s'.pcs[t])))
    && (Effected(s.pcs[t]) ==> s'.history == s.history && Effected(s'.pcs[t]))
  }

  lemma OwnStepIs(cfg: Config, s: State, t: Tid, c: Choice, op: Op)
    requires Inv(cfg, s) && Enabled(s, t) && !s.pcs[t].Idle?
    ensures OwnStep(s, Exec(cfg, s, t, c), t, op)
  {
    DeltaStep(cfg, s, t, c);
    if Pending(s.pcs[t], op) { PendingStep(cfg, s, t, c, op); }
    if Effected(s.pcs[t]) { EffectedStep(cfg, s, t, c); }
  }

  lemma ProgressByOwn(states: seq<State>, moves: seq<Move>, i: nat, j: nat)
    requires i < j < |moves| && |states| == |moves| + 1 && Progress(states, moves, i, j)
    requires moves[j].t == moves[i].t && OwnStep(states[j], states[j + 1], moves[i].t, moves[i].c.op)
    ensures Progress(states, moves, i, j + 1)
  {
    var t, op := moves[i].t, moves[i].c.op;
    if Pending(states[j].pcs[t], op) && NoEffect(states, moves, t, i, j) {
      if states[j + 1].history != states[j].history {
        assert OnlyEffectAt(states, moves, t, op, i, j + 1, j);
      }
    } else {
      var m :| OnlyEffectAt(states, moves, t, op, i, j, m);
      assert OnlyEffectAt(states, moves, t, op, i, j + 1, m);
    }
  }

  lemma ProgressStep(cfg: Config, states: seq<State>, moves: seq<Move>, i: nat, j: nat)
    requires i < j < |moves| && |states| == |moves| + 1 && Progress(states, moves, i, j)
    requires Inv(cfg, states[j]) && Follows(cfg, states, moves, j)
    requires !states[j].pcs[moves[i].t].Idle?
    ensures Progress(states, moves, i, j + 1)
  {
    if moves[j].t == moves[i].t {
      OwnStepIs(cfg, states[j], moves[j].t, moves[j].c, moves[i].c.op);
      ProgressByOwn(states, moves, i, j);
    } else {
      DeltaStep(cfg, states[j], moves[j].t, moves[j].c);
      ProgressByOther(states, moves, i, j);
    }
  }

  lemma ProgressBegins(cfg: Config, states: seq<State>, moves: seq<Move>, i: nat)
    requires i < |moves| && |states| == |moves| + 1 && Begun(states, moves, i, i + 1) && Follows(cfg, states, moves, i)
    ensures Progress(states, moves, i, i + 1)
  {
    assert states[i + 1] == Goto(states[i], moves[i].t, Begin(moves[i].c.op));
  }

  lemma BegunBefore(states: seq<State>, moves: seq<Move>, i: nat, j: nat)
    requires |states| == |moves| + 1 && i + 1 < j <= |moves| && Begun(states, moves, i, j)
    ensures Begun(states, moves, i, j - 1)
    ensures moves[i].t < |states[j - 1].pcs| && !states[j - 1].pcs[moves[i].t].Idle?
  {
  }

  lemma {:induction false} OperationProgress(cfg: Config, states: seq<State>, moves: seq<Move>, i: nat, j: nat)
    requires IsRun(cfg, states, moves) && Init(states[0]) && i < j <= |moves| && Begun(states, moves, i, j)
    ensures Progress(states, moves, i, j)
  {
    hide Init, Begun, Progress, Inv, Follows;
    assert Follows(cfg, states, moves, j - 1);
    if j == i + 1 {
      ProgressBegins(cfg, states, moves, i);
    } else {
      BegunBefore(states, moves, i, j);
      OperationProgress(cfg, states, moves, i, j - 1);
      InvRun(cfg, states, moves, j - 1);
      ProgressStep(cfg, states, moves, i, j - 1);
    }
  }

  /** A set or get that begins at step i and is back before step j has its one effect strictly in between. */
  lemma OperationTakesEffectOnce(cfg: Config, states: seq<State>, moves: seq<Move>, i: nat, j: nat)
    requires IsRun(cfg, states, moves) && Init(states[0]) && i < j <= |moves| && Begun(states, moves, i, j)
    requires moves[i].t < |states[j].pcs| && states[j].pcs[moves[i].t].Idle?
    ensures EffectOnce(states, moves, moves[i].t, moves[i].c.op, i, j)
  {
    OperationProgress(cfg, states, moves, i, j);
  }

  // ----- expiry, under whatever other steps

  /** A reader that holds its entry hands out the value until the timeout after the node's stamp, and never after. */
  lemma ReaderChecksExactly(cfg: Config, s: State, t: Tid, c: Choice, k: Key)
    requires Reachable(cfg, s) && Enabled(s, t) && s.pcs[t] == Getting(k, Check)
    ensures k in s.entries && s.entries[k].node.Some? && s.entries[k].node.value in s.stamps
    ensures var s', stamp := Exec(cfg, s, t, c), s.stamps[s.entries[k].node.value];
      && t < |s'.pcs|
      && (if cfg.timeout == 0 || c.now <= stamp + cfg.timeout then s'.pcs[t] == Getting(k, Read) && s'.history == s.history
          else s'.pcs[t] == Idle && s'.history == s.history + [ExpiredEvent(k)])
  {
    InvReachable(cfg, s);
    HeldForReading(s, t);
    assert LiveEntry(s, k);
  }

  /** The evictor goes on to remove for timeout, and at a second reading removes, only after that time. */
  lemma EvictorChecksExactly(cfg: Config, s: State, t: Tid, c: Choice)
    requires Reachable(cfg, s) && Enabled(s, t) && s.list != []
    ensures s.list[|s.list| - 1] in s.stamps
    ensures var s', late := Exec(cfg, s, t, c), c.now > s.stamps[s.list[|s.list| - 1]] + cfg.timeout;
      && t < |s'.pcs|
      && (s.pcs[t].Evicting? && s.pcs[t].e.Timeout? ==> (s'.pcs[t].Removing? <==> late))
      && (s.pcs[t].Removing? && s.pcs[t].m.Detach? && !s.pcs[t].r.overload ==>
            s'.list == if late then s.list[..|s.list| - 1] else s.list)
  {
    InvReachable(cfg, s);
    var n := s.list[|s.list| - 1];
    assert Stored(s, n) && LiveEntry(s, n.key);
    DeltaStep(cfg, s, t, c);
    hide AccessorInv, MutexInv, EvictorInv, ShapeInv, LifeInv, CountInv, GuardInv, HistoryInv, StepDelta;
    if s.pcs[t].Evicting? {
      TimeoutChecks(cfg, s, t, c.now);
    } else if s.pcs[t].Removing? {
      DetachChecks(cfg, s, t, s.pcs[t].r, c.now);
    }
  }

  lemma TimeoutChecks(cfg: Config, s: State, t: Tid, now: int)
    requires t < |s.pcs| && s.pcs[t].Evicting? && s.list != [] && s.list[|s.list| - 1] in s.stamps
    ensures var s' := EvictStep(cfg, s, t, now);
      t < |s'.pcs| && (s.pcs[t].e.Timeout? ==>
        (s'.pcs[t].Removing? <==> now > s.stamps[s.list[|s.list| - 1]] + cfg.timeout))
  {
  }

  lemma DetachChecks(cfg: Config, s: State, t: Tid, r: Removal, now: int)
    requires t < |s.pcs| && s.pcs[t].Removing? && s.list != [] && s.list[|s.list| - 1] in s.stamps
    ensures s.pcs[t].m.Detach? && !r.overload ==>
      RemoveStep(cfg, s, t, r, now).list == if now > s.stamps[s.list[|s.list| - 1]] + cfg.timeout then s.list[..|s.list| - 1] else s.list
  {
  }
}
