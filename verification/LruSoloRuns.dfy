/** A thread alone in `find`, and whole histories of operations one after the other. */
module LruSoloRuns {
  import opened Domain
  import opened LruProtocol
  import opened LruInvariant
  import opened LruAccounts
  import opened LruHistory
  import opened LruSafety
  import opened LruSolo
  import opened LruSoloEvict
  import LruSequential

  // ----- find

  /** The entry is locked for reading. */
  function Reading(s: State, t: Tid, k: Key, g: GetPc): State
    requires t < |s.pcs| && k in s.entries
  {
    Goto(s, t, Getting(k, g)).(entries := s.entries[k := s.entries[k].(accessor := AcquireShared(Unlocked, t))])
  }

  lemma GetBegins(e: Env, s: State, tick: nat, k: Key)
    requires e.t < |s.pcs| && s.pcs[e.t] == Idle && e.op == Get(k)
    ensures Goes(e, Solo(s, tick), Solo(Goto(s, e.t, Getting(k, Lookup)), tick))
  {
  }

  lemma LocksForReading(e: Env, s: State, tick: nat, k: Key)
    requires e.t < |s.pcs| && k in s.entries && s.entries[k].accessor == Unlocked
    ensures Goes(e, Solo(Goto(s, e.t, Getting(k, Lookup)), tick), Solo(Reading(s, e.t, k, Check), tick))
  {
  }

  lemma Opens(e: Env, x: Solo, k: Key)
    requires e.t < |x.s.pcs| && x.s.pcs[e.t] == Idle && e.op == Get(k) && k in x.s.entries && Full(x.s, k)
    ensures Leads(e, 2, x, Solo(Reading(x.s, e.t, k, Check), x.tick))
  {
    GetBegins(e, x.s, x.tick, k);
    LocksForReading(e, x.s, x.tick, k);
    hide Goes, Leads, Reading;
    TwoSteps(e, x, Solo(Goto(x.s, e.t, Getting(k, Lookup)), x.tick), Solo(Reading(x.s, e.t, k, Check), x.tick));
  }

  /** The state as it was, with what the caller learns on record. */
  function Told(s: State, ev: Event): State { s.(history := s.history + [ev]) }

  lemma Closes(s: State, t: Tid, k: Key, pc: Pc)
    requires t < |s.pcs| && s.pcs[t] == Idle && k in s.entries && s.entries[k].accessor == Unlocked
    ensures s.entries[k := s.entries[k].(accessor := AcquireShared(Unlocked, t))][k := s.entries[k]] == s.entries
    ensures ReleaseShared(AcquireShared(Unlocked, t), t) == Unlocked
    ensures s.entries[k].(accessor := Unlocked) == s.entries[k]
    ensures s.pcs[t := pc][t := Idle] == s.pcs
  {
  }

  lemma Refuses(e: Env, s: State, tick: nat, k: Key)
    requires e.t < |s.pcs| && s.pcs[e.t] == Idle && k in s.entries && Full(s, k)
    requires e.cfg.timeout != 0 && Expired(e.cfg, e.clock(tick), s.stamps[s.entries[k].node.value])
    ensures Goes(e, Solo(Reading(s, e.t, k, Check), tick), Solo(Told(s, ExpiredEvent(k)), tick + 1))
  {
    Closes(s, e.t, k, Getting(k, Check));
  }

  lemma Admits(e: Env, s: State, tick: nat, k: Key)
    requires e.t < |s.pcs| && s.pcs[e.t] == Idle && k in s.entries && Full(s, k)
    requires !(e.cfg.timeout != 0 && Expired(e.cfg, e.clock(tick), s.stamps[s.entries[k].node.value]))
    ensures Goes(e, Solo(Reading(s, e.t, k, Check), tick), Solo(Reading(s, e.t, k, Read), tick + 1))
  {
  }

  lemma Delivers(e: Env, s: State, tick: nat, k: Key)
    requires e.t < |s.pcs| && s.pcs[e.t] == Idle && k in s.entries && Full(s, k)
    ensures Goes(e, Solo(Reading(s, e.t, k, Read), tick), Solo(Told(s, HitEvent(k, s.entries[k].value.value)), tick))
  {
    Closes(s, e.t, k, Getting(k, Read));
  }

  lemma FindsNothing(e: Env, s: State, tick: nat, k: Key)
    requires e.t < |s.pcs| && s.pcs[e.t] == Idle && k !in s.entries
    ensures Goes(e, Solo(Goto(s, e.t, Getting(k, Lookup)), tick), Solo(Told(s, MissEvent(k)), tick))
  {
    assert s.pcs[e.t := Getting(k, Lookup)][e.t := Idle] == s.pcs;
  }

  lemma Misses(e: Env, x: Solo, k: Key)
    requires e.t < |x.s.pcs| && x.s.pcs[e.t] == Idle && e.op == Get(k) && k !in x.s.entries
    ensures Leads(e, 2, x, Solo(Told(x.s, MissEvent(k)), x.tick))
  {
    GetBegins(e, x.s, x.tick, k);
    FindsNothing(e, x.s, x.tick, k);
    hide Goes, Leads, Told;
    TwoSteps(e, x, Solo(Goto(x.s, e.t, Getting(k, Lookup)), x.tick), Solo(Told(x.s, MissEvent(k)), x.tick));
  }

  /** What a caller of `find` learns. */
  function Answer(cfg: Config, items: seq<M.Item>, k: Key, now: int): Event {
    if M.Lookup(items, k).None? then MissEvent(k)
    else match M.Find(cfg, items, k, now) case Some(v) => HitEvent(k, v) case None => ExpiredEvent(k)
  }

  lemma GetLeads(e: Env, x: Solo, k: Key) returns (n: nat)
    requires e.t < |x.s.pcs| && x.s.pcs[e.t] == Idle && e.op == Get(k) && Settled(x.s)
    ensures var items := Items(x.s);
      Leads(e, n, x, Solo(Told(x.s, Answer(e.cfg, items, k, e.clock(x.tick))), x.tick + if M.Lookup(items, k).Some? then 1 else 0))
  {
    var s, now := x.s, e.clock(x.tick);
    ItemsLookup(s, k);
    if k !in s.entries {
      Misses(e, x, k);
      n := 2;
    } else {
      var x1 := Solo(Reading(s, e.t, k, Check), x.tick);
      Opens(e, x, k);
      hide Settled;
      if e.cfg.timeout != 0 && Expired(e.cfg, now, s.stamps[s.entries[k].node.value]) {
        var y := Solo(Told(s, ExpiredEvent(k)), x.tick + 1);
        Refuses(e, s, x.tick, k);
        hide Goes, Leads, Reading, Told;
        OneStep(e, x1, y);
        LeadsOn(e, 2, x, 1, x1, y);
        n := 3;
      } else {
        n := GetHits(e, x, k);
      }
    }
  }

  lemma GetHits(e: Env, x: Solo, k: Key) returns (n: nat)
    requires e.t < |x.s.pcs| && x.s.pcs[e.t] == Idle && e.op == Get(k) && k in x.s.entries && Full(x.s, k)
    requires !(e.cfg.timeout != 0 && Expired(e.cfg, e.clock(x.tick), x.s.stamps[x.s.entries[k].node.value]))
    ensures Leads(e, n, x, Solo(Told(x.s, HitEvent(k, x.s.entries[k].value.value)), x.tick + 1))
  {
    var x1, x2 := Solo(Reading(x.s, e.t, k, Check), x.tick), Solo(Reading(x.s, e.t, k, Read), x.tick + 1);
    var y := Solo(Told(x.s, HitEvent(k, x.s.entries[k].value.value)), x.tick + 1);
    Opens(e, x, k);
    Admits(e, x.s, x.tick, k);
    Delivers(e, x.s, x.tick + 1, k);
    hide Goes, Leads, Reading, Told;
    TwoSteps(e, x1, x2, y);
    LeadsOn(e, 2, x, 2, x1, y);
    n := 4;
  }

  /** A `find` that runs alone answers as the specification says, with one clock reading if the key is there, and
      leaves everything as it was. */
  lemma SoloGet(e: Env, x: Solo, k: Key) returns (y: Solo)
    requires Stands(e, x, Idle) && Settled(x.s) && e.op == Get(k)
    ensures Reaches(e, x, y) && Stands(e, y, Idle) && Settled(y.s)
    ensures y.s == Told(x.s, Answer(e.cfg, Items(x.s), k, e.clock(x.tick)))
    ensures y.tick == x.tick + if M.Lookup(Items(x.s), k).Some? then 1 else 0
  {
    hide Inv, Alone;
    var n := GetLeads(e, x, k);
    y := Solo(Told(x.s, Answer(e.cfg, Items(x.s), k, e.clock(x.tick))),
              x.tick + if M.Lookup(Items(x.s), k).Some? then 1 else 0);
    assert y.s.pcs == x.s.pcs;
    hide Leads, Settled, Reaches, Told, Answer;
    Arrives(e, n, x, Idle, y);
  }

  // ----- whole histories

  /** No operation is in flight; the invariant holds. */
  ghost predicate AtRest(cfg: Config, x: Solo) {
    Inv(cfg, x.s) && (forall u :: 0 <= u < |x.s.pcs| ==> x.s.pcs[u] == Idle) && Settled(x.s)
  }

  lemma RestIsStand(e: Env, x: Solo)
    requires e.t < |x.s.pcs|
    ensures AtRest(e.cfg, x) <==> Stands(e, x, Idle) && Settled(x.s)
  {
    hide Inv, Settled;
  }

  lemma {:induction false} LeadsInRun(e: Env, n: nat, x: Solo, y: Solo)
    requires Reachable(e.cfg, x.s) && Leads(e, n, x, y)
    ensures Reachable(e.cfg, y.s) && |y.s.pcs| == |x.s.pcs|
    decreases n
  {
    hide Reachable, Reads;
    if n > 0 {
      var c := Choice(e.op, e.clock(x.tick));
      DeltaStep(e.cfg, x.s, e.t, c);
      StepInRun(e.cfg, x.s, e.t, c);
      LeadsInRun(e, n - 1, Step(e, x), y);
    }
  }

  lemma StepInRun(cfg: Config, s: State, t: Tid, c: Choice)
    requires Reachable(cfg, s) && Enabled(s, t)
    ensures Reachable(cfg, Exec(cfg, s, t, c))
  {
    var states, moves :| IsRun(cfg, states, moves) && Init(states[0]) && states[|moves|] == s;
    var s' := Exec(cfg, s, t, c);
    hide Enabled, Exec, Init;
    var states', moves' := states + [s'], moves + [Move(t, c)];
    forall i | 0 <= i < |moves'| ensures Follows(cfg, states', moves', i) {
      if i < |moves| {
        assert Follows(cfg, states, moves, i);
      }
    }
    assert IsRun(cfg, states', moves');
  }

  lemma ReachesInRun(e: Env, x: Solo, y: Solo)
    requires Reachable(e.cfg, x.s) && Reaches(e, x, y)
    ensures Reachable(e.cfg, y.s) && |y.s.pcs| == |x.s.pcs|
  {
    var n: nat :| Leads(e, n, x, y);
    LeadsInRun(e, n, x, y);
  }

  /** An insert by thread t, then an `evict` by thread u. */
  lemma SoloInsert(cfg: Config, clock: M.Readings, x: Solo, t: Tid, u: Tid, k: Key, v: Value) returns (y: Solo)
    requires Reachable(cfg, x.s) && AtRest(cfg, x) && t < |x.s.pcs| && u < |x.s.pcs|
    ensures Reachable(cfg, y.s) && AtRest(cfg, y) && |y.s.pcs| == |x.s.pcs|
    ensures View(y) == M.Insert(cfg, clock, View(x), k, v)
  {
    hide AtRest, Reachable, Reaches, Stands, Settled;
    var e, e' := Env(cfg, clock, t, Set(k, v)), Env(cfg, clock, u, Op.Evict);
    RestIsStand(e, x);
    var x1 := SoloSet(e, x, k, v);
    ReachesInRun(e, x, x1);
    RestIsStand(e, x1);
    RestIsStand(e', x1);
    y := SoloEvict(e', x1);
    ReachesInRun(e', x1, y);
    RestIsStand(e', y);
  }

  lemma InitAtRest(cfg: Config, s: State)
    requires Init(s)
    ensures Reachable(cfg, s) && AtRest(cfg, Solo(s, 0)) && Items(s) == []
  {
    var moves: seq<Move> := [];
    assert IsRun(cfg, [s], moves) && [s][0] == s == [s][|moves|];
    InvInit(cfg, s);
    hide Inv;
    assert Settled(s);
  }

  /** Inserts that run one after the other, whichever threads run them and their evictions, take the machine to a state
      at rest with the items that the sequential history gives. */
  lemma {:induction false} HistoryReached(cfg: Config, clock: M.Readings, s: State, who: nat -> (Tid, Tid), ops: seq<(Key, Value)>)
      returns (y: Solo)
    requires Init(s) && forall i :: who(i).0 < |s.pcs| && who(i).1 < |s.pcs|
    ensures Reachable(cfg, y.s) && AtRest(cfg, y) && |y.s.pcs| == |s.pcs|
    ensures View(y) == LruSequential.Runs(cfg, clock, ops)
  {
    hide AtRest, Reachable, Init, Settled;
    if ops == [] {
      InitAtRest(cfg, s);
      y := Solo(s, 0);
    } else {
      var last := |ops| - 1;
      var (k, v) := ops[last];
      var x := HistoryReached(cfg, clock, s, who, ops[..last]);
      y := SoloInsert(cfg, clock, x, who(last).0, who(last).1, k, v);
    }
  }

  // ----- the counter can be one too high

  /** From a cache at rest with more than it may hold: the evictor, between erasing an entry and counting it off. */
  lemma ErasedUncounted(e: Env, x: Solo) returns (y: Solo)
    requires Stands(e, x, Idle) && Settled(x.s) && Reachable(e.cfg, x.s) && e.op == Op.Evict && x.s.size > e.cfg.maxSize
    ensures Reachable(e.cfg, y.s) && y.s.size == |y.s.entries| + 1
  {
    hide Inv, Alone, Settled, Reaches, Reachable;
    SameLast(e.cfg, x.s, 0);
    var x1 := SoloEnter(e, x);
    var x2 := SizeChecked(e, x1, 0);
    ReachesInRun(e, x, x1);
    ReachesInRun(e, x1, x2);
    SameLast(e.cfg, x2.s, 0);
    y := GoneUncounted(e, x2, Removal(true, 0));
  }

  lemma GoneUncounted(e: Env, x: Solo, r: Removal) returns (y: Solo)
    requires Stands(e, x, Removing(r, Lock)) && Settled(x.s) && Reachable(e.cfg, x.s) && r.overload && x.s.list != []
    ensures Reachable(e.cfg, y.s) && y.s.size == |y.s.entries| + 1
  {
    hide Inv, Alone, Reachable;
    var s, n := x.s, x.s.list[|x.s.list| - 1];
    assert Stored(s, n) && Full(s, n.key);
    y := Solo(Gone(s, e.t, r), x.tick);
    SizeAtRest(e, x, Removing(r, Lock));
    SizeAfterErase(s.entries, n.key);
    Locks(e, s, x.tick, r);
    Detaches(e, s, x.tick, r);
    Erases(e, s, x.tick, r);
    var x1, x2 := Solo(Locked(s, e.t, r), x.tick), Solo(Delinked(s, e.t, r), x.tick);
    assert Asked(s, r) == 0;
    hide Leads, Goes, Locked, Delinked, Settled;
    TwoSteps(e, x, x1, x2);
    LeadsOn(e, 2, x, 2, x2, y);
    LeadsInRun(e, 4, x, y);
  }

  /** Where nothing is in flight, the counter is the size of the map. */
  lemma SizeAtRest(e: Env, x: Solo, pc: Pc)
    requires Stands(e, x, pc) && Calm(pc)
    ensures x.s.size == |x.s.entries|
  {
    forall u | 0 <= u < |x.s.pcs| ensures Calm(x.s.pcs[u]) {
    }
    TallyZero(x.s, Uncounted);
    TallyZero(x.s, Erased);
  }

  /** A cache of size 0 in which one thread sets a key and then evicts it: `size()` exceeds the size of the map for a moment. */
  lemma CanCountOneTooMany() returns (s: State)
    ensures Reachable(Config(0, 0, false), s) && s.size == |s.entries| + 1
  {
    var k: Key :| true;
    var v: Value :| true;
    var cfg, s0 := Config(0, 0, false), State(map[], [], map[], 0, {}, 0, false, Unlocked, [Idle], []);
    var e, e' := Env(cfg, _ => 0, 0, Set(k, v)), Env(cfg, _ => 0, 0, Op.Evict);
    InitAtRest(cfg, s0);
    var x := Solo(s0, 0);
    hide Inv, Alone, Reachable, Reaches, Settled, AtRest;
    RestIsStand(e, x);
    var y := SoloSet(e, x, k, v);
    ReachesInRun(e, x, y);
    SameLast(cfg, y.s, 0);
    var z := ErasedUncounted(e', y);
    s := z.s;
  }
}
