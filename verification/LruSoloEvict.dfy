/** A thread alone in `remove_node` and `evict`: step machine and specification drop the same items. */
module LruSoloEvict {
  import opened Domain
  import opened LruProtocol
  import opened LruInvariant
  import opened LruHistory
  import opened LruSolo

  // ----- remove_node

  /** The last node is out of the list, its entry still there. */
  function Delinked(s: State, t: Tid, r: Removal): State
    requires t < |s.pcs| && s.list != []
  {
    Goto(s, t, Removing(r, RemovePc.Find(s.list[|s.list| - 1]))).(list := s.list[..|s.list| - 1])
  }

  /** Its entry is gone, too. */
  function Gone(s: State, t: Tid, r: Removal): State
    requires t < |s.pcs| && s.list != []
  {
    var n := s.list[|s.list| - 1];
    Goto(s, t, Removing(r, Delete(n))).(
      list := s.list[..|s.list| - 1], entries := s.entries - {n.key}, history := s.history + [EraseEvent(n.key)])
  }

  function Removed(cfg: Config, s: State, t: Tid, r: Removal): State
    requires t < |s.pcs| && s.list != []
  {
    var n := s.list[|s.list| - 1];
    Goto(s, t, Evicting(AfterRemoval(cfg, r))).(
      list := s.list[..|s.list| - 1], entries := s.entries - {n.key}, history := s.history + [EraseEvent(n.key)],
      freed := s.freed + {n}, size := s.size - 1)
  }

  function Locked(s: State, t: Tid, r: Removal): State
    requires t < |s.pcs|
  {
    Goto(s, t, Removing(r, Detach)).(mutex := Acquire(Unlocked, t))
  }

  lemma TwoSteps(e: Env, x: Solo, x1: Solo, x2: Solo)
    requires Goes(e, x, x1) && Goes(e, x1, x2)
    ensures Leads(e, 2, x, x2)
  {
    hide Enabled, Step;
    assert Leads(e, 0, x2, x2);
    assert Leads(e, 1, x1, x2);
  }

  lemma Locks(e: Env, s: State, tick: nat, r: Removal)
    requires e.t < |s.pcs| && s.pcs[e.t] == Removing(r, Lock) && s.mutex == Unlocked
    ensures Goes(e, Solo(s, tick), Solo(Locked(s, e.t, r), tick))
  {
  }

  /** Is there a last node for the removal to take? */
  predicate Takeable(e: Env, s: State, tick: nat, r: Removal) {
    s.list != [] && (r.overload || LastExpired(e.cfg, s, e.clock(tick)))
  }

  function Asked(s: State, r: Removal): nat { if s.list == [] || r.overload then 0 else 1 }

  lemma Detaches(e: Env, s: State, tick: nat, r: Removal)
    requires e.t < |s.pcs| && s.mutex == Unlocked && Takeable(e, s, tick, r)
    ensures Goes(e, Solo(Locked(s, e.t, r), tick), Solo(Delinked(s, e.t, r), tick + Asked(s, r)))
  {
  }

  lemma GivesUp(e: Env, s: State, tick: nat, r: Removal)
    requires e.t < |s.pcs| && s.mutex == Unlocked && !Takeable(e, s, tick, r)
    ensures Goes(e, Solo(Locked(s, e.t, r), tick),
                 Solo(Goto(s, e.t, Evicting(AfterRemoval(e.cfg, r))), tick + Asked(s, r)))
  {
  }

  lemma Erases(e: Env, s: State, tick: nat, r: Removal)
    requires e.t < |s.pcs| && s.list != []
    requires var k := s.list[|s.list| - 1].key; k in s.entries && s.entries[k].accessor == Unlocked
    ensures Leads(e, 2, Solo(Delinked(s, e.t, r), tick), Solo(Gone(s, e.t, r), tick))
  {
    var n := s.list[|s.list| - 1];
    var s1 := Goto(s, e.t, Removing(r, Erase(n))).(
      list := s.list[..|s.list| - 1], entries := s.entries[n.key := LockEntry(s.entries[n.key], e.t)]);
    assert s1.entries - {n.key} == s.entries - {n.key};
    assert Goes(e, Solo(Delinked(s, e.t, r), tick), Solo(s1, tick));
    assert Goes(e, Solo(s1, tick), Solo(Gone(s, e.t, r), tick));
    TwoSteps(e, Solo(Delinked(s, e.t, r), tick), Solo(s1, tick), Solo(Gone(s, e.t, r), tick));
  }

  lemma Deletes(e: Env, s: State, tick: nat, r: Removal)
    requires e.t < |s.pcs| && s.list != []
    ensures Leads(e, 2, Solo(Gone(s, e.t, r), tick), Solo(Removed(e.cfg, s, e.t, r), tick))
  {
    var n := s.list[|s.list| - 1];
    var s1 := Goto(Gone(s, e.t, r), e.t, Removing(r, Decrement)).(freed := s.freed + {n});
    assert Goes(e, Solo(Gone(s, e.t, r), tick), Solo(s1, tick));
    assert Goes(e, Solo(s1, tick), Solo(Removed(e.cfg, s, e.t, r), tick));
    TwoSteps(e, Solo(Gone(s, e.t, r), tick), Solo(s1, tick), Solo(Removed(e.cfg, s, e.t, r), tick));
  }

  lemma RemovedItems(cfg: Config, s: State, t: Tid, r: Removal)
    requires Settled(s) && t < |s.pcs| && s.list != [] && Settled(Removed(cfg, s, t, r))
    ensures Items(Removed(cfg, s, t, r)) == M.DropLast(Items(s))
  {
    var s', rest := Removed(cfg, s, t, r), s.list[..|s.list| - 1];
    assert s.list == rest + [s.list[|s.list| - 1]];
    hide Settled;
    forall n | n in rest ensures n.key in s.entries && n.key in s'.entries && n in s.stamps {
      ListedFull(s, n);
      ListedFull(s', n);
    }
    ItemsKept(s, s', rest);
    ItemsJoin(s, rest, [s.list[|s.list| - 1]]);
  }

  lemma RemovalLeads(e: Env, s: State, tick: nat, r: Removal)
    requires Settled(s) && e.t < |s.pcs| && s.pcs[e.t] == Removing(r, Lock) && Takeable(e, s, tick, r)
    ensures Leads(e, 6, Solo(s, tick), Solo(Removed(e.cfg, s, e.t, r), tick + Asked(s, r)))
  {
    var x, x1, x2 := Solo(s, tick), Solo(Locked(s, e.t, r), tick), Solo(Delinked(s, e.t, r), tick + Asked(s, r));
    var x4, x6 := Solo(Gone(s, e.t, r), x2.tick), Solo(Removed(e.cfg, s, e.t, r), x2.tick);
    Locks(e, s, tick, r);
    Detaches(e, s, tick, r);
    assert Stored(s, s.list[|s.list| - 1]) && Full(s, s.list[|s.list| - 1].key);
    hide Locked, Delinked, Gone, Removed, Asked, Goes, Leads, Settled;
    Erases(e, s, x2.tick, r);
    Deletes(e, s, x2.tick, r);
    TwoSteps(e, x, x1, x2);
    LeadsOn(e, 2, x, 2, x2, x4);
    LeadsOn(e, 4, x, 2, x4, x6);
  }

  /** The machine and the items agree on whether the last node is expired. */
  lemma SameLast(cfg: Config, s: State, now: int)
    requires Settled(s)
    ensures LastExpired(cfg, s, now) <==> M.LastExpired(cfg, Items(s), now)
    ensures s.list == [] <==> Items(s) == []
    ensures |Items(s)| == |s.list| == s.size
  {
    if s.list != [] {
      var n := s.list[|s.list| - 1];
      assert Stored(s, n) && Full(s, n.key);
      assert Items(s)[|s.list| - 1] == ItemOf(s, n);
    }
  }

  lemma RemoveTaken(e: Env, x: Solo, r: Removal) returns (y: Solo)
    requires Stands(e, x, Removing(r, Lock)) && Settled(x.s) && Takeable(e, x.s, x.tick, r)
    ensures Reaches(e, x, y) && Stands(e, y, Evicting(AfterRemoval(e.cfg, r))) && Settled(y.s)
    ensures View(y) == M.Run(M.DropLast(Items(x.s)), x.tick + Asked(x.s, r))
  {
    hide Inv, Alone;
    y := Solo(Removed(e.cfg, x.s, e.t, r), x.tick + Asked(x.s, r));
    assert y.s.pcs[e.t] == Evicting(AfterRemoval(e.cfg, r));
    assert !AfterRemoval(e.cfg, r).Timeout?;
    RemovalLeads(e, x.s, x.tick, r);
    hide Leads, Removed, Settled, Reaches, AfterRemoval;
    Arrives(e, 6, x, Removing(r, Lock), y);
    RemovedItems(e.cfg, x.s, e.t, r);
  }

  /** Thread t stands at pc now, and the evict flag is as given; all else is as it was. */
  function Turned(s: State, t: Tid, pc: Pc, evicting: bool): State
    requires t < |s.pcs|
  {
    Goto(s, t, pc).(evicting := evicting)
  }

  lemma SameItems(s: State, t: Tid, pc: Pc, evicting: bool)
    requires Settled(s) && t < |s.pcs| && Settled(Turned(s, t, pc, evicting))
    ensures Items(Turned(s, t, pc, evicting)) == Items(s)
  {
    forall n | n in s.list ensures n.key in s.entries && n in s.stamps {
      ListedFull(s, n);
    }
    ItemsKept(s, Turned(s, t, pc, evicting), s.list);
  }

  /** n steps that lead from one calm pc to another, and do nothing else but read the clock. */
  lemma Turns(e: Env, n: nat, x: Solo, pc: Pc, evicting: bool, tick: nat) returns (y: Solo)
    requires e.t < |x.s.pcs| && Stands(e, x, x.s.pcs[e.t]) && Settled(x.s) && Calm(pc)
    requires Leads(e, n, x, Solo(Turned(x.s, e.t, pc, evicting), tick))
    ensures Reaches(e, x, y) && Stands(e, y, pc) && Settled(y.s) && View(y) == M.Run(Items(x.s), tick)
  {
    hide Inv, Alone, Leads, Settled, Reaches, Calm;
    y := Solo(Turned(x.s, e.t, pc, evicting), tick);
    assert y.s.pcs[e.t] == pc;
    Arrives(e, n, x, x.s.pcs[e.t], y);
    SameItems(x.s, e.t, pc, evicting);
  }

  lemma RemoveRefused(e: Env, x: Solo, r: Removal) returns (y: Solo)
    requires Stands(e, x, Removing(r, Lock)) && Settled(x.s) && !Takeable(e, x.s, x.tick, r)
    ensures Reaches(e, x, y) && Stands(e, y, Evicting(AfterRemoval(e.cfg, r))) && Settled(y.s)
    ensures View(y) == M.Run(Items(x.s), x.tick + Asked(x.s, r))
  {
    hide Inv, Alone;
    var pc := Evicting(AfterRemoval(e.cfg, r));
    assert Calm(pc);
    Locks(e, x.s, x.tick, r);
    GivesUp(e, x.s, x.tick, r);
    assert Turned(x.s, e.t, pc, x.s.evicting) == Goto(x.s, e.t, pc);
    hide Leads, Locked, Goes, Settled, Reaches, AfterRemoval, Takeable, Asked;
    TwoSteps(e, x, Solo(Locked(x.s, e.t, r), x.tick), Solo(Goto(x.s, e.t, pc), x.tick + Asked(x.s, r)));
    y := Turns(e, 2, x, pc, x.s.evicting, x.tick + Asked(x.s, r));
  }

  /** A `remove_node` that runs alone does to the items what the specification says. */
  lemma SoloRemove(e: Env, x: Solo, r: Removal) returns (y: Solo)
    requires Stands(e, x, Removing(r, Lock)) && Settled(x.s)
    ensures Reaches(e, x, y) && Stands(e, y, Evicting(AfterRemoval(e.cfg, r))) && Settled(y.s)
    ensures View(y) == M.RemoveNode(e.cfg, e.clock, View(x), !r.overload)
  {
    hide Inv, Alone, Reaches;
    SameLast(e.cfg, x.s, e.clock(x.tick));
    hide Settled, AfterRemoval;
    if Takeable(e, x.s, x.tick, r) {
      y := RemoveTaken(e, x, r);
    } else {
      y := RemoveRefused(e, x, r);
    }
  }

  // ----- evict

  lemma OneStep(e: Env, x: Solo, x1: Solo)
    requires Goes(e, x, x1)
    ensures Leads(e, 1, x, x1)
  {
    hide Enabled, Step;
    assert Leads(e, 0, x1, x1);
  }

  /** The overload test. */
  lemma SizeChecked(e: Env, x: Solo, cnt: nat) returns (y: Solo)
    requires Stands(e, x, Evicting(SizeCheck(cnt))) && Settled(x.s)
    ensures Reaches(e, x, y) && Settled(y.s) && View(y) == View(x)
    ensures Stands(e, y, if cnt < MAX_EVICT_BATCH && |Items(x.s)| > e.cfg.maxSize then Removing(Removal(true, cnt), Lock)
                         else Evicting(TimeoutCheck(cnt)))
  {
    hide Inv, Alone, Reaches;
    SameLast(e.cfg, x.s, 0);
    hide Settled;
    var pc := if cnt < MAX_EVICT_BATCH && x.s.size > e.cfg.maxSize then Removing(Removal(true, cnt), Lock)
              else Evicting(TimeoutCheck(cnt));
    assert Goes(e, x, Solo(Turned(x.s, e.t, pc, x.s.evicting), x.tick));
    OneStep(e, x, Solo(Turned(x.s, e.t, pc, x.s.evicting), x.tick));
    y := Turns(e, 1, x, pc, x.s.evicting, x.tick);
  }

  /** The first loop of a batch pass. */
  lemma {:induction false} SoloOverload(e: Env, x: Solo, cnt: nat) returns (y: Solo, cnt': nat)
    requires Stands(e, x, Evicting(SizeCheck(cnt))) && Settled(x.s) && e.cfg.batch
    ensures Reaches(e, x, y) && Stands(e, y, Evicting(TimeoutCheck(cnt'))) && Settled(y.s)
    ensures (View(y), cnt') == M.OverloadLoop(e.cfg, e.clock, View(x), cnt)
    decreases |x.s.list|
  {
    hide Inv, Alone, Reaches;
    SameLast(e.cfg, x.s, 0);
    var x1 := SizeChecked(e, x, cnt);
    if cnt < MAX_EVICT_BATCH && |Items(x.s)| > e.cfg.maxSize {
      var x2 := SoloRemove(e, x1, Removal(true, cnt));
      SameLast(e.cfg, x2.s, 0);
      hide Settled, Stands;
      y, cnt' := SoloOverload(e, x2, cnt + 1);
      ReachesOn(e, x, x1, x2);
      ReachesOn(e, x, x2, y);
    } else {
      y, cnt' := x1, cnt;
    }
  }

  /** Where the timeout test leads. */
  function Tested(cfg: Config, clock: M.Readings, r: M.Run, cnt: nat): Pc {
    if cnt < MAX_EVICT_BATCH && M.TestLast(cfg, clock, r).0 then Removing(Removal(false, cnt), Lock) else Evicting(Leave)
  }

  lemma SkipsTest(e: Env, x: Solo, cnt: nat) returns (y: Solo)
    requires Stands(e, x, Evicting(TimeoutCheck(cnt))) && Settled(x.s)
    requires cnt >= MAX_EVICT_BATCH || e.cfg.timeout == 0
    ensures Reaches(e, x, y) && Stands(e, y, Evicting(Leave)) && Settled(y.s) && View(y) == View(x)
  {
    hide Inv, Alone, Reaches, Settled;
    assert Goes(e, x, Solo(Turned(x.s, e.t, Evicting(Leave), x.s.evicting), x.tick));
    OneStep(e, x, Solo(Turned(x.s, e.t, Evicting(Leave), x.s.evicting), x.tick));
    y := Turns(e, 1, x, Evicting(Leave), x.s.evicting, x.tick);
  }

  /** The thread holds the list mutex, shared, to look at the last node. */
  function Looking(s: State, t: Tid, cnt: nat): State
    requires t < |s.pcs|
  {
    Goto(s, t, Evicting(Timeout(cnt))).(mutex := AcquireShared(Unlocked, t))
  }

  lemma Waits(e: Env, s: State, tick: nat, cnt: nat)
    requires e.t < |s.pcs| && s.pcs[e.t] == Evicting(TimeoutCheck(cnt)) && cnt < MAX_EVICT_BATCH && e.cfg.timeout != 0
    ensures Goes(e, Solo(s, tick), Solo(Goto(s, e.t, Evicting(TimeoutWait(cnt))), tick))
  {
  }

  lemma Shares(e: Env, s: State, tick: nat, cnt: nat)
    requires e.t < |s.pcs| && s.mutex == Unlocked
    ensures Goes(e, Solo(Goto(s, e.t, Evicting(TimeoutWait(cnt))), tick), Solo(Looking(s, e.t, cnt), tick))
  {
  }

  lemma Looks(e: Env, s: State, tick: nat, cnt: nat)
    requires e.t < |s.pcs| && s.mutex == Unlocked
    ensures Goes(e, Solo(Looking(s, e.t, cnt), tick),
      Solo(Turned(s, e.t, if LastExpired(e.cfg, s, e.clock(tick)) then Removing(Removal(false, cnt), Lock) else Evicting(Leave),
                  s.evicting),
           tick + if s.list == [] then 0 else 1))
  {
    assert ReleaseShared(AcquireShared(Unlocked, e.t), e.t) == Unlocked;
  }

  lemma TakesTest(e: Env, x: Solo, cnt: nat) returns (y: Solo)
    requires Stands(e, x, Evicting(TimeoutCheck(cnt))) && Settled(x.s)
    requires cnt < MAX_EVICT_BATCH && e.cfg.timeout != 0
    ensures Reaches(e, x, y) && Stands(e, y, Tested(e.cfg, e.clock, View(x), cnt)) && Settled(y.s)
    ensures View(y) == M.TestLast(e.cfg, e.clock, View(x)).1
  {
    hide Inv, Alone, Reaches;
    var now, s := e.clock(x.tick), x.s;
    var pc := if LastExpired(e.cfg, s, now) then Removing(Removal(false, cnt), Lock) else Evicting(Leave);
    var tick := x.tick + if s.list == [] then 0 else 1;
    SameLast(e.cfg, s, now);
    Waits(e, s, x.tick, cnt);
    Shares(e, s, x.tick, cnt);
    Looks(e, s, x.tick, cnt);
    hide Settled, Goes, Turned, Looking;
    ThreeSteps(e, x, Solo(Goto(s, e.t, Evicting(TimeoutWait(cnt))), x.tick), Solo(Looking(s, e.t, cnt), x.tick),
               Solo(Turned(s, e.t, pc, s.evicting), tick));
    y := Turns(e, 3, x, pc, s.evicting, tick);
  }

  /** The timeout test, or the end of the rounds. */
  lemma SoloTest(e: Env, x: Solo, cnt: nat) returns (y: Solo)
    requires Stands(e, x, Evicting(TimeoutCheck(cnt))) && Settled(x.s)
    ensures Reaches(e, x, y) && Stands(e, y, Tested(e.cfg, e.clock, View(x), cnt)) && Settled(y.s)
    ensures View(y) == if cnt < MAX_EVICT_BATCH then M.TestLast(e.cfg, e.clock, View(x)).1 else View(x)
  {
    hide Stands, Reaches, Settled;
    if cnt >= MAX_EVICT_BATCH || e.cfg.timeout == 0 {
      y := SkipsTest(e, x, cnt);
    } else {
      y := TakesTest(e, x, cnt);
    }
  }

  /** The second loop of a batch pass. */
  lemma {:induction false} SoloTimeout(e: Env, x: Solo, cnt: nat) returns (y: Solo)
    requires Stands(e, x, Evicting(TimeoutCheck(cnt))) && Settled(x.s) && e.cfg.batch
    ensures Reaches(e, x, y) && Stands(e, y, Evicting(Leave)) && Settled(y.s)
    ensures View(y) == M.TimeoutLoop(e.cfg, e.clock, View(x), cnt)
    decreases if cnt < MAX_EVICT_BATCH then MAX_EVICT_BATCH - cnt else 0
  {
    hide Stands, Reaches, Settled;
    y := SoloTest(e, x, cnt);
    if cnt < MAX_EVICT_BATCH && M.TestLast(e.cfg, e.clock, View(x)).0 {
      var x1 := y;
      var x2 := SoloRemove(e, x1, Removal(false, cnt));
      y := SoloTimeout(e, x2, cnt + 1);
      ReachesOn(e, x, x1, x2);
      ReachesOn(e, x, x2, y);
    }
  }

  lemma SoloBatch(e: Env, x: Solo) returns (y: Solo)
    requires Stands(e, x, Evicting(SizeCheck(0))) && Settled(x.s) && e.cfg.batch
    ensures Reaches(e, x, y) && Stands(e, y, Evicting(Leave)) && Settled(y.s)
    ensures View(y) == M.Evict(e.cfg, e.clock, View(x))
  {
    hide Stands, Reaches, Settled;
    var x1, cnt := SoloOverload(e, x, 0);
    y := SoloTimeout(e, x1, cnt);
    ReachesOn(e, x, x1, y);
  }

  lemma SoloFirstHalf(e: Env, x: Solo) returns (y: Solo)
    requires Stands(e, x, Evicting(SizeCheck(0))) && Settled(x.s) && !e.cfg.batch
    ensures Reaches(e, x, y) && Stands(e, y, Evicting(TimeoutCheck(0))) && Settled(y.s)
    ensures View(y) == if |Items(x.s)| > e.cfg.maxSize then M.RemoveNode(e.cfg, e.clock, View(x), false) else View(x)
  {
    hide Stands, Reaches, Settled;
    y := SizeChecked(e, x, 0);
    if |Items(x.s)| > e.cfg.maxSize {
      var x1 := y;
      y := SoloRemove(e, x1, Removal(true, 0));
      ReachesOn(e, x, x1, y);
    }
  }

  lemma SoloOne(e: Env, x: Solo) returns (y: Solo)
    requires Stands(e, x, Evicting(SizeCheck(0))) && Settled(x.s) && !e.cfg.batch
    ensures Reaches(e, x, y) && Stands(e, y, Evicting(Leave)) && Settled(y.s)
    ensures View(y) == M.Evict(e.cfg, e.clock, View(x))
  {
    hide Stands, Reaches, Settled;
    var x1 := SoloFirstHalf(e, x);
    y := SoloTest(e, x1, 0);
    ReachesOn(e, x, x1, y);
    if M.TestLast(e.cfg, e.clock, View(x1)).0 {
      var x2 := y;
      y := SoloRemove(e, x2, Removal(false, 0));
      ReachesOn(e, x, x2, y);
    }
  }

  /** Nobody is evicting. */
  lemma FlagIsDown(e: Env, x: Solo)
    requires Stands(e, x, Idle)
    ensures !x.s.evicting
  {
    forall u | 0 <= u < |x.s.pcs| ensures !Evictor(x.s.pcs[u]) {
    }
  }

  lemma SoloEnter(e: Env, x: Solo) returns (y: Solo)
    requires Stands(e, x, Idle) && Settled(x.s) && e.op == Op.Evict
    ensures Reaches(e, x, y) && Stands(e, y, Evicting(SizeCheck(0))) && Settled(y.s) && View(y) == View(x)
  {
    hide Inv, Alone, Reaches, Settled;
    FlagIsDown(e, x);
    var x1 := Solo(Goto(x.s, e.t, Evicting(Enter)), x.tick);
    var x2 := Solo(Turned(x.s, e.t, Evicting(SizeCheck(0)), true), x.tick);
    assert Goes(e, x, x1);
    assert Goes(e, x1, x2);
    TwoSteps(e, x, x1, x2);
    y := Turns(e, 2, x, Evicting(SizeCheck(0)), true, x.tick);
  }

  lemma SoloLeave(e: Env, x: Solo) returns (y: Solo)
    requires Stands(e, x, Evicting(Leave)) && Settled(x.s)
    ensures Reaches(e, x, y) && Stands(e, y, Idle) && Settled(y.s) && View(y) == View(x)
  {
    hide Inv, Alone, Reaches, Settled;
    assert Goes(e, x, Solo(Turned(x.s, e.t, Idle, false), x.tick));
    OneStep(e, x, Solo(Turned(x.s, e.t, Idle, false), x.tick));
    y := Turns(e, 1, x, Idle, false, x.tick);
  }

  /** An `evict` that runs alone, of either type, does to the items what the specification says, at the same readings. */
  lemma SoloEvict(e: Env, x: Solo) returns (y: Solo)
    requires Stands(e, x, Idle) && Settled(x.s) && e.op == Op.Evict
    ensures Reaches(e, x, y) && Stands(e, y, Idle) && Settled(y.s)
    ensures View(y) == M.Evict(e.cfg, e.clock, View(x))
  {
    hide Stands, Reaches, Settled;
    var x1 := SoloEnter(e, x);
    var x2;
    if e.cfg.batch {
      x2 := SoloBatch(e, x1);
    } else {
      x2 := SoloOne(e, x1);
    }
    y := SoloLeave(e, x2);
    ReachesOn(e, x, x1, x2);
    ReachesOn(e, x, x2, y);
  }
}
