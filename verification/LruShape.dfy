/** Every step keeps the correspondence between the map, the list and the nodes in flight. */
module LruShape {
  import opened Domain
  import opened LruProtocol
  import opened LruInvariant

  ghost predicate LockInv(s: State) {
    AccessorInv(s) && MutexInv(s) && EvictorInv(s)
  }

  /** Same keys, same nodes. */
  ghost predicate SameNodes(s: State, s': State) {
    forall k ::
      && (k in s.entries <==> k in s'.entries)
      && (k in s.entries ==> s'.entries[k].node == s.entries[k].node)
  }

  lemma StageElsewhere(s: State, s': State, t: Tid, st: Stage)
    requires Moves(s, s', t)
    ensures AtStage(s', st) && st != StageOf(s'.pcs[t]) ==> AtStage(s, st)
    ensures AtStage(s, st) && st != StageOf(s.pcs[t]) ==> AtStage(s', st)
  {
    if AtStage(s', st) && st != StageOf(s'.pcs[t]) {
      var u :| 0 <= u < |s'.pcs| && StageOf(s'.pcs[u]) == st;
      assert s.pcs[u] == s'.pcs[u];
    }
    if AtStage(s, st) && st != StageOf(s.pcs[t]) {
      var u :| 0 <= u < |s.pcs| && StageOf(s.pcs[u]) == st;
      assert s'.pcs[u] == s.pcs[u];
    }
  }

  lemma ShapeUntouched(s: State, s': State, t: Tid)
    requires ShapeInv(s) && Moves(s, s', t) && SameNodes(s, s')
    requires s'.list == s.list && s'.nextId == s.nextId
    requires StageOf(s'.pcs[t]) == StageOf(s.pcs[t])
    requires StageOf(s.pcs[t]).Linking? ==> s'.pcs[t].k == s.pcs[t].k
    ensures ShapeInv(s')
  {
    forall st ensures AtStage(s', st) == AtStage(s, st) {
      StageElsewhere(s, s', t, st);
      if st == StageOf(s.pcs[t]) { assert StageOf(s'.pcs[t]) == st; }
    }
    forall k | k in s'.entries ensures EntryOk(s', k) {
      assert EntryOk(s, k);
    }
    forall n | n in s'.list ensures Stored(s', n) {
      assert Stored(s, n);
    }
    forall u | 0 <= u < |s'.pcs| ensures StageOk(s', s'.pcs[u]) {
      assert StageOk(s, s.pcs[u]);
    }
  }

  /** Two threads never fill the same entry: both would hold its accessor. */
  lemma OneFiller(s: State, t: Tid, u: Tid)
    requires AccessorInv(s) && ShapeInv(s) && t < |s.pcs| && u < |s.pcs|
    requires !StageOf(s.pcs[t]).NoNode? && !StageOf(s.pcs[t]).Unmapping?
    requires StageOf(s.pcs[t]) == StageOf(s.pcs[u])
    ensures t == u
  {
    assert HoldsAccessors(s, t) && HoldsAccessors(s, u);
    assert StageOk(s, s.pcs[t]) && StageOk(s, s.pcs[u]);
  }

  /** Stored nodes of one key are one node. */
  lemma StoredUnique(s: State, m: Node, n: Node)
    requires Stored(s, m) && Stored(s, n) && m.key == n.key
    ensures m == n
  {
  }

  lemma ShapeInsert(s: State, s': State, t: Tid, k: Key)
    requires ShapeInv(s) && Moves(s, s', t)
    requires k !in s.entries && s'.entries.Keys == s.entries.Keys + {k} && SameBut(s, s', k)
    requires s'.entries[k].node == None
    requires s'.list == s.list && s'.nextId == s.nextId
    requires StageOf(s.pcs[t]) == NoNode && StageOf(s'.pcs[t]) == Creating(k)
    ensures ShapeInv(s')
  {
    forall st: Stage | !st.NoNode? ensures AtStage(s', st) == (AtStage(s, st) || st == Creating(k)) {
      StageElsewhere(s, s', t, st);
    }
    forall j | j in s'.entries ensures EntryOk(s', j) {
      if j != k { assert EntryOk(s, j); }
    }
    forall n | n in s'.list ensures Stored(s', n) {
      assert Stored(s, n);
    }
    forall u | 0 <= u < |s'.pcs| ensures StageOk(s', s'.pcs[u]) {
      if u != t { assert StageOk(s, s.pcs[u]); }
    }
  }

  lemma ShapeCreate(s: State, s': State, t: Tid, k: Key, n: Node)
    requires AccessorInv(s) && ShapeInv(s) && Moves(s, s', t) && SameBut(s, s', k)
    requires StageOf(s.pcs[t]) == Creating(k) && k in s'.entries && s'.entries[k].node == Some(n)
    requires s'.list == s.list && n == Node(s.nextId, k) && s'.nextId == s.nextId + 1
    requires StageOf(s'.pcs[t]) == Linking(n) && s'.pcs[t].k == k
    ensures ShapeInv(s')
  {
    assert StageOk(s, s.pcs[t]);
    forall st: Stage | !st.NoNode? && st != Creating(k)
      ensures AtStage(s', st) == (AtStage(s, st) || st == Linking(n))
    {
      StageElsewhere(s, s', t, st);
    }
    forall m | Stored(s, m) ensures m.key != k && Stored(s', m) && m.id < s.nextId {
      assert EntryOk(s, m.key);
    }
    forall j | j in s'.entries ensures EntryOk(s', j) {
      if j != k { assert EntryOk(s, j); }
    }
    forall u | 0 <= u < |s'.pcs| ensures StageOk(s', s'.pcs[u]) {
      if u != t {
        assert StageOk(s, s.pcs[u]);
        if StageOf(s.pcs[u]) == Creating(k) { OneFiller(s, t, u); }
      }
    }
    forall m | AtStage(s', Linking(m)) ensures !AtStage(s', Unmapping(m)) {
      assert m != n ==> AtStage(s, Linking(m));
      assert !AtStage(s, Unmapping(n)) by {
        assert forall u :: 0 <= u < |s.pcs| ==> StageOk(s, s.pcs[u]);
      }
    }
  }

  lemma ShapeLink(s: State, s': State, t: Tid, n: Node)
    requires AccessorInv(s) && ShapeInv(s) && Moves(s, s', t)
    requires StageOf(s.pcs[t]) == Linking(n) && StageOf(s'.pcs[t]) == NoNode
    requires s'.entries == s.entries && s'.nextId == s.nextId && s'.list == [n] + s.list
    ensures ShapeInv(s')
  {
    assert StageOk(s, s.pcs[t]);
    assert AtStage(s, Linking(n));
    forall st: Stage | !st.NoNode? && st != Linking(n) ensures AtStage(s', st) == AtStage(s, st) {
      StageElsewhere(s, s', t, st);
    }
    forall k | k in s'.entries ensures EntryOk(s', k) {
      assert EntryOk(s, k);
    }
    forall i | 0 <= i < |s.list| ensures s.list[i].key != n.key {
      assert s.list[i] in s.list;
      if s.list[i].key == n.key { StoredUnique(s, s.list[i], n); }
    }
    forall u | 0 <= u < |s'.pcs| ensures StageOk(s', s'.pcs[u]) {
      if u != t {
        assert StageOk(s, s.pcs[u]);
        if StageOf(s.pcs[u]) == Linking(n) { OneFiller(s, t, u); }
        assert StageOf(s.pcs[u]) == Unmapping(n) ==> AtStage(s, Unmapping(n));
      }
    }
    forall m | AtStage(s', Linking(m)) ensures !AtStage(s', Unmapping(m)) {
      assert m != n ==> AtStage(s, Linking(m));
    }
  }

  lemma {:induction false} DelinkFacts(l: seq<Node>, n: Node)
    requires DistinctKeys(l) && n in l
    ensures DistinctKeys(Delink(l, n)) && |Delink(l, n)| == |l| - 1
    ensures forall m :: m in Delink(l, n) <==> m in l && m != n
  {
    assert l == [l[0]] + l[1..];
    if l[0] == n {
      forall m | m in l[1..] ensures m != n {
        var i :| 0 <= i < |l[1..]| && l[1..][i] == m;
        assert l[0].key != l[i + 1].key;
      }
    } else {
      DelinkFacts(l[1..], n);
      forall i | 0 <= i < |Delink(l[1..], n)| ensures Delink(l[1..], n)[i].key != l[0].key {
        assert Delink(l[1..], n)[i] in l[1..];
        var j :| 0 <= j < |l[1..]| && l[1..][j] == Delink(l[1..], n)[i];
        assert l[0].key != l[j + 1].key;
      }
    }
  }

  lemma ShapeReordered(s: State, s': State, t: Tid, n: Node)
    requires ShapeInv(s) && Moves(s, s', t)
    requires StageOf(s.pcs[t]) == NoNode && StageOf(s'.pcs[t]) == NoNode
    requires s'.entries == s.entries && s'.nextId == s.nextId
    requires n in s.list && s'.list == [n] + Delink(s.list, n)
    ensures ShapeInv(s')
  {
    DelinkFacts(s.list, n);
    forall st ensures AtStage(s', st) == AtStage(s, st) {
      StageElsewhere(s, s', t, st);
      if st == NoNode { assert StageOf(s'.pcs[t]) == st && StageOf(s.pcs[t]) == st; }
    }
    forall m ensures m in s'.list <==> m in s.list {
    }
    forall i | 0 <= i < |Delink(s.list, n)| ensures Delink(s.list, n)[i].key != n.key {
      var m := Delink(s.list, n)[i];
      assert m in Delink(s.list, n);
      if m.key == n.key { StoredUnique(s, m, n); }
    }
    forall k | k in s'.entries ensures EntryOk(s', k) {
      assert EntryOk(s, k);
    }
    forall u | 0 <= u < |s'.pcs| ensures StageOk(s', s'.pcs[u]) {
      assert StageOk(s, s.pcs[u]);
    }
  }

  lemma ShapeDetach(s: State, s': State, t: Tid)
    requires ShapeInv(s) && Moves(s, s', t) && s.list != []
    requires s'.entries == s.entries && s'.nextId == s.nextId && s'.list == s.list[..|s.list| - 1]
    requires StageOf(s.pcs[t]) == NoNode && StageOf(s'.pcs[t]) == Unmapping(s.list[|s.list| - 1])
    ensures ShapeInv(s')
  {
    var n := s.list[|s.list| - 1];
    assert s.list == s'.list + [n];
    assert Stored(s, n);
    forall i | 0 <= i < |s'.list| ensures s'.list[i] != n {
      assert s.list[i].key != n.key;
    }
    forall st: Stage | !st.NoNode? ensures AtStage(s', st) == (AtStage(s, st) || st == Unmapping(n)) {
      StageElsewhere(s, s', t, st);
    }
    forall k | k in s'.entries ensures EntryOk(s', k) {
      assert EntryOk(s, k);
    }
    forall m | m in s'.list ensures Stored(s', m) {
      assert m in s.list;
    }
    forall u | 0 <= u < |s'.pcs| ensures StageOk(s', s'.pcs[u]) {
      if u != t { assert StageOk(s, s.pcs[u]); }
    }
    forall m | AtStage(s', Linking(m)) ensures !AtStage(s', Unmapping(m)) {
      var u :| 0 <= u < |s.pcs| && StageOf(s'.pcs[u]) == Linking(m);
      assert StageOk(s, s.pcs[u]) && m !in s.list;
    }
  }

  lemma ShapeErase(s: State, s': State, t: Tid, n: Node)
    requires EvictorInv(s) && ShapeInv(s) && Moves(s, s', t)
    requires StageOf(s.pcs[t]) == Unmapping(n) && StageOf(s'.pcs[t]) == NoNode
    requires s'.entries == s.entries - {n.key} && s'.nextId == s.nextId && s'.list == s.list
    ensures ShapeInv(s')
  {
    assert StageOk(s, s.pcs[t]);
    assert AtStage(s, Unmapping(n));
    forall st: Stage | !st.NoNode? && st != Unmapping(n) ensures AtStage(s', st) == AtStage(s, st) {
      StageElsewhere(s, s', t, st);
    }
    forall k | k in s'.entries ensures EntryOk(s', k) {
      assert EntryOk(s, k);
    }
    forall m | m in s'.list ensures Stored(s', m) {
      assert Stored(s, m);
      if m.key == n.key { StoredUnique(s, m, n); }
    }
    forall u | 0 <= u < |s'.pcs| ensures StageOk(s', s'.pcs[u]) {
      if u != t {
        assert StageOk(s, s.pcs[u]);
        assert StageOf(s.pcs[u]) == Linking(n) ==> AtStage(s, Linking(n));
      }
    }
    forall m | AtStage(s', Linking(m)) ensures !AtStage(s', Unmapping(m)) {
      assert AtStage(s, Linking(m));
    }
  }

  // ----- the steps

  lemma ShapeRefresh(s: State, t: Tid, k: Key, now: int)
    requires ShapeInv(s) && t < |s.pcs| && s.pcs[t] == Setting(k, Refresh) && k in s.entries
    ensures ShapeInv(SetStep(s, t, k, now))
  {
    var s' := SetStep(s, t, k, now);
    var e := s.entries[k];
    if e.node.Some? && e.node.value in s.list {
      ShapeReordered(s, s', t, e.node.value);
    } else {
      ShapeUntouched(s, s', t);
    }
  }

  lemma ShapeInsertStep(s: State, t: Tid, k: Key, now: int)
    requires ShapeInv(s) && t < |s.pcs| && s.pcs[t].Setting? && s.pcs[t].k == k && s.pcs[t].s.Insert?
    ensures ShapeInv(SetStep(s, t, k, now))
  {
    var s' := SetStep(s, t, k, now);
    if k in s.entries { ShapeUntouched(s, s', t); } else { ShapeInsert(s, s', t, k); }
  }

  lemma ShapeSetStep(s: State, t: Tid, k: Key, now: int)
    requires AccessorInv(s) && ShapeInv(s) && Enabled(s, t) && s.pcs[t].Setting? && s.pcs[t].k == k
    ensures ShapeInv(SetStep(s, t, k, now))
  {
    var s' := SetStep(s, t, k, now);
    assert HoldsAccessors(s, t);
    hide ShapeInv, AccessorInv;
    match s.pcs[t].s {
      case Insert(_) => ShapeInsertStep(s, t, k, now);
      case Create(_) => ShapeCreate(s, s', t, k, Node(s.nextId, k));
      case Link(n) => ShapeLink(s, s', t, n);
      case Refresh => ShapeRefresh(s, t, k, now);
      case LinkWait(_) => ShapeUntouched(s, s', t);
      case Count => ShapeUntouched(s, s', t);
      case Store(_) => ShapeUntouched(s, s', t);
      case RefreshWait => ShapeUntouched(s, s', t);
      case Unlock => ShapeUntouched(s, s', t);
    }
  }

  lemma ShapeRemoveStep(cfg: Config, s: State, t: Tid, r: Removal, now: int)
    requires EvictorInv(s) && ShapeInv(s) && Enabled(s, t) && s.pcs[t].Removing?
    ensures ShapeInv(RemoveStep(cfg, s, t, r, now))
  {
    var s' := RemoveStep(cfg, s, t, r, now);
    assert StageOk(s, s.pcs[t]);
    match s.pcs[t].m {
      case Detach => if s'.list == s.list { ShapeUntouched(s, s', t); } else { ShapeDetach(s, s', t); }
      case Erase(n) => ShapeErase(s, s', t, n);
      case _ => ShapeUntouched(s, s', t);
    }
  }

  lemma ShapeGetStep(cfg: Config, s: State, t: Tid, k: Key, now: int)
    requires ShapeInv(s) && t < |s.pcs| && s.pcs[t].Getting?
    ensures ShapeInv(GetStep(cfg, s, t, k, now))
  {
    hide ShapeInv;
    ShapeUntouched(s, GetStep(cfg, s, t, k, now), t);
  }

  lemma ShapeQuietStep(cfg: Config, s: State, t: Tid, c: Choice)
    requires ShapeInv(s) && Enabled(s, t) && (s.pcs[t].Idle? || s.pcs[t].Snapping?)
    ensures ShapeInv(Exec(cfg, s, t, c))
  {
    hide ShapeInv;
    match s.pcs[t] {
      case Idle => ShapeUntouched(s, Goto(s, t, Begin(c.op)), t);
      case Snapping(locked) => ShapeUntouched(s, SnapStep(s, t, locked), t);
    }
  }

  lemma ShapeStep(cfg: Config, s: State, t: Tid, c: Choice)
    requires LockInv(s) && ShapeInv(s) && Enabled(s, t)
    ensures ShapeInv(Exec(cfg, s, t, c))
  {
    hide ShapeInv, AccessorInv, MutexInv, EvictorInv;
    match s.pcs[t] {
      case Setting(k, _) => ShapeSetStep(s, t, k, c.now);
      case Removing(r, _) => ShapeRemoveStep(cfg, s, t, r, c.now);
      case Getting(k, _) => ShapeGetStep(cfg, s, t, k, c.now);
      case Evicting(_) => ShapeUntouched(s, EvictStep(cfg, s, t, c.now), t);
      case _ => ShapeQuietStep(cfg, s, t, c);
    }
  }
}
