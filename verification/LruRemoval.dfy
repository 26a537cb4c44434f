/** A whole removal for overload, from its first step to its last, with any other steps in between. */
module LruRemoval {
  import opened Domain
  import opened LruProtocol
  import opened LruInvariant
  import opened LruSafety

  /** Thread t's steps from i up to j leave the history and the keys of the map alone. */
  ghost predicate Still(states: seq<State>, moves: seq<Move>, t: Tid, i: int, j: int)
    requires 0 <= i && j <= |moves| && |states| == |moves| + 1
  {
    forall m :: i <= m < j && moves[m].t == t ==> Quiet(states[m], states[m + 1])
  }

  ghost predicate Quiet(s: State, s': State) {
    s'.history == s.history && s'.entries.Keys == s.entries.Keys
  }

  /** The step takes one entry out of the map, and records that. */
  ghost predicate Takes(s: State, s': State, k: Key) {
    k in s.entries && s'.entries == s.entries - {k} && s'.history == s.history + [EraseEvent(k)]
  }

  ghost predicate TakesOne(s: State, s': State) {
    exists k :: Takes(s, s', k)
  }

  /** Of thread t's steps from i up to j, step m takes the entry of k, and no other takes or records anything. */
  ghost predicate TakenAt(states: seq<State>, moves: seq<Move>, t: Tid, i: int, j: int, m: int, k: Key)
    requires 0 <= i && j <= |moves| && |states| == |moves| + 1
  {
    && i <= m < j && moves[m].t == t && Takes(states[m], states[m + 1], k)
    && Still(states, moves, t, i, m) && Still(states, moves, t, m + 1, j)
  }

  ghost predicate TakenOnce(states: seq<State>, moves: seq<Move>, t: Tid, i: int, j: int)
    requires 0 <= i && j <= |moves| && |states| == |moves| + 1
  {
    exists m, k :: TakenAt(states, moves, t, i, j, m, k)
  }

  /** Has the thread taken its entry? */
  predicate HasTaken(pc: Pc) { pc.Removing? && (pc.m.Delete? || pc.m.Decrement?) }

  ghost predicate SoFar(states: seq<State>, moves: seq<Move>, t: Tid, taken: bool, i: int, j: int)
    requires 0 <= i && j <= |moves| && |states| == |moves| + 1
  {
    if taken then TakenOnce(states, moves, t, i, j) else Still(states, moves, t, i, j)
  }

  /** What one step of the removal does: it stays in the removal, except after the decrement, and takes an entry only at Erase. */
  ghost predicate RemovalStep(cfg: Config, s: State, s': State, t: Tid)
    requires t < |s.pcs| && s.pcs[t].Removing?
  {
    && t < |s'.pcs|
    && (if s.pcs[t].m.Erase? then TakesOne(s, s') else Quiet(s, s'))
    && (if s.pcs[t].m.Decrement? then s'.pcs[t] == Evicting(AfterRemoval(cfg, s.pcs[t].r)) && s'.size >= cfg.maxSize
        else s'.pcs[t].Removing? && s'.pcs[t].r == s.pcs[t].r
             && (HasTaken(s'.pcs[t]) <==> HasTaken(s.pcs[t]) || s.pcs[t].m.Erase?))
  }

  lemma RemovalStepIs(cfg: Config, s: State, t: Tid, c: Choice)
    requires Reachable(cfg, s) && Enabled(s, t) && s.pcs[t].Removing? && s.pcs[t].r.overload
    ensures RemovalStep(cfg, s, Exec(cfg, s, t, c), t)
  {
    hide Reachable;
    OverloadRemovalCompletes(cfg, s, t, c);
    var s' := Exec(cfg, s, t, c);
    match s.pcs[t].m {
      case Find(n) => EvictorFindsItsEntry(cfg, s, t);
      case Erase(n) => assert Takes(s, s', n.key);
      case _ =>
    }
  }

  lemma SoFarExtends(states: seq<State>, moves: seq<Move>, t: Tid, before: bool, after: bool, i: nat, j: nat)
    requires i <= j < |moves| && |states| == |moves| + 1 && SoFar(states, moves, t, before, i, j)
    requires if moves[j].t == t && before != after then after && TakesOne(states[j], states[j + 1])
             else before == after && (moves[j].t == t ==> Quiet(states[j], states[j + 1]))
    ensures SoFar(states, moves, t, after, i, j + 1)
  {
    if before {
      var m, k :| TakenAt(states, moves, t, i, j, m, k);
      assert TakenAt(states, moves, t, i, j + 1, m, k);
    } else if after {
      var k :| Takes(states[j], states[j + 1], k);
      assert TakenAt(states, moves, t, i, j + 1, j, k);
    }
  }

  /** From step i up to and including state j thread t is in one removal for overload. */
  ghost predicate InRemoval(states: seq<State>, t: Tid, i: nat, j: nat)
    requires i <= j < |states|
  {
    forall m :: i <= m <= j ==> t < |states[m].pcs| && states[m].pcs[t].Removing?
  }

  lemma RemovalGoesOn(cfg: Config, states: seq<State>, moves: seq<Move>, t: Tid, r: Removal, i: nat, j: nat)
    requires IsRun(cfg, states, moves) && Init(states[0]) && i <= j < |moves|
    requires t < |states[j].pcs| && states[j].pcs[t].Removing? && states[j].pcs[t].r == r && r.overload
    requires SoFar(states, moves, t, HasTaken(states[j].pcs[t]), i, j)
    requires !(moves[j].t == t && states[j].pcs[t].m.Decrement?)
    ensures t < |states[j + 1].pcs| && states[j + 1].pcs[t].Removing? && states[j + 1].pcs[t].r == r
    ensures SoFar(states, moves, t, HasTaken(states[j + 1].pcs[t]), i, j + 1)
  {
    hide SoFar, Init;
    assert Follows(cfg, states, moves, j);
    if moves[j].t == t {
      PrefixIsReachable(cfg, states, moves, j);
      RemovalStepIs(cfg, states[j], t, moves[j].c);
    } else {
      DeltaStep(cfg, states[j], moves[j].t, moves[j].c);
    }
    SoFarExtends(states, moves, t, HasTaken(states[j].pcs[t]), HasTaken(states[j + 1].pcs[t]), i, j);
  }

  lemma {:induction false} RemovalSoFar(cfg: Config, states: seq<State>, moves: seq<Move>, t: Tid, r: Removal, i: nat, j: nat)
    requires IsRun(cfg, states, moves) && Init(states[0]) && i <= j < |states| && InRemoval(states, t, i, j)
    requires t < |states[i].pcs| && states[i].pcs[t] == Removing(r, Lock) && r.overload
    ensures states[j].pcs[t].r == r && SoFar(states, moves, t, HasTaken(states[j].pcs[t]), i, j)
    decreases j
  {
    if i < j {
      hide SoFar, HasTaken;
      RemovalSoFar(cfg, states, moves, t, r, i, j - 1);
      assert states[j].pcs[t].Removing?;
      NotDone(cfg, states, moves, t, j - 1);
      RemovalGoesOn(cfg, states, moves, t, r, i, j - 1);
    }
  }

  lemma NotDone(cfg: Config, states: seq<State>, moves: seq<Move>, t: Tid, j: nat)
    requires IsRun(cfg, states, moves) && Init(states[0]) && j < |moves|
    requires t < |states[j].pcs| && states[j].pcs[t].Removing? && states[j].pcs[t].r.overload
    requires t < |states[j + 1].pcs| && states[j + 1].pcs[t].Removing?
    ensures !(moves[j].t == t && states[j].pcs[t].m.Decrement?)
  {
    if moves[j].t == t {
      assert Follows(cfg, states, moves, j);
      PrefixIsReachable(cfg, states, moves, j);
      RemovalStepIs(cfg, states[j], t, moves[j].c);
    }
  }

  /** A removal for overload that begins at step i and is over at step j, whatever others do in between: of its own steps
      exactly one takes an entry out of the map, and the counter ends at the maximum or above. */
  lemma OverloadRemovalTakesOne(cfg: Config, states: seq<State>, moves: seq<Move>, t: Tid, r: Removal, i: nat, j: nat)
    requires IsRun(cfg, states, moves) && Init(states[0]) && i < j < |states| && InRemoval(states, t, i, j - 1)
    requires t < |states[i].pcs| && states[i].pcs[t] == Removing(r, Lock) && r.overload
    requires t < |states[j].pcs| && !states[j].pcs[t].Removing?
    ensures moves[j - 1].t == t && states[j].pcs[t] == Evicting(AfterRemoval(cfg, r))
    ensures TakenOnce(states, moves, t, i, j) && states[j].size >= cfg.maxSize
  {
    RemovalSoFar(cfg, states, moves, t, r, i, j - 1);
    assert Follows(cfg, states, moves, j - 1);
    if moves[j - 1].t == t {
      PrefixIsReachable(cfg, states, moves, j - 1);
      RemovalStepIs(cfg, states[j - 1], t, moves[j - 1].c);
      SoFarExtends(states, moves, t, true, true, i, j - 1);
    } else {
      DeltaStep(cfg, states[j - 1], moves[j - 1].t, moves[j - 1].c);
    }
  }
}
