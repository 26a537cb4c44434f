/** Every step extends a history that a plain map could have produced. */
module LruHistory {
  import opened Domain
  import opened LruProtocol
  import opened LruInvariant
  import opened LruShape
  import opened LruAccounts

  /** The plain map: each event's effect on it. */
  function Apply(m: map<Key, Value>, e: Event): map<Key, Value> {
    match e
    case SetEvent(k, v) => m[k := v]
    case EraseEvent(k) => m - {k}
    case _ => m
  }

  /** Does the plain map allow the event? */
  predicate Allows(m: map<Key, Value>, e: Event) {
    match e
    case SetEvent(_, _) => true
    case EraseEvent(k) => k in m
    case HitEvent(k, v) => k in m && m[k] == v
    case MissEvent(k) => k !in m
    case ExpiredEvent(k) => k in m
  }

  function Replay(h: seq<Event>): map<Key, Value> {
    if h == [] then map[] else Apply(Replay(h[..|h| - 1]), h[|h| - 1])
  }

  ghost predicate Legal(h: seq<Event>) {
    forall i :: 0 <= i < |h| ==> LegalAt(h, i)
  }

  ghost predicate LegalAt(h: seq<Event>, i: nat)
    requires i < |h|
  {
    Allows(Replay(h[..i]), h[i])
  }

  /** The map as callers can see it: entries whose value has been written. */
  function Visible(s: State): map<Key, Value> {
    map k | k in s.entries && s.entries[k].value.Some? :: s.entries[k].value.value
  }

  ghost predicate HistoryInv(s: State) {
    Legal(s.history) && Replay(s.history) == Visible(s)
  }

  /** A step adds no event and no visible change, or one allowed event with its effect. */
  ghost predicate HistoryDelta(s: State, s': State) {
    || (s'.history == s.history && Visible(s') == Visible(s))
    || (exists e :: s'.history == s.history + [e] && Allows(Visible(s), e) && Visible(s') == Apply(Visible(s), e))
  }

  lemma HistoryKept(s: State, s': State)
    requires HistoryInv(s) && HistoryDelta(s, s')
    ensures HistoryInv(s')
  {
    if !(s'.history == s.history && Visible(s') == Visible(s)) {
      var e :| s'.history == s.history + [e] && Allows(Visible(s), e) && Visible(s') == Apply(Visible(s), e);
      assert s'.history[..|s.history|] == s.history;
      forall i | 0 <= i < |s'.history| ensures LegalAt(s'.history, i) {
        if i < |s.history| {
          assert s'.history[..i] == s.history[..i];
          assert LegalAt(s.history, i);
        }
      }
    }
  }

  lemma HistorySetStep(s: State, t: Tid, k: Key, now: int)
    requires t < |s.pcs| && s.pcs[t].Setting?
    requires !s.pcs[t].s.Insert? ==> k in s.entries
    ensures HistoryDelta(s, SetStep(s, t, k, now))
  {
    var s' := SetStep(s, t, k, now);
    match s.pcs[t].s {
      case Create(v) => assert Visible(s') == Apply(Visible(s), SetEvent(k, v));
      case Store(v) => assert Visible(s') == Apply(Visible(s), SetEvent(k, v));
      case _ => assert Visible(s') == Visible(s);
    }
  }

  lemma HistoryGetStep(cfg: Config, s: State, t: Tid, k: Key, now: int)
    requires t < |s.pcs| && s.pcs[t].Getting? && (k in s.entries ==> LiveEntry(s, k))
    ensures HistoryDelta(s, GetStep(cfg, s, t, k, now))
  {
    var s' := GetStep(cfg, s, t, k, now);
    assert Visible(s') == Visible(s);
    if s'.history != s.history {
      assert s'.history == s.history + [s'.history[|s.history|]];
      assert Allows(Visible(s), s'.history[|s.history|]);
    }
  }

  lemma HistoryRemoveStep(cfg: Config, s: State, t: Tid, r: Removal, now: int)
    requires t < |s.pcs| && s.pcs[t].Removing? && StageOk(s, s.pcs[t])
    requires forall k :: k in s.entries ==> LiveEntry(s, k)
    ensures HistoryDelta(s, RemoveStep(cfg, s, t, r, now))
  {
    var s' := RemoveStep(cfg, s, t, r, now);
    match s.pcs[t].m {
      case Erase(n) =>
        assert LiveEntry(s, n.key);
        assert Visible(s') == Apply(Visible(s), EraseEvent(n.key));
      case Find(_) => assert Visible(s') == Visible(s);
      case Lock =>
      case Detach =>
      case Delete(_) =>
      case Decrement =>
    }
  }

  lemma HistoryOtherStep(cfg: Config, s: State, t: Tid, c: Choice)
    requires Enabled(s, t) && (s.pcs[t].Idle? || s.pcs[t].Snapping? || s.pcs[t].Evicting?)
    ensures HistoryDelta(s, Exec(cfg, s, t, c))
  {
  }

  lemma HistoryStep(cfg: Config, s: State, t: Tid, c: Choice)
    requires LockInv(s) && ShapeInv(s) && LifeInv(s) && Enabled(s, t)
    ensures HistoryDelta(s, Exec(cfg, s, t, c))
  {
    match s.pcs[t] {
      case Setting(k, _) => HeldEntry(s, t); HistorySetStep(s, t, k, c.now);
      case Removing(r, _) => assert StageOk(s, s.pcs[t]); HistoryRemoveStep(cfg, s, t, r, c.now);
      case Getting(k, _) => HistoryGetStep(cfg, s, t, k, c.now);
      case _ => HistoryOtherStep(cfg, s, t, c);
    }
  }

  // ----- the whole invariant

  ghost predicate Inv(cfg: Config, s: State) {
    && LockInv(s) && ShapeInv(s) && LifeInv(s) && CountInv(s) && GuardInv(cfg, s) && HistoryInv(s)
  }

  lemma InvInit(cfg: Config, s: State)
    requires Init(s)
    ensures Inv(cfg, s)
  {
    forall p: Pc -> bool | !p(Idle) ensures Tally(s.pcs, p) == 0 {
      assert ThreadsAt(s.pcs, p) == {};
    }
    assert |s.entries| == 0;
  }

  lemma InvStep(cfg: Config, s: State, t: Tid, c: Choice)
    requires Inv(cfg, s) && Enabled(s, t)
    ensures Inv(cfg, Exec(cfg, s, t, c))
  {
    var s' := Exec(cfg, s, t, c);
    DeltaStep(cfg, s, t, c);
    AccessorStep(cfg, s, t, c);
    MutexKept(s, s', t);
    EvictorKept(s, s', t);
    ShapeStep(cfg, s, t, c);
    LifeStep(cfg, s, t, c);
    CountStep(cfg, s, t, c);
    GuardStep(cfg, s, t, c);
    HistoryStep(cfg, s, t, c);
    HistoryKept(s, s');
  }

  lemma {:induction false} InvRun(cfg: Config, states: seq<State>, moves: seq<Move>, i: nat)
    requires IsRun(cfg, states, moves) && Init(states[0]) && i < |states|
    ensures Inv(cfg, states[i])
  {
    hide Inv, Init;
    if i == 0 {
      InvInit(cfg, states[0]);
    } else {
      InvRun(cfg, states, moves, i - 1);
      assert Follows(cfg, states, moves, i - 1);
      InvStep(cfg, states[i - 1], moves[i - 1].t, moves[i - 1].c);
    }
  }

  lemma InvReachable(cfg: Config, s: State)
    requires Reachable(cfg, s)
    ensures Inv(cfg, s)
  {
    var states, moves :| IsRun(cfg, states, moves) && Init(states[0]) && states[|moves|] == s;
    InvRun(cfg, states, moves, |moves|);
  }
}
