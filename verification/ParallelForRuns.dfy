/** `ParallelFor` as a caller and its tasks, whose steps interleave in any order. */
module ParallelForRuns {
  import opened ParallelFor

  datatype Task = Task(call: Range, done: bool)

  datatype Pc =
    | Choosing
    | Spawning(i: size_t) // about to test whether there is more to hand out
    | Joining(k: nat)     // waiting for task k, if there is one
    | Returned

  /** `calls` is the history of the calls that have come back. */
  datatype State = State(pc: Pc, tasks: seq<Task>, calls: seq<Range>)

  /** The caller goes on, or task k makes its call. */
  datatype Step = Caller | Work(k: nat)

  const START := State(Choosing, [], [])

  predicate Enabled(s: State, step: Step) {
    match step
    case Work(k) => k < |s.tasks| && !s.tasks[k].done
    case Caller =>
      match s.pc
      case Joining(k) => k < |s.tasks| ==> s.tasks[k].done
      case Returned => false
      case _ => true
  }

  function CallerStep(job: Job, s: State): State
    requires Enabled(s, Caller)
  {
    match s.pc
    case Choosing =>
      if Direct(job) then s.(pc := Returned, calls := s.calls + [Range(job.first, job.last)])
      else s.(pc := Spawning(job.first))
    case Spawning(i) =>
      if i < job.last then s.(pc := Spawning(End(job, i)), tasks := s.tasks + [Task(Range(i, End(job, i)), false)])
      else s.(pc := Joining(0))
    case Joining(k) => if k < |s.tasks| then s.(pc := Joining(k + 1)) else s.(pc := Returned)
  }

  function Exec(job: Job, s: State, step: Step): State
    requires Enabled(s, step)
  {
    match step
    case Caller => CallerStep(job, s)
    case Work(k) => s.(tasks := s.tasks[k := s.tasks[k].(done := true)], calls := s.calls + [s.tasks[k].call])
  }

  ghost predicate Follows(job: Job, s: State, next: State) {
    exists step :: Enabled(s, step) && next == Exec(job, s, step)
  }

  /** States reached one after the other, in any order of steps. */
  ghost predicate IsRun(job: Job, run: seq<State>) {
    && |run| > 0 && run[0] == START
    && forall i :: 0 < i < |run| ==> Follows(job, run[i - 1], run[i])
  }

  // ----- what every step keeps

  function Calls(tasks: seq<Task>): seq<Range> {
    seq(|tasks|, i requires 0 <= i < |tasks| => tasks[i].call)
  }

  /** The calls of the tasks that are done. */
  function Done(tasks: seq<Task>): multiset<Range> {
    if tasks == [] then multiset{}
    else
      var last := |tasks| - 1;
      Done(tasks[..last]) + if tasks[last].done then multiset{tasks[last].call} else multiset{}
  }

  /** Tasks that are yet to make their call. */
  function Idle(tasks: seq<Task>): nat {
    if tasks == [] then 0
    else
      var last := |tasks| - 1;
      Idle(tasks[..last]) + if tasks[last].done then 0 else 1
  }

  /** The tasks there are make the calls of the loop, as far as the caller has got. */
  ghost predicate CutSoFar(job: Job, s: State) {
    var n := |s.tasks|;
    match s.pc
    case Choosing => s.tasks == []
    case Spawning(i) => !Direct(job) && Calls(s.tasks) == Cuts(job, n) && i == Start(job, n) && Under(job, n)
    case Joining(k) => !Direct(job) && Calls(s.tasks) == Cuts(job, n) && Ends(job, n)
    case Returned => if Direct(job) then s.tasks == [] else Calls(s.tasks) == Cuts(job, n) && Ends(job, n)
  }

  /** Those joined are done. */
  predicate JoinedDone(s: State) {
    match s.pc
    case Joining(k) => k <= |s.tasks| && forall j :: 0 <= j < k ==> s.tasks[j].done
    case Returned => forall j :: 0 <= j < |s.tasks| ==> s.tasks[j].done
    case _ => true
  }

  /** Each call that came back was made by one task, or directly. */
  predicate CallsAreDone(job: Job, s: State) {
    multiset(s.calls) == Done(s.tasks)
      + if s.pc.Returned? && Direct(job) then multiset{Range(job.first, job.last)} else multiset{}
  }

  ghost predicate Inv(job: Job, s: State) { CutSoFar(job, s) && JoinedDone(s) && CallsAreDone(job, s) }

  lemma CallsNext(tasks: seq<Task>, t: Task)
    ensures Calls(tasks + [t]) == Calls(tasks) + [t.call]
    ensures Done(tasks + [t]) == Done(tasks) + if t.done then multiset{t.call} else multiset{}
    ensures Idle(tasks + [t]) == Idle(tasks) + if t.done then 0 else 1
  {
    assert (tasks + [t])[..|tasks|] == tasks;
  }

  lemma {:induction false} WorkDone(tasks: seq<Task>, k: nat)
    requires k < |tasks| && !tasks[k].done
    ensures var after := tasks[k := tasks[k].(done := true)];
      Calls(after) == Calls(tasks) && Done(after) == Done(tasks) + multiset{tasks[k].call} && Idle(after) + 1 == Idle(tasks)
  {
    hide Calls, Done, Idle;
    var last := |tasks| - 1;
    var after := tasks[k := tasks[k].(done := true)];
    CallsNext(tasks[..last], tasks[last]);
    CallsNext(after[..last], after[last]);
    assert tasks == tasks[..last] + [tasks[last]] && after == after[..last] + [after[last]];
    if k < last {
      WorkDone(tasks[..last], k);
      assert after[..last] == tasks[..last][k := tasks[k].(done := true)];
    } else {
      assert after[..last] == tasks[..last];
    }
  }

  lemma SpawnKeeps(job: Job, s: State, i: size_t)
    requires CutSoFar(job, s) && s.pc == Spawning(i)
    ensures CutSoFar(job, CallerStep(job, s))
  {
    if i < job.last {
      CallsNext(s.tasks, Task(Range(i, End(job, i)), false));
      NextCut(job, |s.tasks|);
    }
    hide Calls, Cuts, Start, End;
  }

  lemma CutSoFarKept(job: Job, s: State, step: Step)
    requires CutSoFar(job, s) && Enabled(s, step)
    ensures CutSoFar(job, Exec(job, s, step))
  {
    match step {
      case Work(k) => WorkDone(s.tasks, k);
      case Caller =>
        match s.pc {
          case Choosing => Planned(job);
          case Spawning(i) => SpawnKeeps(job, s, i);
          case _ =>
        }
    }
  }

  lemma WorkKeepsCalls(job: Job, s: State, k: nat)
    requires CallsAreDone(job, s) && Enabled(s, Work(k))
    ensures CallsAreDone(job, Exec(job, s, Work(k)))
  {
    WorkDone(s.tasks, k);
    hide Done, Direct;
    assert multiset(s.calls + [s.tasks[k].call]) == multiset(s.calls) + multiset{s.tasks[k].call};
  }

  lemma CallerKeepsCalls(job: Job, s: State)
    requires CallsAreDone(job, s) && Enabled(s, Caller) && (s.pc.Joining? ==> !Direct(job))
    ensures CallsAreDone(job, CallerStep(job, s))
  {
    if s.pc.Spawning? {
      CallsNext(s.tasks, Task(Range(s.pc.i, End(job, s.pc.i)), false));
    }
    hide Done, End;
    if s.pc.Choosing? && Direct(job) {
      var r := Range(job.first, job.last);
      hide Direct;
      assert multiset(s.calls + [r]) == multiset(s.calls) + multiset{r};
    }
  }

  lemma CallsAreDoneKept(job: Job, s: State, step: Step)
    requires CallsAreDone(job, s) && Enabled(s, step) && (s.pc.Joining? ==> !Direct(job))
    ensures CallsAreDone(job, Exec(job, s, step))
  {
    match step {
      case Work(k) => WorkKeepsCalls(job, s, k);
      case Caller => CallerKeepsCalls(job, s);
    }
  }

  lemma JoinedDoneKept(s: State, job: Job, step: Step)
    requires JoinedDone(s) && Enabled(s, step)
    requires Direct(job) && s.pc.Choosing? ==> s.tasks == []
    ensures JoinedDone(Exec(job, s, step))
  {
  }

  lemma InvKept(job: Job, s: State, step: Step)
    requires Inv(job, s) && Enabled(s, step)
    ensures Inv(job, Exec(job, s, step))
  {
    hide Done, JoinedDone;
    CutSoFarKept(job, s, step);
    JoinedDoneKept(s, job, step);
    CallsAreDoneKept(job, s, step);
  }

  lemma InvFollows(job: Job, s: State, next: State)
    requires Inv(job, s) && Follows(job, s, next)
    ensures Inv(job, next)
  {
    hide Inv;
    var step :| Enabled(s, step) && next == Exec(job, s, step);
    InvKept(job, s, step);
  }

  lemma InvStart(job: Job)
    ensures Inv(job, START)
  {
  }

  lemma {:induction false} InvRun(job: Job, run: seq<State>)
    requires IsRun(job, run)
    ensures Inv(job, run[|run| - 1])
  {
    if |run| == 1 {
      InvStart(job);
    } else {
      var last := |run| - 1;
      hide Inv, Follows;
      InvRun(job, run[..last]);
      InvFollows(job, run[last - 1], run[last]);
    }
  }

  // ----- what holds when it returns

  lemma {:induction false} AllDone(tasks: seq<Task>)
    requires forall j :: 0 <= j < |tasks| ==> tasks[j].done
    ensures Done(tasks) == multiset(Calls(tasks))
  {
    if tasks != [] {
      var last := |tasks| - 1;
      AllDone(tasks[..last]);
      assert tasks == tasks[..last] + [tasks[last]];
      hide Calls, Done;
      CallsNext(tasks[..last], tasks[last]);
    }
  }

  lemma {:induction false} HitsJoin(a: seq<Range>, b: seq<Range>, x: int)
    ensures Hits(a + b, x) == Hits(a, x) + Hits(b, x)
    decreases |b|
  {
    if b == [] {
      assert a + b == a;
    } else {
      assert (a + b)[..|a + b| - 1] == a + b[..|b| - 1];
      HitsJoin(a, b[..|b| - 1], x);
    }
  }

  /** In whatever order calls are made, they hit the same. */
  lemma {:induction false} HitsInAnyOrder(a: seq<Range>, b: seq<Range>, x: int)
    requires multiset(a) == multiset(b)
    ensures Hits(a, x) == Hits(b, x)
    decreases |a|
  {
    assert |multiset(a)| == |a| && |multiset(b)| == |b|;
    if a != [] {
      var init, r := a[..|a| - 1], a[|a| - 1];
      assert a == init + [r];
      assert r in multiset(b);
      var i :| 0 <= i < |b| && b[i] == r;
      var before, behind := b[..i], b[i + 1..];
      assert b == before + [r] + behind;
      hide Hits;
      HitsJoin(init, [r], x);
      HitsJoin(before + [r], behind, x);
      HitsJoin(before, [r], x);
      HitsJoin(before, behind, x);
      SameLeft(init, before, behind, r);
      HitsInAnyOrder(init, before + behind, x);
    }
  }

  lemma SameLeft(init: seq<Range>, before: seq<Range>, behind: seq<Range>, r: Range)
    requires multiset(init + [r]) == multiset(before + [r] + behind)
    ensures multiset(init) == multiset(before + behind)
  {
    assert multiset(init) == multiset(init + [r]) - multiset{r};
    assert multiset(before + behind) == multiset(before + [r] + behind) - multiset{r};
  }

  lemma SameCover(job: Job, a: seq<Range>, b: seq<Range>)
    requires multiset(a) == multiset(b)
    ensures Covers(job, a) <==> Covers(job, b)
  {
    forall x ensures Hits(a, x) == Hits(b, x) {
      HitsInAnyOrder(a, b, x);
    }
  }

  /** The calls of a loop of n rounds, or the direct one. */
  function Made(job: Job, n: nat): seq<Range> {
    if Direct(job) then [Range(job.first, job.last)] else Cuts(job, n)
  }

  /** However caller and tasks interleave: once it has returned, every task is done, the calls made are those of the loop, each
      once, and they cover the range, each number once, exactly if there was nothing to cut, or partitions have a size and fit. */
  lemma ReturnsWhenAllIsDone(job: Job, run: seq<State>)
    requires IsRun(job, run) && run[|run| - 1].pc.Returned?
    ensures var s := run[|run| - 1];
      && (forall k :: 0 <= k < |s.tasks| ==> s.tasks[k].done)
      && (Direct(job) || Ends(job, |s.tasks|))
      && multiset(s.calls) == multiset(Made(job, |s.tasks|))
      && (Covers(job, s.calls) <==> Sound(job))
  {
    var s := run[|run| - 1];
    InvRun(job, run);
    AllDone(s.tasks);
    if Direct(job) {
      DirectCovers(job);
    } else {
      CoversExactlyIfSound(job, |s.tasks|);
    }
    SameCover(job, s.calls, Made(job, |s.tasks|));
  }

  /** No call is made twice, in any state: a sound job has made part of its plan. */
  lemma NeverTwice(job: Job, run: seq<State>)
    requires Sound(job) && IsRun(job, run)
    ensures multiset(run[|run| - 1].calls) <= multiset(Plan(job))
  {
    InvRun(job, run);
    var s := run[|run| - 1];
    var n := |s.tasks|;
    DoneWithin(s.tasks);
    if !Direct(job) {
      SoundEnds(job);
      assert n <= Rounds(job);
      CutsPrefix(job, n, Rounds(job));
    }
  }

  lemma {:induction false} DoneWithin(tasks: seq<Task>)
    ensures Done(tasks) <= multiset(Calls(tasks))
  {
    if tasks != [] {
      var last := |tasks| - 1;
      DoneWithin(tasks[..last]);
      assert tasks == tasks[..last] + [tasks[last]];
      hide Calls, Done;
      CallsNext(tasks[..last], tasks[last]);
    }
  }

  lemma {:induction false} CutsPrefix(job: Job, k: nat, n: nat)
    requires k <= n
    ensures multiset(Cuts(job, k)) <= multiset(Cuts(job, n))
    decreases n
  {
    hide Start;
    if k < n {
      CutsPrefix(job, k, n - 1);
      var r := Range(Start(job, n - 1), Start(job, n));
      assert Cuts(job, n) == Cuts(job, n - 1) + [r];
      hide Cuts;
      assert multiset(Cuts(job, n)) == multiset(Cuts(job, n - 1)) + multiset{r};
    }
  }

  // ----- it does return

  /** Until it has returned, some step is enabled. */
  lemma NeverStuck(job: Job, s: State)
    requires !s.pc.Returned?
    ensures exists step :: Enabled(s, step)
  {
    assert Enabled(s, Caller) || (s.pc.Joining? && Enabled(s, Work(s.pc.k)));
  }

  /** An upper bound on the steps left, if the loop ends after n rounds. */
  function Rank(n: nat, s: State): int {
    match s.pc
    case Choosing => 3 * n + 3
    case Spawning(i) => 3 * (n - |s.tasks|) + |s.tasks| + Idle(s.tasks) + 2
    case Joining(k) => |s.tasks| - k + Idle(s.tasks) + 1
    case Returned => Idle(s.tasks)
  }

  /** The loop makes n rounds, if it is made at all. */
  ghost predicate Within(job: Job, n: nat) { Direct(job) || Ends(job, n) }

  /** It drops with every step. */
  lemma RankDrops(job: Job, n: nat, s: State, step: Step)
    requires Within(job, n) && Inv(job, s) && Enabled(s, step)
    ensures Rank(n, s) > Rank(n, Exec(job, s, step)) >= 0
  {
    match step {
      case Work(k) =>
        WorkDone(s.tasks, k);
        if s.pc.Spawning? { assert |s.tasks| <= n; }
      case Caller => CallerRankDrops(job, n, s);
    }
  }

  lemma CallerRankDrops(job: Job, n: nat, s: State)
    requires Within(job, n) && Inv(job, s) && Enabled(s, Caller)
    ensures Rank(n, s) > Rank(n, CallerStep(job, s)) >= 0
  {
    hide Cuts, Calls, Start;
    match s.pc {
      case Spawning(i) =>
        assert |s.tasks| <= n;
        if i < job.last {
          CallsNext(s.tasks, Task(Range(i, End(job, i)), false));
        }
      case _ =>
    }
  }

  /** If the loop ends after n rounds, a run is over after 3 n + 3 steps, in whatever order. */
  lemma {:induction false} EveryRunEnds(job: Job, n: nat, run: seq<State>)
    requires Within(job, n) && IsRun(job, run)
    ensures |run| - 1 <= 3 * n + 3 - Rank(n, run[|run| - 1]) <= 3 * n + 3
  {
    hide Inv, Follows, Within;
    if |run| == 1 {
      assert Idle(run[0].tasks) == 0;
    } else {
      var last := |run| - 1;
      EveryRunEnds(job, n, run[..last]);
      InvRun(job, run[..last]);
      FollowsLower(job, n, run[last - 1], run[last]);
    }
  }

  lemma FollowsLower(job: Job, n: nat, s: State, next: State)
    requires Within(job, n) && Inv(job, s) && Follows(job, s, next)
    ensures Rank(n, s) > Rank(n, next) >= 0
  {
    var step :| Enabled(s, step) && next == Exec(job, s, step);
    hide Inv, Enabled, Exec, Rank, Within;
    RankDrops(job, n, s, step);
  }
}
