/**
 `ParallelFor`: cutting a range into partitions, running each as a task, and joining them all. First the loops, in the
 arithmetic of size_t; then the caller and its tasks as a machine whose steps interleave in any order.
 */
module ParallelFor {

  const SIZE: int := 0x1_0000_0000_0000_0000 // size_t counts modulo 2^64

  type size_t = n: int | 0 <= n < SIZE

  function Wrap(n: int): size_t
    requires -SIZE <= n < 2 * SIZE
  {
    if n < 0 then n + SIZE else if n < SIZE then n else n - SIZE
  }

  /** A call of the function: the arguments it gets. */
  datatype Range = Range(first: size_t, last: size_t)

  predicate Contains(r: Range, x: int) { r.first <= x < r.last }

  datatype Job = Job(first: size_t, last: size_t, size: size_t)

  /** Is the function called directly, without tasks? */
  predicate Direct(job: Job) { Wrap(job.last - job.first) < job.size }

  /** Where the partition that starts at i ends. */
  function End(job: Job, i: size_t): size_t {
    var end := Wrap(i + job.size);
    if end > job.last then job.last else end
  }

  /** A range is handed on whole exactly if it is shorter than a partition; one that ends before it starts, if it is so in
      the arithmetic of size_t. */
  lemma DirectExactly(job: Job)
    ensures job.first <= job.last ==> (Direct(job) <==> job.last - job.first < job.size)
    ensures job.first > job.last ==> (Direct(job) <==> job.last - job.first + 0x1_0000_0000_0000_0000 < job.size)
  {
  }

  // ----- when the cutting is sound

  /** The number of partitions: the quotient, rounded up. */
  function Count(job: Job): nat
    requires job.first <= job.last && 0 < job.size
  {
    (job.last - job.first + job.size - 1) / job.size
  }

  /** The last partition, taken whole, ends where size_t can still say so. */
  predicate Fits(job: Job)
    requires job.first <= job.last && 0 < job.size
  {
    job.first + Count(job) * job.size < SIZE
  }

  /** There is nothing to cut, or partitions are not empty and fit. */
  predicate Sound(job: Job) { job.first < job.last && !Direct(job) ==> 0 < job.size && Fits(job) }

  /** Where the loop is after k rounds; it stops at `last`. */
  function Start(job: Job, k: nat): size_t {
    if k == 0 then job.first
    else
      var i := Start(job, k - 1);
      if i < job.last then End(job, i) else i
  }

  /** k partitions on from the start, were there no end to the range or to size_t. */
  function Ahead(job: Job, k: nat): int {
    if k == 0 then job.first else Ahead(job, k - 1) + job.size
  }

  lemma {:induction false} AheadIs(job: Job, k: nat)
    ensures Ahead(job, k) == job.first + k * job.size
  {
    if k > 0 {
      AheadIs(job, k - 1);
    }
  }

  lemma {:induction false} AheadGrows(job: Job, j: nat, k: nat)
    requires j <= k
    ensures Ahead(job, j) <= Ahead(job, k)
    ensures 0 < job.size && j < k ==> Ahead(job, j) + job.size <= Ahead(job, k)
    decreases k
  {
    if j < k {
      AheadGrows(job, j, k - 1);
    }
  }

  lemma Quotient(total: nat, size: nat, k: nat)
    requires 0 < size
    ensures k < (total + size - 1) / size <==> k * size < total
  {
    var n := (total + size - 1) / size;
    assert n * size <= total + size - 1 < n * size + size;
    if k < n {
      assert (k + 1) * size <= n * size by { MulGrows(k + 1, n, size); }
      assert (k + 1) * size == k * size + size;
    } else {
      MulGrows(n, k, size);
    }
  }

  lemma MulGrows(a: nat, b: nat, c: nat)
    requires a <= b
    ensures a * c <= b * c
  {
  }

  /** The number of partitions is how many start before the end. */
  lemma CountIs(job: Job, k: nat)
    requires job.first <= job.last && 0 < job.size
    ensures k < Count(job) <==> Ahead(job, k) < job.last
  {
    Quotient(job.last - job.first, job.size, k);
    AheadIs(job, k);
  }

  lemma FitsIs(job: Job)
    requires job.first <= job.last && 0 < job.size
    ensures Fits(job) <==> Ahead(job, Count(job)) < SIZE
  {
    AheadIs(job, Count(job));
  }

  /** While partitions fit, the loop is where it should be. */
  lemma {:induction false} StartIs(job: Job, k: nat)
    requires job.first <= job.last && 0 < job.size
    requires k <= Count(job) && Ahead(job, k) < SIZE
    ensures Start(job, k) == if Ahead(job, k) <= job.last then Ahead(job, k) else job.last
    decreases k
  {
    if k > 0 {
      StartIs(job, k - 1);
      CountIs(job, k - 1);
    }
  }

  lemma {:induction false} StaysAtEnd(job: Job, n: nat, k: nat)
    requires n <= k && Start(job, n) == job.last
    ensures Start(job, k) == job.last
    decreases k
  {
    if n < k {
      StaysAtEnd(job, n, k - 1);
    }
  }

  lemma MovesOn(job: Job, k: nat)
    requires job.first <= job.last && 0 < job.size && Fits(job) && Start(job, k) < job.last
    ensures Start(job, k) < Start(job, k + 1)
  {
    var n := Count(job);
    FitsIs(job);
    CountIs(job, n);
    StartIs(job, n);
    hide Fits, Count;
    if k < n {
      AheadGrows(job, k + 1, n);
      AheadGrows(job, k, k + 1);
      StartIs(job, k);
      StartIs(job, k + 1);
      hide Start;
      assert Ahead(job, k + 1) == Ahead(job, k) + job.size;
    } else {
      StaysAtEnd(job, n, k);
    }
  }

  /** On the task path, every round of the loop moves on exactly if partitions have a size and fit. */
  lemma MovesOnExactlyIfSound(job: Job)
    requires job.first <= job.last && !Direct(job)
    ensures Sound(job) <==> forall k: nat :: Start(job, k) < job.last ==> Start(job, k) < Start(job, k + 1)
  {
    if job.first == job.last {
      forall k: nat ensures Start(job, k) == job.last {
        StaysAtEnd(job, 0, k);
      }
    } else if job.size == 0 {
      assert Start(job, 0) == Start(job, 0 + 1);
    } else {
      if Fits(job) {
        forall k: nat | Start(job, k) < job.last ensures Start(job, k) < Start(job, k + 1) {
          MovesOn(job, k);
        }
      } else {
        GoesBack(job);
      }
    }
  }

  /** If they do not fit, the last round goes back: the partition that it hands out ends before it starts. */
  lemma GoesBack(job: Job)
    requires job.first <= job.last && 0 < job.size && !Fits(job)
    ensures Count(job) > 0 && Start(job, Count(job)) < Start(job, Count(job) - 1) < job.last
  {
    var n := Count(job);
    FitsIs(job);
    CountIs(job, 0);
    CountIs(job, n - 1);
    StartIs(job, n - 1);
  }

  // ----- what is to be called

  /** The rounds the loop makes. */
  function Rounds(job: Job): nat {
    if job.first < job.last && 0 < job.size then Count(job) else 0
  }

  /** The partitions of the first k rounds. */
  function Cuts(job: Job, k: nat): seq<Range> {
    if k == 0 then [] else Cuts(job, k - 1) + [Range(Start(job, k - 1), Start(job, k))]
  }

  function Plan(job: Job): seq<Range> {
    if Direct(job) then [Range(job.first, job.last)] else Cuts(job, Rounds(job))
  }

  lemma Planned(job: Job)
    ensures Direct(job) ==> Plan(job) == [Range(job.first, job.last)]
    ensures !Direct(job) ==> Plan(job) == Cuts(job, Rounds(job))
    ensures Start(job, 0) == job.first && Cuts(job, 0) == []
    ensures job.first >= job.last ==> Rounds(job) == 0
  {
  }

  lemma NextCut(job: Job, k: nat)
    requires Start(job, k) < job.last
    ensures Start(job, k + 1) == End(job, Start(job, k))
    ensures Cuts(job, k + 1) == Cuts(job, k) + [Range(Start(job, k), Start(job, k + 1))]
  {
  }

  lemma {:induction false} CutsAt(job: Job, k: nat, i: nat)
    requires i < k
    ensures |Cuts(job, k)| == k && Cuts(job, k)[i] == Range(Start(job, i), Start(job, i + 1))
    decreases k
  {
    if i < k - 1 {
      CutsAt(job, k - 1, i);
    } else if k > 1 {
      CutsAt(job, k - 1, 0);
    }
  }

  /** The loop reaches the end after its rounds, not before. */
  lemma RoundsReachEnd(job: Job, k: nat)
    requires Sound(job) && !Direct(job) && job.first < job.last
    ensures Start(job, k) < job.last <==> k < Rounds(job)
    ensures k <= Rounds(job) ==> Start(job, k) == if Ahead(job, k) <= job.last then Ahead(job, k) else job.last
  {
    FitsIs(job);
    CountIs(job, k);
    CountIs(job, Rounds(job));
    if k <= Rounds(job) {
      AheadGrows(job, k, Rounds(job));
      StartIs(job, k);
    } else {
      StartIs(job, Rounds(job));
      StaysAtEnd(job, Rounds(job), k);
    }
  }

  lemma PlanAt(job: Job, i: nat)
    requires Sound(job) && !Direct(job) && job.first < job.last && i < Count(job)
    ensures |Plan(job)| == Count(job)
    ensures var end := Ahead(job, i) + job.size;
      Plan(job)[i].first == Ahead(job, i) < job.last &&
      Plan(job)[i].last == if end <= job.last then end else job.last
  {
    assert |Plan(job)| == Count(job) && Plan(job)[i] == Range(Start(job, i), Start(job, i + 1)) by {
      CutsAt(job, Count(job), i);
    }
    assert i < Rounds(job);
    hide Plan, Cuts, Start, Sound, Direct, Count, Rounds;
    RoundsReachEnd(job, i);
    RoundsReachEnd(job, i + 1);
  }

  /** On the task path the plan cuts the range: its partitions follow each other from the first to the last, none is empty,
      and all are of the size asked for, but for the last, which may be smaller. */
  lemma PlanCutsRange(job: Job)
    requires Sound(job) && !Direct(job) && job.first < job.last
    ensures var plan := Plan(job);
      && |plan| == Count(job) > 0 && plan[0].first == job.first && plan[|plan| - 1].last == job.last
      && (forall i :: 0 <= i < |plan| - 1 ==> plan[i].last == plan[i + 1].first == plan[i].first + job.size)
      && (forall i :: 0 <= i < |plan| ==> 0 < plan[i].last - plan[i].first <= job.size)
  {
    var n := Count(job);
    hide Plan, Sound, Direct, Count;
    CountIs(job, 0);
    CountIs(job, n);
    PlanAt(job, 0);
    PlanAt(job, n - 1);
    forall i | 0 <= i < n
      ensures 0 < Plan(job)[i].last - Plan(job)[i].first <= job.size
      ensures i < n - 1 ==> Plan(job)[i].last == Plan(job)[i + 1].first == Plan(job)[i].first + job.size
    {
      PlanAt(job, i);
      if i < n - 1 {
        PlanAt(job, i + 1);
      }
    }
  }

  /** How many of the calls get x. */
  function Hits(calls: seq<Range>, x: int): nat {
    if calls == [] then 0 else Hits(calls[..|calls| - 1], x) + if Contains(calls[|calls| - 1], x) then 1 else 0
  }

  /** As long as partitions fit, each number that the loop has passed is in one call, and no other. */
  lemma {:induction false} CutsHitOnce(job: Job, k: nat, x: int)
    requires job.first <= job.last && 0 < job.size && k <= Count(job) && Ahead(job, k) < SIZE
    ensures Hits(Cuts(job, k), x) == if job.first <= x < Start(job, k) then 1 else 0
    ensures job.first <= Start(job, k)
    decreases k
  {
    if k > 0 {
      CutsHitOnce(job, k - 1, x);
      CountIs(job, k - 1);
      StartIs(job, k - 1);
      StartIs(job, k);
      hide Start, Ahead, Count;
      CutsGrow(job, k - 1, x);
    }
  }

  lemma CutsGrow(job: Job, k: nat, x: int)
    ensures Hits(Cuts(job, k + 1), x) == Hits(Cuts(job, k), x) + if Start(job, k) <= x < Start(job, k + 1) then 1 else 0
  {
    hide Start;
    assert Cuts(job, k + 1)[..|Cuts(job, k + 1)| - 1] == Cuts(job, k);
  }

  /** Each number of the range is in exactly one of the calls, and no other number is in any. */
  ghost predicate Covers(job: Job, calls: seq<Range>) {
    forall x :: Hits(calls, x) == if job.first <= x < job.last then 1 else 0
  }

  /** A direct call covers the range. */
  lemma DirectCovers(job: Job)
    ensures Covers(job, [Range(job.first, job.last)])
  {
    var calls := [Range(job.first, job.last)];
    forall x ensures Hits(calls, x) == if job.first <= x < job.last then 1 else 0 {
      assert calls[..0] == [];
    }
  }

  /** The plan covers the range, on either path. */
  lemma PlanCovers(job: Job)
    requires Sound(job)
    ensures Covers(job, Plan(job))
  {
    if Direct(job) {
      DirectCovers(job);
    } else if job.first < job.last {
      RoundsReachEnd(job, Rounds(job));
      FitsIs(job);
      forall x ensures Hits(Plan(job), x) == if job.first <= x < job.last then 1 else 0 {
        CutsHitOnce(job, Rounds(job), x);
      }
    }
  }

  // ----- what the loop covers, if it ends

  /** The first n rounds all find something to hand out. */
  ghost predicate Under(job: Job, n: nat) {
    forall k: nat :: k < n ==> Start(job, k) < job.last
  }

  /** The loop ends after n rounds. */
  ghost predicate Ends(job: Job, n: nat) { Start(job, n) >= job.last && Under(job, n) }

  lemma Stopped(job: Job, n: nat)
    requires Start(job, n) >= job.last && Under(job, n)
    ensures Ends(job, n)
  {
  }

  lemma GoesOn(job: Job, m: nat, n: nat)
    requires Ends(job, n) && m <= n && Under(job, m) && Start(job, m) < job.last
    ensures m < n && Under(job, m + 1)
  {
  }

  ghost predicate Returns(job: Job) { Direct(job) || exists n: nat :: Ends(job, n) }

  lemma SoundEnds(job: Job)
    requires Sound(job) && !Direct(job)
    ensures Ends(job, Rounds(job))
  {
    if job.first < job.last {
      RoundsReachEnd(job, Rounds(job));
      forall k: nat | k < Rounds(job) ensures Start(job, k) < job.last {
        RoundsReachEnd(job, k);
      }
    }
  }

  lemma EndsOnce(job: Job, m: nat, n: nat)
    requires Ends(job, m) && Ends(job, n)
    ensures m == n
  {
  }

  /** A loop that gets from below or at x to above it makes a call with x on its way. */
  lemma {:induction false} Crosses(job: Job, j: nat, k: nat, x: int)
    requires j <= k
    ensures Hits(Cuts(job, k), x) >= Hits(Cuts(job, j), x)
    ensures Start(job, j) <= x < Start(job, k) ==> Hits(Cuts(job, k), x) > Hits(Cuts(job, j), x)
    decreases k
  {
    hide Start, Cuts, Hits;
    if j < k {
      Crosses(job, j, k - 1, x);
      CutsGrow(job, k - 1, x);
    }
  }

  /** A loop without a partition size does not move. */
  lemma {:induction false} StandsStill(job: Job, k: nat)
    requires job.size == 0
    ensures Start(job, k) == job.first
    decreases k
  {
    if k > 0 {
      StandsStill(job, k - 1);
    }
  }

  lemma {:induction false} StaysBehind(job: Job, n: nat, k: nat)
    requires n <= k && Start(job, n) >= job.last
    ensures Start(job, k) >= job.last
    decreases k
  {
    if n < k {
      StaysBehind(job, n, k - 1);
    }
  }

  /** If partitions do not fit and the loop ends all the same, it has been over some number twice. */
  lemma HitTwice(job: Job, n: nat) returns (x: int)
    requires job.first < job.last && 0 < job.size && !Direct(job) && !Fits(job) && Ends(job, n)
    ensures job.first <= x < job.last && Hits(Cuts(job, n), x) > 1
  {
    var c := Count(job);
    GoesBack(job);
    CountIs(job, c - 1);
    StartIs(job, c - 1);
    assert c > 1 by { FitsIs(job); }
    AheadGrows(job, 0, c - 1);
    x := Start(job, c - 1) - 1;
    if n < c {
      StaysBehind(job, n, c);
    }
    CutsHitOnce(job, c - 1, x);
    hide Ends, Hits, Cuts;
    Crosses(job, c - 1, c, x);
    Crosses(job, c, n, x);
  }

  /** A loop that ends covers the range exactly if there is nothing to cut, or partitions have a size and fit. */
  lemma CoversExactlyIfSound(job: Job, n: nat)
    requires !Direct(job) && Ends(job, n)
    ensures Covers(job, Cuts(job, n)) <==> Sound(job)
  {
    if Sound(job) {
      SoundEnds(job);
      EndsOnce(job, n, Rounds(job));
      PlanCovers(job);
    } else if job.size == 0 {
      StandsStill(job, n);
    } else {
      var x := HitTwice(job, n);
    }
  }

  // ----- the loops

  /** A task: the call its thread makes, and whether that has come back. */
  class Coro {
    const call: Range
    const threaded: bool
    var done: bool

    /** `StartCoroFunc`. The thread may be done at once, or later. */
    constructor (call: Range, done: bool)
      ensures this.call == call && threaded && this.done == done
    {
      this.call := call;
      threaded := true;
      this.done := done;
    }
  }

  /** Joining a thread waits until it is done. */
  method CoroJoin(coro: Coro?)
    modifies coro
    ensures coro != null ==> coro.done == (old(coro.done) || coro.threaded)
  {
    if coro == null {
      return;
    }
    if coro.threaded {
      coro.done := true;
    }
  }

  /** The tasks make the calls given, one each. */
  ghost predicate AreTasks(tasks: seq<Coro>, calls: seq<Range>) {
    && |tasks| == |calls|
    && (forall i :: 0 <= i < |tasks| ==> tasks[i].call == calls[i] && tasks[i].threaded)
    && (forall i, j :: 0 <= i < j < |tasks| ==> tasks[i] != tasks[j])
  }

  lemma TaskAdded(tasks: seq<Coro>, calls: seq<Range>, coro: Coro)
    requires AreTasks(tasks, calls) && coro !in tasks && coro.threaded
    ensures AreTasks(tasks + [coro], calls + [coro.call])
  {
  }

  /** The loop that hands out partitions, in n rounds. */
  method HandOut(job: Job, quick: nat -> bool, ghost n: nat) returns (tasks: seq<Coro>)
    requires Ends(job, n)
    ensures Ends(job, |tasks|) && AreTasks(tasks, Cuts(job, |tasks|))
    ensures forall k :: 0 <= k < |tasks| ==> fresh(tasks[k])
  {
    assert Start(job, 0) == job.first && Cuts(job, 0) == [] && Under(job, 0) && AreTasks([], []);
    hide Cuts, Start, Ends, Under, AreTasks;
    tasks := [];
    var i := job.first;
    while i < job.last
      invariant |tasks| <= n && i == Start(job, |tasks|)
      invariant Under(job, |tasks|)
      invariant AreTasks(tasks, Cuts(job, |tasks|))
      invariant forall k :: 0 <= k < |tasks| ==> fresh(tasks[k])
      decreases n - |tasks|
    {
      ghost var m := |tasks|;
      GoesOn(job, m, n);
      NextCut(job, m);
      var start := i;
      var end := Wrap(start + job.size);
      if end > job.last {
        end := job.last;
      }
      assert end == End(job, start);
      hide End, Wrap;
      var coro := new Coro(Range(start, end), quick(|tasks|));
      TaskAdded(tasks, Cuts(job, m), coro);
      tasks := tasks + [coro];
      i := end;
    }
    Stopped(job, |tasks|);
  }

  /** Calls made directly, and tasks, all joined. `quick` says which tasks are done before they are joined. */
  method ParallelFor(job: Job, quick: nat -> bool) returns (calls: seq<Range>, tasks: seq<Coro>)
    requires Returns(job)
    ensures Direct(job) ==> calls == [Range(job.first, job.last)] && tasks == []
    ensures !Direct(job) ==> calls == [] && Ends(job, |tasks|) && AreTasks(tasks, Cuts(job, |tasks|))
    ensures job.first <= job.last ==>
      |calls| == (if job.last - job.first < job.size then 1 else 0) && (job.last - job.first >= job.size > 0 ==> tasks != [])
    ensures forall i :: 0 <= i < |tasks| ==> tasks[i].done && fresh(tasks[i])
  {
    calls, tasks := [], [];
    if Wrap(job.last - job.first) < job.size {
      calls := [Range(job.first, job.last)];
      return;
    }
    ghost var n: nat :| Ends(job, n);
    tasks := HandOut(job, quick, n);
    assert tasks == [] ==> job.first >= job.last;
    hide Cuts, Ends;
    for k := 0 to |tasks|
      invariant forall j :: 0 <= j < k ==> tasks[j].done
    {
      CoroJoin(tasks[k]);
    }
  }
}
