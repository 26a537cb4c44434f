/** Exactly when the loop of `ParallelFor` ends, partitions that fit or not. */
module ParallelForEnds {
  import opened Arithmetic
  import opened ParallelFor

  // ----- the loop as an orbit

  /** k partitions on from the start, in the arithmetic of size_t. */
  function Orbit(job: Job, k: nat): size_t { (job.first + k * job.size) % SIZE }

  lemma Reduced(x: int, q: int, r: int)
    requires x == r + q * SIZE && 0 <= r < SIZE
    ensures x % SIZE == r
  {
  }

  lemma OrbitNext(job: Job, k: nat)
    ensures Orbit(job, k + 1) == Wrap(Orbit(job, k) + job.size)
  {
    var x := job.first + k * job.size;
    var q := x / SIZE;
    assert x == Orbit(job, k) + q * SIZE;
    assert job.first + (k + 1) * job.size == x + job.size by { assert (k + 1) * job.size == k * job.size + job.size; }
    var y := Orbit(job, k) + job.size;
    if y < SIZE {
      Reduced(x + job.size, q, y);
    } else {
      assert (q + 1) * SIZE == q * SIZE + SIZE;
      Reduced(x + job.size, q + 1, y - SIZE);
    }
  }

  /** Up to the first point of the orbit at or past the end, the loop follows the orbit. */
  lemma {:induction false} FollowsOrbit(job: Job, k: nat)
    requires job.first < job.last && forall j: nat :: j < k ==> Orbit(job, j) < job.last
    ensures Start(job, k) == if Orbit(job, k) <= job.last then Orbit(job, k) else job.last
    ensures Under(job, k)
    decreases k
  {
    if k > 0 {
      FollowsOrbit(job, k - 1);
      assert Orbit(job, k - 1) < job.last;
      OrbitNext(job, k - 1);
    } else {
      Reduced(job.first, 0, job.first);
    }
  }

  /** The first k at which the orbit is at or past the end, at most n. */
  lemma {:induction false} FirstPast(job: Job, n: nat) returns (k: nat)
    requires Orbit(job, n) >= job.last
    ensures k <= n && Orbit(job, k) >= job.last && forall j: nat :: j < k ==> Orbit(job, j) < job.last
  {
    if j: nat :| j < n && Orbit(job, j) >= job.last {
      k := FirstPast(job, j);
    } else {
      k := n;
    }
  }

  lemma EndsExactlyIfOrbitGetsThere(job: Job)
    requires job.first < job.last
    ensures (exists n: nat :: Ends(job, n)) <==> exists k: nat :: Orbit(job, k) >= job.last
  {
    if k: nat :| Orbit(job, k) >= job.last {
      var n := FirstPast(job, k);
      FollowsOrbit(job, n);
      assert Ends(job, n);
    } else {
      forall n: nat ensures !Ends(job, n) {
        FollowsOrbit(job, n);
        assert Orbit(job, n) < job.last;
      }
    }
  }

  // ----- where the orbit gets

  function TwoTo(m: nat): (r: nat)
    ensures r > 0
  {
    if m == 0 then 1 else 2 * TwoTo(m - 1)
  }

  /** The greatest power of two that divides n, as an exponent. */
  function Twos(n: nat): nat
    requires n > 0
  {
    if n % 2 == 1 then 0 else 1 + Twos(n / 2)
  }

  function OddPart(n: nat): nat
    requires n > 0
  {
    if n % 2 == 1 then n else OddPart(n / 2)
  }

  lemma {:induction false} Factored(n: nat)
    requires n > 0
    ensures n == TwoTo(Twos(n)) * OddPart(n) && OddPart(n) % 2 == 1 && TwoTo(Twos(n)) <= n
  {
    if n % 2 == 0 {
      Factored(n / 2);
      var g, o := TwoTo(Twos(n / 2)), OddPart(n / 2);
      assert n == 2 * (g * o) == (2 * g) * o;
    }
  }

  lemma {:induction false} TwoToSum(a: nat, b: nat)
    ensures TwoTo(a + b) == TwoTo(a) * TwoTo(b)
  {
    if a > 0 {
      TwoToSum(a - 1, b);
      Doubled(TwoTo(a - 1), TwoTo(b));
      assert TwoTo(a + b) == 2 * TwoTo(a + b - 1);
    }
  }

  lemma {:induction false} TwoToGrows(a: nat, b: nat)
    requires a <= b
    ensures TwoTo(a) <= TwoTo(b)
    decreases b
  {
    if a < b {
      TwoToGrows(a, b - 1);
    } else if a > 0 {
      TwoToGrows(a - 1, b - 1);
    }
  }

  lemma SizeIs()
    ensures SIZE == TwoTo(64)
  {
    assert TwoTo(8) == 0x100;
    TwoToSum(8, 8);
    TwoToSum(16, 16);
    TwoToSum(32, 32);
  }

  lemma Doubled(p: int, h: nat)
    ensures (2 * p) * h == p * (2 * h) == 2 * (p * h)
  {
  }

  /** Multiples of an odd number reach every remainder of a power of two. */
  lemma {:induction false} OddSolves(o: nat, m: nat, t: int) returns (k: nat, q: int)
    requires o % 2 == 1
    ensures k * o == t + q * TwoTo(m)
    decreases m
  {
    if m == 0 {
      k, q := 0, -t;
    } else {
      var h := TwoTo(m - 1);
      k, q := OddSolves(o, m - 1, t);
      if q % 2 == 0 {
        Doubled(q / 2, h);
        q := q / 2;
      } else {
        Spread(k, h, o);
        Spread(q, o, h);
        Doubled((q + o) / 2, h);
        assert (k + h) * o == t + 2 * ((q + o) / 2) * h by { assert h * o == o * h; }
        k, q := k + h, (q + o) / 2;
      }
    }
  }

  /** The step of the orbit: the greatest power of two in the partition size. */
  function Stride(job: Job): (g: nat)
    requires 0 < job.size
    ensures g > 0
  {
    TwoTo(Twos(job.size))
  }

  /** The stride divides 2^64. */
  lemma StrideDivides(job: Job) returns (m: nat)
    requires 0 < job.size
    ensures SIZE == Stride(job) * TwoTo(m)
  {
    SizeIs();
    Factored(job.size);
    if Twos(job.size) >= 64 {
      TwoToGrows(64, Twos(job.size));
    }
    m := 64 - Twos(job.size);
    TwoToSum(Twos(job.size), m);
  }

  /** The greatest word that is a number of strides away from the start. */
  function Furthest(job: Job): int
    requires 0 < job.size
  {
    SIZE - Stride(job) + job.first % Stride(job)
  }

  /** A number below g * n with remainder r is at most g * (n - 1) + r. */
  lemma Bounded(x: nat, g: nat, n: nat)
    requires 0 < g && x < g * n
    ensures x <= g * n - g + x % g
  {
    var q := x / g;
    assert x == g * q + x % g;
    if q >= n {
      Scaled(n, q, g);
    } else {
      assert g * (q + 1) == g * q + g;
      assert g * (q + 1) <= g * n by { Scaled(q + 1, n, g); }
    }
  }

  lemma Scaled(a: nat, b: nat, g: nat)
    requires a <= b
    ensures g * a <= g * b
  {
  }

  lemma OrbitBounded(job: Job, k: nat)
    requires 0 < job.size
    ensures Orbit(job, k) <= Furthest(job)
  {
    hide TwoTo, Twos, OddPart;
    var m := StrideDivides(job);
    OrbitRemainder(job, k, TwoTo(m));
    Bounded(Orbit(job, k), Stride(job), TwoTo(m));
  }

  /** The orbit keeps the remainder that it starts with. */
  lemma OrbitRemainder(job: Job, k: nat, n: nat)
    requires 0 < job.size && SIZE == Stride(job) * n
    ensures Orbit(job, k) % Stride(job) == job.first % Stride(job)
  {
    var g, o := Stride(job), OddPart(job.size);
    var f, r, q := job.first / g, job.first % g, (job.first + k * job.size) / SIZE;
    Factored(job.size);
    assert job.first == g * f + r;
    Reduces(job.first, k, job.size, q, g, f, r, o, n);
    SameRemainder(Orbit(job, k), f + k * o - q * n, g, r);
  }

  lemma Reduces(first: int, k: int, size: int, q: int, g: int, f: int, r: int, o: int, n: int)
    requires first == g * f + r && size == g * o && SIZE == g * n
    ensures first + k * size - q * SIZE == (f + k * o - q * n) * g + r
  {
    assert k * (g * o) == g * (k * o) && q * (g * n) == g * (q * n);
    Spread3(g, f, k * o, q * n);
  }

  lemma Spread3(g: int, a: int, b: int, c: int)
    ensures g * a + g * b - g * c == (a + b - c) * g
  {
  }

  /** The orbit reaches the furthest word it can. */
  lemma OrbitReaches(job: Job) returns (k: nat)
    requires 0 < job.size
    ensures Orbit(job, k) == Furthest(job)
  {
    Factored(job.size);
    var m := StrideDivides(job);
    hide TwoTo, Twos, OddPart;
    var q;
    k, q := Solved(job.first, job.size, Stride(job), OddPart(job.size), m);
    Reduced(job.first + k * job.size, q, Furthest(job));
  }

  lemma Solved(first: nat, size: nat, g: nat, o: nat, m: nat) returns (k: nat, q: int)
    requires 0 < g && size == g * o && o % 2 == 1 && SIZE == g * TwoTo(m)
    ensures first + k * size == SIZE - g + first % g + q * SIZE
  {
    hide TwoTo;
    var f, r := first / g, first % g;
    k, q := OddSolves(o, m, TwoTo(m) - 1 - f);
    assert first == g * f + r;
    Lifted(first, size, g, k, o, TwoTo(m), f, r, q);
  }

  lemma Lifted(first: int, size: int, g: nat, k: nat, o: nat, n: nat, f: nat, r: int, q: int)
    requires k * o == n - 1 - f + q * n && first == g * f + r && size == g * o && SIZE == g * n
    ensures first + k * size == SIZE - g + r + q * SIZE
  {
    assert k * (g * o) == g * (k * o);
    assert g * (n - 1 - f + q * n) == g * n - g - g * f + g * (q * n);
    assert g * (q * n) == q * (g * n);
  }

  /** `ParallelFor` returns exactly if it calls directly, has nothing to cut, or the end is not beyond the furthest word that
      partitions of this size can lead to. */
  lemma ReturnsExactly(job: Job)
    ensures Returns(job) <==> Direct(job) || job.first >= job.last || (0 < job.size && job.last <= Furthest(job))
  {
    if job.first >= job.last {
      assert Ends(job, 0);
    } else if job.size == 0 {
      forall n: nat ensures !Ends(job, n) {
        StandsStill(job, n);
      }
    } else {
      EndsExactlyIfOrbitGetsThere(job);
      var k := OrbitReaches(job);
      forall j: nat ensures Orbit(job, j) <= Furthest(job) {
        OrbitBounded(job, j);
      }
    }
  }

  // ----- an example of each way to fail

  const ENDLESS := Job(SIZE - 4, SIZE - 1, 2)
  const TWICE := Job(SIZE - 5, SIZE - 1, 3)

  /** Three numbers by twos, just below 2^64: the loop goes round for ever. */
  lemma CanRunForEver()
    ensures !Returns(ENDLESS)
  {
    assert Twos(2) == 1 + Twos(1) == 1;
    assert TwoTo(1) == 2;
    ReturnsExactly(ENDLESS);
  }

  /** Four numbers by threes: the loop ends, having been over some of them twice. */
  lemma CanCoverTwice()
    ensures Returns(TWICE) && !Direct(TWICE) && forall n: nat :: Ends(TWICE, n) ==> !Covers(TWICE, Cuts(TWICE, n))
  {
    assert Twos(3) == 0;
    assert Count(TWICE) == 2;
    ReturnsExactly(TWICE);
    forall n: nat | Ends(TWICE, n) ensures !Covers(TWICE, Cuts(TWICE, n)) {
      CoversExactlyIfSound(TWICE, n);
    }
  }
}
