/** Expiry and capacity in sequential runs. */
module LruExpiry {
  import opened Domain
  import opened LruModel
  import opened LruSequential

  // ----- eviction drops from the end

  lemma {:induction false} TimeoutLoopDrops(cfg: Config, clock: Readings, r: Run, cnt: nat)
    requires cnt <= MAX_EVICT_BATCH
    ensures var r' := TimeoutLoop(cfg, clock, r, cnt);
      r'.items <= r.items && |r.items| - |r'.items| <= MAX_EVICT_BATCH - cnt && r'.tick >= r.tick
    decreases MAX_EVICT_BATCH - cnt
  {
    if cnt < MAX_EVICT_BATCH && TestLast(cfg, clock, r).0 {
      TimeoutLoopDrops(cfg, clock, RemoveNode(cfg, clock, TestLast(cfg, clock, r).1, true), cnt + 1);
    }
  }

  /** An eviction pass, under any clock, leaves a prefix; a batch pass drops at most 64 items, the other kind two. */
  lemma EvictLeavesPrefix(cfg: Config, clock: Readings, r: Run)
    ensures var r' := Evict(cfg, clock, r);
      r'.items <= r.items && |r.items| - |r'.items| <= (if cfg.batch then MAX_EVICT_BATCH else 2) && r'.tick >= r.tick
  {
    EvictInHalves(cfg, clock, r);
    if cfg.batch {
      TimeoutLoopDrops(cfg, clock, AfterOverload(cfg, r), Overload(cfg, |r.items|));
    }
  }

  // ----- timestamps follow the list order

  /** Timestamps do not increase from head to tail, and none is later than the next clock reading. */
  ghost predicate Aged(clock: Readings, r: Run) {
    && (forall i, j :: 0 <= i < j < |r.items| ==> r.items[i].stamp >= r.items[j].stamp)
    && (forall i :: 0 <= i < |r.items| ==> r.items[i].stamp <= clock(r.tick))
  }

  lemma SetEntryKeepsAged(clock: Readings, r: Run, k: Key, v: Value)
    requires Monotone(clock) && DistinctKeys(r.items) && Aged(clock, r)
    ensures Aged(clock, SetEntryRun(clock, r, k, v))
  {
    var m := WithoutShape(r.items, k);
    var s := SetEntry(r.items, k, v, clock(r.tick));
    assert clock(r.tick) <= clock(r.tick + 1);
    forall i | 0 < i < |s| ensures s[i] == r.items[Skip(m, i - 1)] {
    }
    forall i, j | 0 <= i < j < |s| ensures s[i].stamp >= s[j].stamp {
      if i > 0 { assert Skip(m, i - 1) < Skip(m, j - 1); }
    }
  }

  lemma EvictKeepsAged(cfg: Config, clock: Readings, r: Run)
    requires Monotone(clock) && Aged(clock, r)
    ensures Aged(clock, Evict(cfg, clock, r))
  {
    EvictLeavesPrefix(cfg, clock, r);
    assert clock(r.tick) <= clock(Evict(cfg, clock, r).tick);
  }

  lemma EvictKeepsDistinct(cfg: Config, clock: Readings, r: Run)
    requires DistinctKeys(r.items)
    ensures DistinctKeys(Evict(cfg, clock, r).items)
  {
    EvictLeavesPrefix(cfg, clock, r);
  }

  // ----- what a batch pass achieves

  lemma {:induction false} TimeoutLoopEnds(cfg: Config, clock: Readings, r: Run, cnt: nat)
    requires Monotone(clock) && cnt <= MAX_EVICT_BATCH
    ensures var r' := TimeoutLoop(cfg, clock, r, cnt);
      |r.items| - |r'.items| < MAX_EVICT_BATCH - cnt && cfg.timeout != 0 && r'.items != [] ==>
        r'.tick > r.tick && !LastExpired(cfg, r'.items, clock(r'.tick - 1))
    decreases MAX_EVICT_BATCH - cnt
  {
    if cnt < MAX_EVICT_BATCH && TestLast(cfg, clock, r).0 {
      assert clock(r.tick) <= clock(r.tick + 1);
      TimeoutLoopEnds(cfg, clock, RemoveNode(cfg, clock, TestLast(cfg, clock, r).1, true), cnt + 1);
    }
  }

  /** A batch pass that drops fewer than 64 items ends within the maximum and with nothing expired at its last
      clock reading. */
  lemma BatchEvictCompletes(cfg: Config, clock: Readings, r: Run)
    requires Monotone(clock) && Aged(clock, r) && cfg.batch
    requires |r.items| - |Evict(cfg, clock, r).items| < MAX_EVICT_BATCH
    ensures var r' := Evict(cfg, clock, r);
      && |r'.items| <= cfg.maxSize
      && (cfg.timeout != 0 && r'.items != [] ==>
          r'.tick > r.tick && forall x :: x in r'.items ==> !Expired(cfg, clock(r'.tick - 1), x.stamp))
  {
    var r1, cnt, r' := AfterOverload(cfg, r), Overload(cfg, |r.items|), Evict(cfg, clock, r);
    EvictInHalves(cfg, clock, r);
    TimeoutLoopDrops(cfg, clock, r1, cnt);
    TimeoutLoopEnds(cfg, clock, r1, cnt);
    EvictKeepsAged(cfg, clock, r);
    forall x | cfg.timeout != 0 && x in r'.items ensures !Expired(cfg, clock(r'.tick - 1), x.stamp) {
      var i :| 0 <= i < |r'.items| && r'.items[i] == x;
      assert x.stamp >= r'.items[|r'.items| - 1].stamp;
    }
  }

  // ----- eviction for timeout is invisible

  lemma {:induction false} FindAfterDropLast(cfg: Config, s: seq<Item>, k: Key, now: int, last: int)
    requires cfg.timeout != 0 && LastExpired(cfg, s, last) && last <= now && DistinctKeys(s)
    ensures Find(cfg, DropLast(s), k, now) == Find(cfg, s, k, now)
  {
    if |s| > 1 && s[0].key != k {
      assert DropLast(s)[1..] == DropLast(s[1..]);
      FindAfterDropLast(cfg, s[1..], k, now, last);
    } else if |s| == 1 {
      assert DropLast(s) == [] && s[1..] == [];
    }
  }

  lemma {:induction false} TimeoutLoopInvisible(cfg: Config, clock: Readings, r: Run, cnt: nat, k: Key, now: int)
    requires DistinctKeys(r.items) && cnt <= MAX_EVICT_BATCH
    requires forall i :: r.tick <= i < TimeoutLoop(cfg, clock, r, cnt).tick ==> clock(i) <= now
    ensures Find(cfg, TimeoutLoop(cfg, clock, r, cnt).items, k, now) == Find(cfg, r.items, k, now)
    decreases MAX_EVICT_BATCH - cnt
  {
    if cnt < MAX_EVICT_BATCH && TestLast(cfg, clock, r).0 {
      var r1 := RemoveNode(cfg, clock, TestLast(cfg, clock, r).1, true);
      TimeoutLoopDrops(cfg, clock, r1, cnt + 1);
      if LastExpired(cfg, r.items, clock(r.tick + 1)) {
        FindAfterDropLast(cfg, r.items, k, now, clock(r.tick + 1));
      }
      TimeoutLoopInvisible(cfg, clock, r1, cnt + 1, k, now);
    }
  }

  /** For any reading not before those the pass took, find answers for every key as if the pass had stopped after
      its overload half. With timeout 0 the other half does nothing at all. */
  lemma TimeoutEvictionInvisible(cfg: Config, clock: Readings, r: Run, k: Key, now: int)
    requires DistinctKeys(r.items)
    requires forall i :: r.tick <= i < Evict(cfg, clock, r).tick ==> clock(i) <= now
    ensures Find(cfg, Evict(cfg, clock, r).items, k, now) == Find(cfg, AfterOverload(cfg, r).items, k, now)
    ensures cfg.timeout == 0 ==> Evict(cfg, clock, r) == AfterOverload(cfg, r)
  {
    EvictInHalves(cfg, clock, r);
    var r1 := AfterOverload(cfg, r);
    if cfg.batch {
      TimeoutLoopInvisible(cfg, clock, r1, Overload(cfg, |r.items|), k, now);
    } else if TestLast(cfg, clock, r1).0 && LastExpired(cfg, r1.items, clock(r1.tick + 1)) {
      FindAfterDropLast(cfg, r1.items, k, now, clock(r1.tick + 1));
    }
  }

  // ----- capacity

  /** A synchronous single insert never leaves more than the maximum behind, for both eviction types, any clock and
      any timeout. */
  lemma InsertKeepsCapacity(cfg: Config, clock: Readings, r: Run, k: Key, v: Value)
    requires DistinctKeys(r.items) && |r.items| <= cfg.maxSize
    ensures |Insert(cfg, clock, r, k, v).items| <= cfg.maxSize
  {
    WithoutFacts(r.items, k);
    PassCapacity(cfg, clock, SetEntryRun(clock, r, k, v));
  }

  /** Does the item before the last expire in time for a pass that takes one item for overload to take it, too? */
  predicate SecondLastExpires(cfg: Config, clock: Readings, s: seq<Item>, tick: nat) {
    && cfg.timeout != 0 && |s| > 1
    && Expired(cfg, clock(tick), s[|s| - 2].stamp) && Expired(cfg, clock(tick + 1), s[|s| - 2].stamp)
  }

  /** Is one eviction pass, which begins at reading `tick`, enough to bring the list s down to `max`? */
  predicate PassSuffices(cfg: Config, clock: Readings, s: seq<Item>, size: nat, tick: nat, max: nat) {
    || size <= max + (if cfg.batch then 64 else 1)
    || (!cfg.batch && size == max + 2 && SecondLastExpires(cfg, clock, s, tick))
  }

  /** Exactly when a pass ends within the maximum, under any clock and timeout. What a batch pass takes for timeout cannot
      help it; the other kind can take one item each way. */
  lemma PassCapacity(cfg: Config, clock: Readings, r: Run)
    ensures |Evict(cfg, clock, r).items| <= cfg.maxSize <==> PassSuffices(cfg, clock, r.items, |r.items|, r.tick, cfg.maxSize)
  {
    EvictInHalves(cfg, clock, r);
    if cfg.batch {
      TimeoutLoopDrops(cfg, clock, AfterOverload(cfg, r), Overload(cfg, |r.items|));
    }
  }
}
