/**
 `UpperPowerOfTwo` on 32-bit words. Its steps smear the set bits of v - 1 downwards, twice as far each time; one more
 than what they end with is the power of two sought.
 */
module PowerOfTwo {

  type Word = bv32

  const TOP: Word := 0x8000_0000 // 2^31, the greatest power of two that fits

  // ----- powers of two

  /** A word with exactly one bit set. */
  predicate IsPower(p: Word) { p != 0 && p & (p - 1) == 0 }

  /** Two to the k. */
  function Power(k: nat): int {
    if k == 0 then 1 else 2 * Power(k - 1)
  }

  lemma Half(p: Word)
    requires IsPower(p) && p != 1
    ensures IsPower(p >> 1) && 0 < p >> 1 < p && p == (p >> 1) + (p >> 1) && p >> 1 < TOP
  {
  }

  lemma Double(p: Word)
    requires IsPower(p) && p < TOP
    ensures IsPower(p + p) && p + p > p
  {
  }

  /** The words so defined are the powers of two that fit. */
  lemma {:induction false} PowerOfWord(p: Word) returns (k: nat)
    requires IsPower(p)
    ensures p as int == Power(k)
    decreases p
  {
    if p == 1 {
      k := 0;
    } else {
      Half(p);
      k := PowerOfWord(p >> 1);
      k := k + 1;
    }
  }

  lemma {:induction false} PowerGrows(j: nat, k: nat)
    requires j < k
    ensures 0 < Power(j) < Power(k)
  {
    if j > 0 {
      PowerGrows(j - 1, k - 1);
    } else if k > 1 {
      PowerGrows(0, k - 1);
    }
  }

  lemma PowerOfTop()
    ensures Power(31) == 0x8000_0000
  {
    assert Power(8) == 0x100;
    assert Power(16) == 0x1_0000;
    assert Power(24) == 0x100_0000;
  }

  lemma TopIsGreatest(p: Word, k: nat)
    requires IsPower(p) && p as int == Power(k) && k < 31
    ensures p < TOP
  {
    PowerGrows(k, 31);
    PowerOfTop();
  }

  lemma {:induction false} WordOfPower(k: nat) returns (p: Word)
    requires k < 32
    ensures IsPower(p) && p as int == Power(k)
  {
    if k == 0 {
      p := 1;
    } else {
      p := WordOfPower(k - 1);
      TopIsGreatest(p, k - 1);
      Double(p);
      p := p + p;
    }
  }

  // ----- smearing

  /** h is the highest bit set in s, or zero if there is none. */
  predicate IsHighest(h: Word, s: Word) {
    if h == 0 then s == 0 else IsPower(h) && s & h == h && s & !(h | (h - 1)) == 0
  }

  lemma HigherBit(h: Word, s: Word)
    requires s > 1 && IsHighest(h, s >> 1)
    ensures IsHighest(h + h, s)
  {
  }

  lemma {:induction false} HighestBit(s: Word) returns (h: Word)
    ensures IsHighest(h, s)
    decreases s
  {
    if s <= 1 {
      h := s;
    } else {
      h := HighestBit(s >> 1);
      HigherBit(h, s);
      h := h + h;
    }
  }

  /** From its highest bit h on downwards, s has d bits set, or all. */
  predicate Smeared(h: Word, s: Word, d: Word)
    requires 0 < d <= 32
  {
    && IsHighest(h, s)
    && (h != 0 ==>
        var lowest := h >> (d - 1);
        if lowest == 0 then s == h + (h - 1) else !s & (h + (h - lowest)) == 0)
  }

  lemma SmearStart(h: Word, s: Word)
    requires IsHighest(h, s)
    ensures Smeared(h, s, 1)
  {
  }

  lemma SmearOne(h: Word, s: Word)
    requires Smeared(h, s, 1)
    ensures Smeared(h, s | (s >> 1), 2)
  {
  }

  lemma SmearTwo(h: Word, s: Word)
    requires Smeared(h, s, 2)
    ensures Smeared(h, s | (s >> 2), 4)
  {
  }

  lemma SmearFour(h: Word, s: Word)
    requires Smeared(h, s, 4)
    ensures Smeared(h, s | (s >> 4), 8)
  {
  }

  lemma SmearEight(h: Word, s: Word)
    requires Smeared(h, s, 8)
    ensures Smeared(h, s | (s >> 8), 16)
  {
  }

  lemma SmearHigh(h: Word, s: Word)
    requires Smeared(h, s, 16) && h >= 0x1_0000
    ensures s | (s >> 16) == h + (h - 1)
  {
  }

  lemma SmearSixteen(h: Word, s: Word)
    requires Smeared(h, s, 16)
    ensures Smeared(h, s | (s >> 16), 32)
  {
    if h >= 0x1_0000 {
      SmearHigh(h, s);
    } else {
      assert h >> 15 <= 1;
      assert h != 0 ==> s == h + (h - 1);
    }
  }

  /** One more than a word smeared all the way is a power of two above what was smeared, or has wrapped to zero. */
  lemma PowerAbove(u: Word, h: Word, s: Word)
    requires IsHighest(h, u) && Smeared(h, s, 32)
    ensures u < TOP ==> IsPower(s + 1) && s + 1 >= u + 1
    ensures u >= TOP ==> s + 1 == 0
  {
  }

  /** No power of two lies between. */
  lemma LeastAbove(u: Word, h: Word, s: Word, p: Word)
    requires IsHighest(h, u) && Smeared(h, s, 32) && IsPower(p) && p > u
    ensures p >= s + 1 > 0
  {
  }

  lemma Beyond(given: Word, p: Word)
    requires p >= given > 0
    ensures p > given - 1
  {
  }

  lemma Previous(given: Word)
    ensures given - 1 < TOP <==> 0 < given <= TOP
    ensures given - 1 + 1 == given
  {
  }

  // ----- the function

  /** The least power of two that is at least `given`, for every word from 1 to 2^31. For the others it is zero. */
  method UpperPowerOfTwo(given: Word) returns (v: Word)
    ensures 0 < given <= TOP ==> IsPower(v) && v >= given
    ensures forall p :: IsPower(p) && p >= given > 0 ==> p >= v > 0
    ensures given == 0 || given > TOP ==> v == 0
  {
    hide Smeared, IsHighest, IsPower;
    v := given - 1;
    ghost var v1 := v;
    ghost var h := HighestBit(v1);
    SmearStart(h, v1);
    v := v | (v >> 1);
    SmearOne(h, v1);
    ghost var v2 := v;
    v := v | (v >> 2);
    SmearTwo(h, v2);
    ghost var v4 := v;
    v := v | (v >> 4);
    SmearFour(h, v4);
    ghost var v8 := v;
    v := v | (v >> 8);
    SmearEight(h, v8);
    ghost var v16 := v;
    v := v | (v >> 16);
    SmearSixteen(h, v16);
    Previous(given);
    PowerAbove(v1, h, v);
    forall p | IsPower(p) && p >= given > 0 ensures p >= v + 1 > 0 {
      Beyond(given, p);
      LeastAbove(v1, h, v, p);
    }
    v := v + 1;
  }
}
