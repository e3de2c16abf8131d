/** Shifts and bitwise operations on non-negative machine integers, modelled on
    natural numbers bit by bit, and the power-of-two facts the ring buffer and
    the samplers rely on. */
module Bits {

  function Pow2(k: nat): (p: nat)
    ensures p > 0
  {
    if k == 0 then 1 else 2 * Pow2(k - 1)
  }

  /** n >> k */
  function Shr(n: nat, k: nat): nat
    decreases k
  {
    if k == 0 then n else Shr(n / 2, k - 1)
  }

  /** a & b */
  function BitAnd(a: nat, b: nat): (r: nat)
    ensures r <= a && r <= b
    decreases a
  {
    if a == 0 then 0 else 2 * BitAnd(a / 2, b / 2) + (if a % 2 == 1 && b % 2 == 1 then 1 else 0)
  }

  /** a | b */
  function BitOr(a: nat, b: nat): nat
    decreases a + b
  {
    if a == 0 && b == 0 then 0
    else 2 * BitOr(a / 2, b / 2) + (if a % 2 == 1 || b % 2 == 1 then 1 else 0)
  }

  predicate IsPow2(n: nat)
  {
    n == 1 || (n > 1 && n % 2 == 0 && IsPow2(n / 2))
  }

  lemma Doubled(p: nat)
    requires IsPow2(p)
    ensures IsPow2(2 * p)
  {
    assert 2 * p / 2 == p;
  }

  // ---- masking -----------------------------------------------------------

  lemma ModTwice(i: nat, p: nat)
    requires p > 0
    ensures i % (2 * p) == 2 * ((i / 2) % p) + i % 2
  {
    var q, r := (i / 2) / p, (i / 2) % p;
    assert i == q * (2 * p) + (2 * r + i % 2);
    DivModUnique(i, 2 * p, q, 2 * r + i % 2);
  }

  lemma MulStep(a: int, b: int, d: nat)
    requires a < b
    ensures a * d + d <= b * d
  {
    assert (b - a - 1) * d >= 0;
    assert (b - a - 1) * d == b * d - a * d - d;
  }

  lemma DivModUnique(n: int, d: int, q: int, r: int)
    requires 0 <= r < d
    requires n == q * d + r
    ensures n / d == q && n % d == r
  {
    var q', r' := n / d, n % d;
    assert n == q' * d + r';
    if q < q' {
      MulStep(q, q', d);
    } else if q' < q {
      MulStep(q', q, d);
    }
  }

  /** `i & (p-1)` selects a slot exactly as `i % p` does, for every power of two p. */
  lemma {:induction false} MaskIsMod(i: nat, p: nat)
    requires IsPow2(p)
    ensures BitAnd(i, p - 1) == i % p
    decreases p
  {
    if p == 1 {
    } else {
      var h := p / 2;
      assert p == 2 * h;
      MaskIsMod(i / 2, h);
      ModTwice(i, h);
      assert (p - 1) / 2 == h - 1 && (p - 1) % 2 == 1;
    }
  }

  lemma SameRemainderApart(a: int, b: int, p: nat, r: int)
    requires a * p + r < b * p + r
    ensures a * p + r + p <= b * p + r
  {
    if a < b {
      MulStep(a, b, p);
    } else if b < a {
      MulStep(b, a, p);
    }
  }

  lemma QuotientRemainder(i: nat, p: nat) returns (q: int)
    requires p > 0
    ensures i == q * p + i % p
  {
    q := i / p;
  }

  lemma ModInjective(i: nat, j: nat, p: nat)
    requires p > 0
    requires i < j < i + p
    ensures i % p != j % p
  {
    var a := QuotientRemainder(i, p);
    var b := QuotientRemainder(j, p);
    if i % p == j % p {
      SameRemainderApart(a, b, p, i % p);
    }
  }

  /** Two indices less than p apart never share a slot. */
  lemma SlotInjective(i: nat, j: nat, p: nat)
    requires IsPow2(p)
    requires i < j < i + p
    ensures BitAnd(i, p - 1) != BitAnd(j, p - 1)
  {
    MaskIsMod(i, p);
    MaskIsMod(j, p);
    ModInjective(i, j, p);
  }

  lemma {:induction false} BitAndSelf(h: nat)
    ensures BitAnd(h, h) == h
  {
    if h > 0 {
      BitAndSelf(h / 2);
    }
  }

  /** The test `n & (n-1) == 0` recognises exactly the powers of two. */
  lemma {:induction false} PowerTest(n: nat)
    requires n > 0
    ensures BitAnd(n, n - 1) == 0 <==> IsPow2(n)
  {
    if n % 2 == 1 {
      BitAndSelf(n / 2);
      assert (n - 1) / 2 == n / 2;
    } else {
      PowerTest(n / 2);
      assert (n - 1) / 2 == n / 2 - 1;
    }
  }

  /** Disjoint halves: or-ing a low part under a shifted high part adds them. */
  lemma {:induction false} OrDisjoint(hi: nat, lo: nat, k: nat)
    requires lo < Pow2(k)
    ensures BitOr(hi * Pow2(k), lo) == hi * Pow2(k) + lo
    decreases k
  {
    if k == 0 {
      OrZero(hi);
      assert hi * Pow2(0) == hi;
    } else {
      var p := Pow2(k - 1);
      assert hi * Pow2(k) == 2 * (hi * p);
      OrDisjoint(hi, lo / 2, k - 1);
      assert (2 * (hi * p)) / 2 == hi * p;
    }
  }

  lemma {:induction false} OrZero(a: nat)
    ensures BitOr(a, 0) == a
  {
    if a > 0 {
      OrZero(a / 2);
    }
  }

  // ---- rounding up to a power of two -------------------------------------

  predicate Bit(n: nat, t: nat)
  {
    Shr(n, t) % 2 == 1
  }

  /** Whether one of the `w` lowest bits of n is set. */
  predicate AnyLow(n: nat, w: nat)
    decreases w
  {
    w > 0 && (n % 2 == 1 || AnyLow(n / 2, w - 1))
  }

  /** One smearing step `n | n >> j`. */
  function Smear(n: nat, j: nat): nat
  {
    BitOr(n, Shr(n, j))
  }

  lemma {:induction false} ShrAdd(n: nat, a: nat, b: nat)
    ensures Shr(n, a + b) == Shr(Shr(n, a), b)
    decreases a
  {
    if a > 0 {
      ShrAdd(n / 2, a - 1, b);
    }
  }

  lemma {:induction false} ShrOr(a: nat, b: nat, t: nat)
    ensures Shr(BitOr(a, b), t) == BitOr(Shr(a, t), Shr(b, t))
    decreases t
  {
    if t > 0 {
      assert BitOr(a, b) / 2 == BitOr(a / 2, b / 2);
      ShrOr(a / 2, b / 2, t - 1);
    }
  }

  lemma {:induction false} AnyLowSplit(n: nat, a: nat, b: nat)
    ensures AnyLow(n, a + b) <==> AnyLow(n, a) || AnyLow(Shr(n, a), b)
    decreases a
  {
    if a > 0 {
      AnyLowSplit(n / 2, a - 1, b);
    }
  }

  /** Every bit of s says whether m has a set bit among the w bits from there up. */
  ghost predicate Window(s: nat, m: nat, w: nat)
  {
    forall t: nat :: Bit(s, t) <==> AnyLow(Shr(m, t), w)
  }

  lemma SmearDoubles(s: nat, m: nat, w: nat)
    requires Window(s, m, w)
    ensures Window(Smear(s, w), m, 2 * w)
  {
    forall t: nat ensures Bit(Smear(s, w), t) <==> AnyLow(Shr(m, t), 2 * w) {
      ShrOr(s, Shr(s, w), t);
      ShrAdd(s, w, t);
      ShrAdd(s, t, w);
      assert Bit(Smear(s, w), t) <==> Bit(s, t) || Bit(s, t + w);
      ShrAdd(m, t, w);
      AnyLowSplit(Shr(m, t), w, w);
    }
  }

  /** No run of w zero bits below the highest set bit of n. */
  ghost predicate NoZeroRun(n: nat, w: nat)
  {
    forall t: nat :: Shr(n, t) > 0 ==> AnyLow(Shr(n, t), w)
  }

  lemma {:induction false} AnyLowZero(w: nat)
    ensures !AnyLow(0, w)
  {
    if w > 0 {
      AnyLowZero(w - 1);
    }
  }

  lemma {:induction false} ShrZero(t: nat)
    ensures Shr(0, t) == 0
  {
    if t > 0 {
      ShrZero(t - 1);
    }
  }

  /** s has a set bit wherever m still has one at or above, and nowhere else. */
  ghost predicate Covers(s: nat, m: nat)
  {
    forall t: nat :: Bit(s, t) <==> Shr(m, t) > 0
  }

  lemma CoversHalf(s: nat, m: nat)
    requires Covers(s, m)
    ensures Covers(s / 2, m / 2)
  {
    forall t: nat ensures Bit(s / 2, t) <==> Shr(m / 2, t) > 0 {
      assert Bit(s, t + 1) <==> Shr(m, t + 1) > 0;
    }
  }

  lemma CoversNothing(s: nat)
    requires Covers(s, 0)
    ensures s == 0
  {
    if s > 0 {
      var t := HighBit(s);
      ShrZero(t);
      assert false;
    }
  }

  /** h and k are the halves of s, which is odd, and of m. */
  lemma OneMoreBit(s: nat, m: nat, h: nat, k: nat)
    requires s == 2 * h + 1 && 2 * k <= m <= 2 * k + 1 && m > 0
    requires IsPow2(h + 1) && k <= h <= 2 * k
    ensures IsPow2(s + 1) && m <= s <= 2 * m
  {
    Doubled(h + 1);
    assert s + 1 == 2 * (h + 1);
  }

  /** Such an s is all ones, as long as m. */
  lemma {:induction false} CoversIsAllOnes(s: nat, m: nat)
    requires Covers(s, m)
    ensures IsPow2(s + 1) && m <= s <= 2 * m
    decreases m
  {
    if m == 0 {
      CoversNothing(s);
    } else {
      assert s % 2 == 1 by {
        assert Bit(s, 0) <==> Shr(m, 0) > 0;
      }
      CoversHalf(s, m);
      CoversIsAllOnes(s / 2, m / 2);
      OneMoreBit(s, m, s / 2, m / 2);
    }
  }

  lemma {:induction false} HighBit(s: nat) returns (t: nat)
    requires s > 0
    ensures Bit(s, t)
  {
    if s % 2 == 1 {
      t := 0;
    } else {
      t := HighBit(s / 2);
      t := t + 1;
    }
  }

  /** A number of the form 2^k - 1 has no zero bit below its highest one. */
  lemma {:induction false} OnesBits(s: nat, t: nat)
    requires IsPow2(s + 1)
    ensures Shr(s, t) > 0 ==> Bit(s, t)
    decreases t
  {
    if s > 0 {
      assert s % 2 == 1 && (s + 1) / 2 == s / 2 + 1;
      if t > 0 {
        OnesBits(s / 2, t - 1);
      }
    } else {
      ShrZero(t);
    }
  }

  lemma {:induction false} ShrMonotone(a: nat, b: nat, t: nat)
    requires a <= b
    ensures Shr(a, t) <= Shr(b, t)
    decreases t
  {
    if t > 0 {
      ShrMonotone(a / 2, b / 2, t - 1);
    }
  }

  /** r is the least power of two that is at least n. */
  ghost predicate LeastPow2AtLeast(r: nat, n: nat)
  {
    IsPow2(r) && n <= r && forall p: nat :: IsPow2(p) && n <= p ==> r <= p
  }

  lemma {:induction false} Pow2Gap(p: nat, r: nat)
    requires IsPow2(p) && IsPow2(r) && p < r
    ensures 2 * p <= r
  {
    if p > 1 {
      Pow2Gap(p / 2, r / 2);
    }
  }

  lemma LeastFromBound(r: nat, n: nat)
    requires IsPow2(r) && n <= r < 2 * n
    ensures LeastPow2AtLeast(r, n)
  {
    forall p: nat | IsPow2(p) && n <= p ensures r <= p {
      if p < r {
        Pow2Gap(p, r);
      }
    }
  }

  lemma FullWindowRounds(s: nat, m: nat, w: nat)
    requires Window(s, m, w) && NoZeroRun(m, w)
    ensures LeastPow2AtLeast(s + 1, m + 1) && s + 1 < 2 * (m + 1)
  {
    forall t: nat ensures Bit(s, t) <==> Shr(m, t) > 0 {
      AnyLowZero(w);
    }
    CoversIsAllOnes(s, m);
    LeastFromBound(s + 1, m + 1);
  }

  lemma RoundedHasFullWindow(s: nat, m: nat, w: nat)
    requires Window(s, m, w) && LeastPow2AtLeast(s + 1, m + 1)
    ensures NoZeroRun(m, w)
  {
    forall t: nat | Shr(m, t) > 0 ensures AnyLow(Shr(m, t), w) {
      ShrMonotone(m, s, t);
      OnesBits(s, t);
    }
  }

  lemma WindowRoundsExactly(s: nat, m: nat, w: nat)
    requires Window(s, m, w)
    ensures LeastPow2AtLeast(s + 1, m + 1) <==> NoZeroRun(m, w)
    ensures NoZeroRun(m, w) ==> s + 1 < 2 * (m + 1)
  {
    if NoZeroRun(m, w) {
      FullWindowRounds(s, m, w);
    }
    if LeastPow2AtLeast(s + 1, m + 1) {
      RoundedHasFullWindow(s, m, w);
    }
  }

  lemma {:induction false} AnyLowSmall(n: nat, w: nat)
    requires 0 < n < Pow2(w)
    ensures AnyLow(n, w)
    decreases w
  {
    if n % 2 == 0 {
      AnyLowSmall(n / 2, w - 1);
    }
  }

  lemma {:induction false} ShrShrinks(n: nat, t: nat)
    ensures Shr(n, t) <= n
    decreases t
  {
    if t > 0 {
      ShrShrinks(n / 2, t - 1);
    }
  }

  const TWO_32: nat := 0x1_0000_0000

  lemma Pow2Of32()
    ensures Pow2(32) == TWO_32
  {
    assert Pow2(8) == 256;
    assert Pow2(16) == 65536;
    assert Pow2(24) == 16777216;
  }

  lemma SmallHasNoLongRun(n: nat, w: nat)
    requires n < Pow2(w)
    ensures NoZeroRun(n, w)
  {
    forall t: nat | Shr(n, t) > 0 ensures AnyLow(Shr(n, t), w) {
      ShrShrinks(n, t);
      AnyLowSmall(Shr(n, t), w);
    }
  }

  lemma {:induction false} AnyLowOfPow2(k: nat, w: nat)
    requires w <= k
    ensures !AnyLow(Pow2(k), w)
    decreases w
  {
    if w > 0 {
      assert Pow2(k) / 2 == Pow2(k - 1);
      AnyLowOfPow2(k - 1, w - 1);
    }
  }

  // ---- the smearing, signed ------------------------------------------------

  /** n >> k on a signed integer: the sign bit moves in from the left. */
  function ShrSigned(n: int, k: nat): (r: int)
    ensures n < 0 <==> r < 0
  {
    if n >= 0 then Shr(n, k) else -1 - Shr(-1 - n, k)
  }

  /** a | b on signed integers of the same sign, in two's complement. */
  function OrSigned(a: int, b: int): (r: int)
    requires a < 0 <==> b < 0
    ensures a < 0 <==> r < 0
  {
    if a >= 0 then BitOr(a, b) else -1 - BitAnd(-1 - a, -1 - b)
  }

  function SmearSigned(n: int, j: nat): (r: int)
    ensures n < 0 <==> r < 0
  {
    OrSigned(n, ShrSigned(n, j))
  }

  /** Smearing a negative number only ever clears bits of its complement m. */
  lemma SmearNegative(n: int, j: nat)
    requires n < 0
    ensures -1 - SmearSigned(n, j) <= Shr(-1 - n, j)
  {
  }

  lemma SmearedBelow(n: int, r: int, m: nat, k: nat, j: nat)
    requires n < 0 && -1 - n <= Shr(m, k) && r == SmearSigned(n, j)
    ensures r < 0 && -1 - r <= Shr(m, k + j)
  {
    SmearNegative(n, j);
    ShrMonotone(-1 - n, Shr(m, k), j);
    ShrAdd(m, k, j);
  }

  const TWO_31: int := 0x8000_0000

  lemma {:induction false} ShrSmall(n: nat, k: nat)
    requires n < Pow2(k)
    ensures Shr(n, k) == 0
    decreases k
  {
    if k > 0 {
      ShrSmall(n / 2, k - 1);
    }
  }

  lemma Pow2Of31()
    ensures Pow2(31) == TWO_31
  {
    Pow2Of32();
    assert Pow2(32) == 2 * Pow2(31);
  }

  function SmearedBy(n: int, steps: seq<nat>): (r: int)
    ensures n < 0 <==> r < 0
    decreases |steps|
  {
    if steps == [] then n else SmearedBy(SmearSigned(n, steps[0]), steps[1..])
  }

  function Total(steps: seq<nat>): nat
  {
    if steps == [] then 0 else steps[0] + Total(steps[1..])
  }

  /** All steps together clear the lowest Total(steps) bits of the complement's reach. */
  lemma {:induction false} SmearedByBelow(n: int, steps: seq<nat>, m: nat, k: nat)
    requires n < 0 && -1 - n <= Shr(m, k)
    ensures -1 - SmearedBy(n, steps) <= Shr(m, k + Total(steps))
    decreases |steps|
  {
    if steps != [] {
      var n1 := SmearSigned(n, steps[0]);
      SmearedBelow(n, n1, m, k, steps[0]);
      SmearedByBelow(n1, steps[1..], m, k + steps[0]);
    }
  }

  lemma SmearedNegative(n: int, steps: seq<nat>)
    requires n < 0
    ensures SmearedBy(n, steps) <= -1
    ensures -1 - n < Pow2(Total(steps)) ==> SmearedBy(n, steps) == -1
  {
    var m := -1 - n;
    assert Shr(m, 0) == m;
    SmearedByBelow(n, steps, m, 0);
    if m < Pow2(Total(steps)) {
      ShrSmall(m, Total(steps));
    }
  }

  lemma {:induction false} SmearedByAppend(n: int, steps: seq<nat>, j: nat)
    ensures SmearedBy(n, steps + [j]) == SmearSigned(SmearedBy(n, steps), j)
    decreases |steps|
  {
    if steps == [] {
      assert ([] + [j])[1..] == [];
    } else {
      assert (steps + [j])[1..] == steps[1..] + [j];
      SmearedByAppend(SmearSigned(n, steps[0]), steps[1..], j);
    }
  }

  const STEPS: seq<nat> := [1, 2, 4, 8, 16]

  lemma StepsReach31()
    ensures Total(STEPS) == 31
  {
    assert STEPS[1..] == [2, 4, 8, 16] && STEPS[1..][1..] == [4, 8, 16];
    assert Total([8, 16]) == 8 + Total([16]) && [8, 16][1..] == [16] && [16][1..] == [];
    assert [4, 8, 16][1..] == [8, 16];
  }

  function RoundUp(n: nat): (r: nat)
    requires n > 0
  {
    SmearedBy(n - 1, STEPS) + 1
  }

  /** Steps that double cover a window that doubles. */
  lemma {:induction false} StepsWindow(s: nat, m: nat, w: nat, steps: seq<nat>)
    requires Window(s, m, w) && steps != [] && steps[0] == w
    requires forall i {:trigger steps[i]} | 0 <= i < |steps| - 1 :: steps[i + 1] == 2 * steps[i]
    ensures Window(SmearedBy(s, steps), m, 2 * steps[|steps| - 1])
    decreases |steps|
  {
    SmearDoubles(s, m, w);
    var s1, rest := Smear(s, w), steps[1..];
    assert SmearSigned(s, w) == s1;
    if rest != [] {
      assert rest[0] == 2 * w;
      StepsWindow(s1, m, 2 * w, rest);
    } else {
      assert SmearedBy(s1, []) == s1;
    }
  }

  lemma WindowOne(m: nat)
    ensures Window(m, m, 1)
  {
    forall t: nat ensures Bit(m, t) <==> AnyLow(Shr(m, t), 1) {
      assert AnyLow(Shr(m, t), 1) <==> Shr(m, t) % 2 == 1 || AnyLow(Shr(m, t) / 2, 0);
    }
  }

  lemma RoundUpWindow(n: nat)
    requires n > 0
    ensures Window(RoundUp(n) - 1, n - 1, 32)
  {
    WindowOne(n - 1);
    StepsWindow(n - 1, n - 1, 1, STEPS);
  }

  /** The rounding is right exactly when n-1 has no run of 32 zero bits below its
      highest set bit: the smearing reaches 31 places down and no further. */
  lemma RoundUpExact(n: nat)
    requires n > 0
    ensures LeastPow2AtLeast(RoundUp(n), n) <==> NoZeroRun(n - 1, 32)
    ensures NoZeroRun(n - 1, 32) ==> RoundUp(n) < 2 * n
  {
    RoundUpWindow(n);
    WindowRoundsExactly(RoundUp(n) - 1, n - 1, 32);
  }

  /** One more than 2^32 is the first size the rounding gets wrong. */
  lemma RoundUpFailsAbove()
    ensures !LeastPow2AtLeast(RoundUp(TWO_32 + 1), TWO_32 + 1)
  {
    Pow2Of32();
    AnyLowOfPow2(32, 32);
    assert Shr(TWO_32, 0) == TWO_32;
    RoundUpExact(TWO_32 + 1);
  }

  lemma RoundsDown(n: int)
    requires n < 0
    ensures SmearedBy(n, STEPS) <= -1
    ensures n >= -TWO_31 ==> SmearedBy(n, STEPS) == -1
  {
    StepsReach31();
    Pow2Of31();
    SmearedNegative(n, STEPS);
  }

  lemma RoundsUp(size: nat)
    requires 0 < size <= TWO_32
    ensures LeastPow2AtLeast(RoundUp(size), size) && RoundUp(size) < 2 * size
  {
    Pow2Of32();
    SmallHasNoLongRun(size - 1, 32);
    RoundUpExact(size);
  }

  /** One line of the smearing. */
  method SmearStep(n: int, j: nat, ghost n0: int, ghost before: seq<nat>, ghost after: seq<nat>) returns (r: int)
    requires n == SmearedBy(n0, before) && after == before + [j]
    ensures r == SmearedBy(n0, after)
  {
    r := OrSigned(n, ShrSigned(n, j));
    SmearedByAppend(n0, before, j);
  }

  /** roundUpPowerOfTwo: the in-place smearing. */
  method RoundUpPowerOfTwo(size: int) returns (n: int)
    ensures size > 0 ==> n == RoundUp(size)
    ensures 0 < size <= TWO_32 ==> LeastPow2AtLeast(n, size) && n < 2 * size
    ensures size <= 0 ==> n <= 0
    ensures -TWO_31 < size <= 0 ==> n == 0
  {
    n := size - 1;
    n := SmearStep(n, 1, size - 1, [], STEPS[..1]);
    n := SmearStep(n, 2, size - 1, STEPS[..1], STEPS[..2]);
    n := SmearStep(n, 4, size - 1, STEPS[..2], STEPS[..3]);
    n := SmearStep(n, 8, size - 1, STEPS[..3], STEPS[..4]);
    n := SmearStep(n, 16, size - 1, STEPS[..4], STEPS);
    n := n + 1;
    if size <= 0 {
      RoundsDown(size - 1);
    } else if size <= TWO_32 {
      RoundsUp(size);
    }
  }
}
