/** Unsigned integer bit operations on `nat`, for the `uint32` and `size_t`
    arithmetic of the texture decoders: a right shift by `k` is a division
    by 2^k, a left shift a multiplication by 2^k (reduced modulo 2^width
    where the source truncates), and the bitwise AND and OR work bit by bit
    from the lowest bit up. */
module Bits {

  /** 2 to the power `n`. */
  function Pow2(n: nat): (r: nat)
    ensures r >= 1
  {
    if n == 0 then 1 else 2 * Pow2(n - 1)
  }

  /** One more than the largest `uint32` value. */
  const Word32: nat := 0x1_0000_0000

  /** One more than the largest `size_t` value (64-bit targets). */
  const Word64: nat := 0x1_0000_0000_0000_0000

  /** `x >> k` for an unsigned `x`: `k` halvings. */
  function Shr(x: nat, k: nat): nat {
    if k == 0 then x else Shr(x / 2, k - 1)
  }

  /** Bit `i` of `x`: 1 exactly when `x & (1 << i)` is nonzero. */
  function Bit(x: nat, i: nat): nat {
    Shr(x, i) % 2
  }

  /** `x | y`. */
  function Or(x: nat, y: nat): nat
    decreases x + y
  {
    if x == 0 && y == 0 then 0
    else 2 * Or(x / 2, y / 2) + (if x % 2 == 1 || y % 2 == 1 then 1 else 0)
  }

  /** `x & y`. */
  function And(x: nat, y: nat): nat
    decreases x + y
  {
    if x == 0 && y == 0 then 0
    else 2 * And(x / 2, y / 2) + (if x % 2 == 1 && y % 2 == 1 then 1 else 0)
  }

  /** The number of bits needed to write `x`: 0 for 0, else one more than
      the index of the highest set bit. */
  function BitLength(x: nat): nat {
    if x == 0 then 0 else 1 + BitLength(x / 2)
  }

  /** The number of zero bits below the lowest set bit of `x`. */
  function TrailingZeros(x: nat): nat
    requires x > 0
  {
    if x % 2 == 1 then 0 else 1 + TrailingZeros(x / 2)
  }

  /** The number of set bits among bits `lo` .. `hi` - 1 of `x`. */
  function SetBits(x: nat, lo: nat, hi: nat): nat
    decreases hi - lo
  {
    if hi <= lo then 0 else SetBits(x, lo, hi - 1) + Bit(x, hi - 1)
  }

  /** The powers of two the decoders use as word sizes. */
  lemma Pow2Words()
    ensures Pow2(32) == Word32 && Pow2(64) == Word64
  {
    assert Pow2(1) == 2;
    Pow2Half(1, 2);
    Pow2Half(2, 4);
    Pow2Half(4, 16);
    Pow2Half(8, 256);
    Pow2Half(16, 0x1_0000);
    Pow2Half(32, Word32);
  }

  lemma Pow2Half(k: nat, p: nat)
    requires Pow2(k) == p
    ensures Pow2(2 * k) == p * p
  {
    Pow2Add(k, k);
  }

  lemma {:induction false} Pow2Add(a: nat, b: nat)
    ensures Pow2(a + b) == Pow2(a) * Pow2(b)
    decreases a
  {
    if a > 0 {
      Pow2Add(a - 1, b);
      assert Pow2(a + b) == 2 * (Pow2(a - 1) * Pow2(b));
    }
  }

  lemma {:induction false} Pow2Mono(a: nat, b: nat)
    requires a <= b
    ensures Pow2(a) <= Pow2(b)
    decreases b
  {
    if a < b {
      Pow2Mono(a, b - 1);
    }
  }

  /** Quotient and remainder are unique. */
  lemma DivUnique(x: nat, d: nat, q: nat, r: nat)
    requires d > 0 && x == q * d + r && r < d
    ensures x / d == q && x % d == r
  {
    var q', r' := x / d, x % d;
    assert x == q' * d + r';
    assert (q' + 1) * d == q' * d + d;
    assert (q + 1) * d == q * d + d;
    MulCancel(q, q' + 1, d);
    MulCancel(q', q + 1, d);
  }

  lemma MulMono(a: nat, b: nat, c: nat)
    requires a <= b
    ensures a * c <= b * c
  {
  }

  lemma MulCancel(a: nat, b: nat, c: nat)
    requires a * c < b * c
    ensures a < b
  {
  }

  /** Dividing by `2 * p` is halving and then dividing by `p`. */
  lemma DivHalf(x: nat, p: nat)
    requires p > 0
    ensures x / (2 * p) == (x / 2) / p
    ensures x % (2 * p) == 2 * ((x / 2) % p) + x % 2
  {
    var q, r := (x / 2) / p, (x / 2) % p;
    assert x / 2 == q * p + r;
    assert x == q * (2 * p) + (2 * r + x % 2);
    DivUnique(x, 2 * p, q, 2 * r + x % 2);
  }

  /** Shifting right by one more bit halves the shifted value. */
  lemma {:induction false} ShrNext(x: nat, k: nat)
    ensures Shr(x, k + 1) == Shr(x, k) / 2
    decreases k
  {
    if k > 0 {
      ShrNext(x / 2, k - 1);
    }
  }

  /** `x >> k` is the quotient of `x` by 2^k. */
  lemma {:induction false} ShrIsDiv(x: nat, k: nat)
    ensures Shr(x, k) == x / Pow2(k)
    decreases k
  {
    if k > 0 {
      ShrIsDiv(x / 2, k - 1);
      DivHalf(x, Pow2(k - 1));
    }
  }

  /** A right shift never grows a value. */
  lemma {:induction false} ShrAtMost(x: nat, k: nat)
    ensures Shr(x, k) <= x
    decreases k
  {
    if k > 0 {
      ShrAtMost(x / 2, k - 1);
    }
  }

  lemma DivHalfSwap(x: nat, p: nat)
    requires p > 0
    ensures x / (2 * p) == (x / p) / 2
  {
    var q, r := x / p, x % p;
    assert x == (q / 2) * (2 * p) + ((q % 2) * p + r);
    DivUnique(x, 2 * p, q / 2, (q % 2) * p + r);
  }

  /** A value below `m * d` divides by `d` to below `m`. */
  lemma DivBelow(x: nat, d: nat, m: nat)
    requires d > 0 && x < m * d
    ensures x / d < m
  {
    var q := x / d;
    assert q * d <= x;
    MulCancel(q, m, d);
  }

  /** A value at least `k * d` divides by `d` to at least `k`. */
  lemma DivAtLeast(x: nat, d: nat, k: nat)
    requires d > 0 && k * d <= x
    ensures k <= x / d
  {
    var q := x / d;
    assert x < (q + 1) * d;
    MulCancel(k, q + 1, d);
  }

  lemma {:induction false} OrZero(x: nat)
    ensures Or(x, 0) == x
    decreases x
  {
    if x > 0 {
      OrZero(x / 2);
    }
  }

  /** An OR keeps every bit of either operand, so it is at least each. */
  lemma {:induction false} OrAtLeast(x: nat, y: nat)
    ensures x <= Or(x, y) && y <= Or(x, y)
    decreases x + y
  {
    if x != 0 || y != 0 {
      OrAtLeast(x / 2, y / 2);
    }
  }

  /** An OR of two `n`-bit values is an `n`-bit value. */
  lemma {:induction false} OrBelow(x: nat, y: nat, n: nat)
    requires x < Pow2(n) && y < Pow2(n)
    ensures Or(x, y) < Pow2(n)
    decreases n
  {
    if n > 0 && (x != 0 || y != 0) {
      OrBelow(x / 2, y / 2, n - 1);
    }
  }

  /** ORing a value below 2^m leaves the bits from `m` up as they were. */
  lemma {:induction false} OrHigh(x: nat, y: nat, m: nat)
    requires y < Pow2(m)
    ensures Or(x, y) == Shr(x, m) * Pow2(m) + Or(x % Pow2(m), y)
    decreases m, 1
  {
    if m == 0 {
      OrZero(x);
      assert Or(0, 0) == 0;
    } else if x != 0 || y != 0 {
      OrHighStep(x, y, m);
    } else {
      ShrIsDiv(x, m);
    }
  }

  lemma {:induction false} OrHighStep(x: nat, y: nat, m: nat)
    requires m > 0 && (x != 0 || y != 0) && y < Pow2(m)
    ensures Or(x, y) == Shr(x, m) * Pow2(m) + Or(x % Pow2(m), y)
    decreases m, 0
  {
    var p := Pow2(m - 1);
    var h, low := x / 2, x % Pow2(m);
    OrHigh(h, y / 2, m - 1);
    DivHalf(x, p);
    OrUnfold(x, y);
    OrUnfold(low, y);
    Regroup(Or(x, y), Or(h, y / 2), Shr(h, m - 1), p, Or(h % p, y / 2), Or(low, y));
  }

  /** The recursive step of `Or`, which also holds at (0, 0). */
  lemma OrUnfold(x: nat, y: nat)
    ensures Or(x, y) == 2 * Or(x / 2, y / 2) + (if x % 2 == 1 || y % 2 == 1 then 1 else 0)
  {
    if x == 0 && y == 0 {
      assert Or(0, 0) == 0;
    }
  }

  lemma Regroup(o: nat, o2: nat, q: nat, p: nat, c: nat, low: nat)
    requires o2 == q * p + c && o - 2 * o2 == low - 2 * c
    ensures o == q * (2 * p) + low
  {
  }

  /** The top `t` of the `n` bits of `x` are set, and no higher bit. */
  ghost predicate TopSet(x: nat, n: nat, t: nat) {
    t <= n && Pow2(n) - Pow2(n - t) <= x < Pow2(n)
  }

  function Min(a: nat, b: nat): nat {
    if a <= b then a else b
  }

  /** One step `v |= v >> s` of the smear: the run of set top bits grows
      by `s` (up to all `n` bits). */
  lemma SmearStep(x: nat, n: nat, t: nat, s: nat)
    requires 1 <= s && TopSet(x, n, t) && (s <= t || t == n)
    ensures TopSet(Or(x, Shr(x, s)), n, Min(t + s, n))
  {
    var y := Shr(x, s);
    ShrAtMost(x, s);
    OrAtLeast(x, y);
    OrBelow(x, y, n);
    if t < n {
      SmearGrow(x, n, t, s);
    }
  }

  lemma SmearGrow(x: nat, n: nat, t: nat, s: nat)
    requires 1 <= s <= t < n && TopSet(x, n, t)
    ensures Pow2(n) - Pow2(n - Min(t + s, n)) <= Or(x, Shr(x, s))
  {
    var y := Shr(x, s);
    var ps, pr, pl := Pow2(s), Pow2(n - s), Pow2(n - Min(t + s, n));
    assert Pow2(n) == ps * pr by {
      Pow2Add(s, n - s);
    }
    assert y < pr by {
      ShrIsDiv(x, s);
      DivBelow(x, ps, pr);
    }
    OrSplit(x, y, n - s);
    assert Shr(x, n - s) >= ps - 1 by {
      ShrIsDiv(x, n - s);
      Pow2Mono(n - t, n - s);
      ShiftedTop(x, pr, ps, 1);
    }
    Pow2Mono(n - Min(t + s, n), n - s);
    assert y >= pr - pl by {
      SmearLow(x, n, t, s);
    }
    GrowSum(Or(x, y), Shr(x, n - s), y, ps, pr, pl);
  }

  /** ORing `y` below 2^m into `x` keeps the bits of `x` from `m` up and
      adds at least `y`. */
  lemma OrSplit(x: nat, y: nat, m: nat)
    requires y < Pow2(m)
    ensures Shr(x, m) * Pow2(m) + y <= Or(x, y)
  {
    OrHigh(x, y, m);
    OrAtLeast(x % Pow2(m), y);
  }

  /** A value at least `(a - b) * d` divides by `d` to at least `a - b`. */
  lemma ShiftedTop(x: nat, d: nat, a: nat, b: nat)
    requires d > 0 && b <= a && a * d - b * d <= x
    ensures a - b <= x / d
  {
    assert (a - b) * d == a * d - b * d;
    DivAtLeast(x, d, a - b);
  }

  lemma GrowSum(o: nat, hi: nat, y: nat, ps: nat, pr: nat, pl: nat)
    requires hi * pr + y <= o && ps - 1 <= hi && pr - pl <= y && 1 <= ps && pl <= pr
    ensures ps * pr - pl <= o
  {
    MulMono(ps - 1, hi, pr);
    assert (ps - 1) * pr == ps * pr - pr;
  }

  /** After `v >> s` the top `t` set bits sit `s` bits lower. */
  lemma SmearLow(x: nat, n: nat, t: nat, s: nat)
    requires 1 <= s <= t < n && TopSet(x, n, t)
    ensures Shr(x, s) >= Pow2(n - s) - Pow2(n - Min(t + s, n))
  {
    var ps, pr := Pow2(s), Pow2(n - s);
    ShrIsDiv(x, s);
    assert Pow2(n) == pr * ps by {
      Pow2Add(n - s, s);
    }
    if t + s <= n {
      var pl := Pow2(n - t - s);
      assert Pow2(n - t) == pl * ps by {
        Pow2Add(n - t - s, s);
      }
      Pow2Mono(n - t - s, n - s);
      ShiftedTop(x, ps, pr, pl);
    } else {
      assert Pow2(n - t) < ps by {
        Pow2Mono(n - t, s - 1);
      }
      ShiftedTop(x, ps, pr, 1);
    }
  }

  /** The first `k` OR-with-shift steps of `RoundUpPowTwo`
      (`v |= v >> 1`, `v |= v >> 2`, `v |= v >> 4`, ...): step `j` shifts
      by 2^(j - 1). */
  function SmearSteps(x: nat, k: nat): nat {
    if k == 0 then x
    else
      var y := SmearSteps(x, k - 1);
      Or(y, Shr(y, Pow2(k - 1)))
  }

  /** The five steps `RoundUpPowTwo` takes, shifting by 1, 2, 4, 8 and 16. */
  function Smear(x: nat): nat {
    SmearSteps(x, 5)
  }

  /** After `k` steps the run of set top bits has grown by 2^k - 1 (capped
      at all `n` bits). */
  lemma {:induction false} SmearStepsTop(x: nat, n: nat, t: nat, k: nat)
    requires TopSet(x, n, t) && (t == n || t >= 1)
    ensures TopSet(SmearSteps(x, k), n, Min(t + Pow2(k) - 1, n))
    decreases k
  {
    if k > 0 {
      SmearStepsTop(x, n, t, k - 1);
      var s := Pow2(k - 1);
      var tk := Min(t + s - 1, n);
      SmearStep(SmearSteps(x, k - 1), n, tk, s);
      assert Min(tk + s, n) == Min(t + Pow2(k) - 1, n);
    }
  }

  /** The smear of a value with its top `t` bits set, when the five steps
      are enough to reach the lowest bit. */
  lemma SmearFrom(x: nat, n: nat, t: nat)
    requires TopSet(x, n, t) && (t == n || (t >= 1 && n <= t + 31))
    ensures Smear(x) == Pow2(n) - 1
  {
    SmearStepsTop(x, n, t, 5);
    assert Pow2(5) == 32;
  }

  /** The smear of a value below 2^32 is 2^BitLength - 1: all bits up to
      its highest set bit. */
  lemma SmearBitLength(x: nat)
    requires x < Word32
    ensures Smear(x) == Pow2(BitLength(x)) - 1
  {
    var n := BitLength(x);
    if x == 0 {
      assert TopSet(x, 0, 0);
      SmearFrom(x, 0, 0);
    } else {
      BitLengthBounds(x);
      assert n <= 32 by {
        Pow2Words();
        BitLengthBelow(x, 32);
      }
      assert Pow2(n) == 2 * Pow2(n - 1);
      assert TopSet(x, n, 1);
      SmearFrom(x, n, 1);
    }
  }

  /** A value with every bit up to bit `n` - 1 set smears to itself. */
  lemma SmearFull(x: nat, n: nat)
    requires x + 1 == Pow2(n)
    ensures Smear(x) == x
  {
    assert Pow2(n - n) == 1;
    assert TopSet(x, n, n);
    SmearFrom(x, n, n);
  }

  /** `x` has exactly `BitLength(x)` bits: its highest set bit is bit
      `BitLength(x) - 1`. */
  lemma {:induction false} BitLengthBounds(x: nat)
    requires x > 0
    ensures Pow2(BitLength(x) - 1) <= x < Pow2(BitLength(x))
    decreases x
  {
    if x > 1 {
      BitLengthBounds(x / 2);
    }
  }

  /** A value below 2^n needs at most `n` bits. */
  lemma {:induction false} BitLengthBelow(x: nat, n: nat)
    requires x < Pow2(n)
    ensures BitLength(x) <= n
    decreases n
  {
    if x > 0 {
      BitLengthBelow(x / 2, n - 1);
    }
  }

  /** `TrailingZeros(x)` is the index of the lowest set bit: every bit
      below it is clear and it is set. */
  lemma {:induction false} TrailingZerosMeaning(x: nat)
    requires x > 0
    ensures Bit(x, TrailingZeros(x)) == 1
    ensures forall i: nat :: i < TrailingZeros(x) ==> Bit(x, i) == 0
    decreases x
  {
    if x % 2 == 0 {
      TrailingZerosMeaning(x / 2);
      forall i: nat | i < TrailingZeros(x)
        ensures Bit(x, i) == 0
      {
        if i > 0 {
          assert Bit(x, i) == Bit(x / 2, i - 1);
        }
      }
    }
  }

  /** The trailing zeros of 2^k are its exponent. */
  lemma {:induction false} TrailingZerosPow2(k: nat)
    ensures TrailingZeros(Pow2(k)) == k
    decreases k
  {
    if k > 0 {
      TrailingZerosPow2(k - 1);
      assert Pow2(k) / 2 == Pow2(k - 1);
    }
  }

  /** Bit `i` of 2^k - 1 is set exactly when `i < k`. */
  lemma BitOfOnes(k: nat, i: nat)
    ensures Bit(Pow2(k) - 1, i) == if i < k then 1 else 0
  {
    if i < k {
      BitOfOnesBelow(k, i);
    } else {
      Pow2Mono(k, i);
      DivUnique(Pow2(k) - 1, Pow2(i), 0, Pow2(k) - 1);
      ShrIsDiv(Pow2(k) - 1, i);
    }
  }

  lemma BitOfOnesBelow(k: nat, i: nat)
    requires i < k
    ensures Shr(Pow2(k) - 1, i) % 2 == 1
  {
    var pi, g := Pow2(i), Pow2(k - i - 1);
    assert Pow2(k) == (2 * g) * pi by {
      Pow2Add(k - i, i);
    }
    OddQuotient(Pow2(k) - 1, pi, g);
    ShrIsDiv(Pow2(k) - 1, i);
  }

  /** `2 * g * d - 1` divides by `d` to the odd `2 * g - 1`. */
  lemma OddQuotient(x: nat, d: nat, g: nat)
    requires d >= 1 && g >= 1 && x + 1 == (2 * g) * d
    ensures (x / d) % 2 == 1
  {
    assert x == (2 * g - 1) * d + (d - 1);
    DivUnique(x, d, 2 * g - 1, d - 1);
  }

  /** The set bits among `lo` .. `hi` - 1 of 2^k - 1: those below `k`. */
  lemma {:induction false} SetBitsOfOnes(k: nat, lo: nat, hi: nat)
    requires lo <= hi
    ensures SetBits(Pow2(k) - 1, lo, hi) == if k <= lo then 0 else Min(k, hi) - lo
    decreases hi - lo
  {
    if lo < hi {
      SetBitsOfOnes(k, lo, hi - 1);
      BitOfOnes(k, hi - 1);
    }
  }
}
