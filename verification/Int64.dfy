/**
 64-bit division for a 32-bit machine, and the bit counts it is built on
 (abstract-machine/klib/src/int64.c).

 A `su_int` is a nat below 2^32, a `du_int` a nat below 2^64, and the union `udwords` a pair of
 halves joined by `Dword`.  A signed `di_int` is carried as its two's complement word; `Signed` gives
 its value.
 */
module Int64 {
  import opened Bits

  predicate Is32(x: nat) { x < W32 }

  predicate Is64(x: nat) { x < W64 }

  /** The union `udwords` read as one 64-bit value. */
  function Dword(high: nat, low: nat): nat {
    high * W32 + low
  }

  function High(x: nat): nat { x / W32 }

  function LowHalf(x: nat): nat { x % W32 }

  /** `x << k` on a 32-bit word. */
  function Shl32(x: nat, k: nat): nat {
    Low(Shl(x, k), 32)
  }

  /** `-(c)` for a C truth value: all ones when `c` holds. */
  function Mask32(c: bool): nat {
    if c then W32 - 1 else 0
  }

  // ----- counting zeros -----

  /** `r` leading zero bits in the 32-bit word `x`. */
  predicate LeadingZeros(x: nat, r: nat) {
    if x == 0 then r == 32 else r <= 31 && Pow2(31 - r) <= x < Pow2(32 - r)
  }

  /** `r` trailing zero bits in the word `x`. */
  predicate TrailingZeros(x: nat, r: nat) {
    if x == 0 then r == 32 else Low(x, r) == 0 && Shr(x, r) % 2 == 1
  }

  lemma HighHalfEmpty(x: nat, j: nat)
    requires x < Pow2(2 * j)
    ensures And(x, Shl(Pow2(j) - 1, j)) == 0 <==> x < Pow2(j)
    ensures Shr(x, j) < Pow2(j)
    ensures x >= Pow2(j) ==> Shr(x, j) > 0
  {
    AndHighMask(x, j, j);
    ShrBound(x, j, 2 * j);
    LowSmall(Shr(x, j), j);
    SplitAt(x, j);
    ShlMonotone(0, Shr(x, j), j);
    ShlIsMul(0, j);
    if x < Pow2(j) {
      LowSmall(x, j);
    }
  }

  /** What a shifted word says about the size of the word it came from. */
  lemma ShrSize(x: nat, k: nat, j: nat)
    requires Pow2(j) <= Shr(x, k) < Pow2(j + 1)
    ensures Pow2(j + k) <= x < Pow2(j + k + 1)
  {
    SplitAt(x, k);
    ShlMonotone(Pow2(j), Shr(x, k), k);
    ShlMonotone(Shr(x, k), Pow2(j + 1), k);
    Pow2Add(j, k);
    Pow2Add(j + 1, k);
  }

  method Clzsi2(a: nat) returns (count: nat)
    requires Is32(a)
    ensures LeadingZeros(a, count)
  {
    hide Shl, Shr, Low, Pow2, And, Or;
    WidthPowers();
    HalfMasks();
    ShiftByZero(a);
    var r, x := NarrowClz(a, a, 0, 16, 0xFFFF_0000);
    r, x := NarrowClz(a, x, r, 8, 0xFF00);
    r, x := NarrowClz(a, x, r, 4, 0xF0);
    r, x := NarrowClz(a, x, r, 2, 0xC);
    count := r + And((2 - x) % W32, Mask32(And(x, 2) == 0));
    FinishClz(a, x, r);
  }

  lemma HalfMasks()
    ensures Shl(Pow2(16) - 1, 16) == 0xFFFF_0000
    ensures Shl(Pow2(8) - 1, 8) == 0xFF00
    ensures Shl(Pow2(4) - 1, 4) == 0xF0
    ensures Shl(Pow2(2) - 1, 2) == 0xC
  {
    ShlIsMul(0xFFFF, 16);
    ShlIsMul(0xFF, 8);
    WidthPowers();
  }

  /** The last expression of `__clzsi2`, for the two bits that are left. */
  lemma FinishClz(a: nat, x: nat, r: nat)
    requires r <= 30 && x == Shr(a, 30 - r) && x < Pow2(2) && (a > 0 ==> x > 0)
    requires a == 0 ==> r == 30
    ensures LeadingZeros(a, r + And((2 - x) % W32, Mask32(And(x, 2) == 0)))
  {
    assert Pow2(2) == 4 && Pow2(1) == 2 && Pow2(0) == 1;
    assert And(x, 2) == 0 <==> x < 2;
    if x < 2 {
      FullMask(2 - x);
    }
    if a > 0 {
      ShrSize(a, 30 - r, if x == 1 then 0 else 1);
    }
  }

  lemma FullMask(x: nat)
    requires Is32(x)
    ensures And(x, W32 - 1) == x
  {
    hide And;
    WidthPowers();
    AndAllOnes(x, 32);
  }

  /** One halving step of `__clzsi2`: `t = ((x & mask) == 0) << ..; x >>= w - t; r += t`. */
  method NarrowClz(ghost a: nat, x: nat, r: nat, w: nat, mask: nat) returns (r': nat, x': nat)
    requires mask == Shl(Pow2(w) - 1, w)
    requires r <= 32 - 2 * w
    requires x == Shr(a, 32 - r - 2 * w) && x < Pow2(2 * w) && (a > 0 ==> x > 0)
    ensures r' <= 32 - w
    ensures a == 0 ==> r' == r + w
    ensures x' == Shr(a, 32 - r' - w) && x' < Pow2(w) && (a > 0 ==> x' > 0)
  {
    var t := if And(x, mask) == 0 then w else 0;
    HighHalfEmpty(x, w);
    ShrShr(a, 32 - r - 2 * w, w);
    if a == 0 {
      ShrLowOfZero(32 - r - 2 * w);
    }
    x' := Shr(x, w - t);
    r' := r + t;
  }

  method Ctzsi2(a: nat) returns (count: nat)
    requires Is32(a)
    ensures TrailingZeros(a, count)
  {
    hide Shl, Shr, Low, Pow2, And, Or;
    WidthPowers();
    LowSmall(a, 32);
    ShiftByZero(a);
    var r, x := NarrowCtz(a, a, 0, 16, 0xFFFF);
    r, x := NarrowCtz(a, x, r, 8, 0xFF);
    r, x := NarrowCtz(a, x, r, 4, 0xF);
    r, x := NarrowCtz(a, x, r, 2, 0x3);
    var x' := And(x, 3);
    count := r + And((2 - Shr(x', 1)) % W32, Mask32(And(x', 1) == 0));
    FinishCtz(a, x, r);
  }

  /** The last lines of `__ctzsi2`, for the two low bits of what is left. */
  lemma FinishCtz(a: nat, x: nat, r: nat)
    requires x == Shr(a, r) && Low(a, r) == 0
    requires if a == 0 then r == 30 else Low(x, 2) != 0
    ensures And(x, 3) < 4
    ensures var x' := And(x, 3);
            TrailingZeros(a, r + And((2 - Shr(x', 1)) % W32, Mask32(And(x', 1) == 0)))
  {
    LowTwoBits(x);
    LastCtz(And(x, 3));
    if a == 0 {
      ShrLowOfZero(r);
    } else if x % 2 == 0 {
      LowSplit(a, r, 1);
      ShrShr(a, r, 1);
      ShlIsMul(0, r);
    }
  }

  lemma LowTwoBits(x: nat)
    ensures And(x, 3) == Low(x, 2) == 2 * (x / 2 % 2) + x % 2
  {
    assert Pow2(2) == 4;
    AndMask(x, 2);
  }

  lemma LastCtz(x: nat)
    requires x < 4
    ensures And((2 - Shr(x, 1)) % W32, Mask32(And(x, 1) == 0)) == if x % 2 == 0 then 2 - x / 2 else 0
  {
    AndMask(x, 1);
    assert Pow2(1) == 2;
    assert Shr(x, 1) == x / 2;
    FullMask(2 - x / 2);
  }

  /** One halving step of `__ctzsi2`: `t = ((x & mask) == 0) << ..; x >>= t; r += t`. */
  method NarrowCtz(ghost a: nat, x: nat, r: nat, w: nat, mask: nat) returns (r': nat, x': nat)
    requires mask == Pow2(w) - 1
    requires x == Shr(a, r) && Low(a, r) == 0
    requires a > 0 ==> Low(x, 2 * w) != 0
    ensures r' == r || r' == r + w
    ensures a == 0 ==> r' == r + w
    ensures x' == Shr(a, r') && Low(a, r') == 0
    ensures a > 0 ==> Low(x', w) != 0
  {
    var t := if And(x, mask) == 0 then w else 0;
    AndMask(x, w);
    LowSplit(x, w, w);
    LowSplit(a, r, w);
    ShrShr(a, r, w);
    if a == 0 {
      ShrLowOfZero(r);
      ShrLowOfZero(w);
    }
    ShlIsMul(0, w);
    ShlIsMul(0, r);
    x' := Shr(x, t);
    r' := r + t;
  }

  lemma ShrLowOfZero(k: nat)
    ensures Shr(0, k) == 0 && Low(0, k) == 0
  {
  }

  method Clzdi2(a: nat) returns (count: nat)
    requires Is64(a) && a > 0
    ensures count <= 63 && Pow2(63 - count) <= a < Pow2(64 - count)
  {
    var high, low := High(a), LowHalf(a);
    var f := Mask32(high == 0);
    SelectHalf(high, low, high == 0);
    var c := Clzsi2(Or(And(high, W32 - 1 - f), And(low, f)));
    count := c + And(f, 32);
    MaskedWidth(high == 0);
    if high > 0 {
      JoinSize(high, low, 31 - c);
    }
  }

  method Ctzdi2(a: nat) returns (count: nat)
    requires Is64(a) && a > 0
    ensures TrailingZeros(a, count)
  {
    var high, low := High(a), LowHalf(a);
    var f := Mask32(low == 0);
    SelectHalf(high, low, low != 0);
    var c := Ctzsi2(Or(And(high, f), And(low, W32 - 1 - f)));
    count := c + And(f, 32);
    MaskedWidth(low == 0);
    JoinTrailing(high, low, c);
  }

  lemma MaskedWidth(c: bool)
    ensures And(Mask32(c), 32) == if c then 32 else 0
  {
    assert And(W32 - 1, 32) == 32 by {
      AndSymmetric(W32 - 1, 32);
      FullMask(32);
    }
  }

  /** The size of a double word is decided by its high half. */
  lemma JoinSize(high: nat, low: nat, j: nat)
    requires Is32(low) && Pow2(j) <= high < Pow2(j + 1)
    ensures Pow2(j + 32) <= Dword(high, low) < Pow2(j + 33)
  {
    DwordSplit(high, low);
    ShrSize(Dword(high, low), 32, j);
  }

  lemma DwordSplit(high: nat, low: nat)
    requires Is32(low)
    ensures Dword(high, low) == Shl(high, 32) + low
    ensures Shr(Dword(high, low), 32) == high && Low(Dword(high, low), 32) == low
  {
    WidthPowers();
    ShlIsMul(high, 32);
    SplitUnique(high, low, 32);
  }

  lemma JoinTrailing(high: nat, low: nat, c: nat)
    requires Is32(low) && (high > 0 || low > 0)
    requires TrailingZeros(if low == 0 then high else low, c)
    ensures TrailingZeros(Dword(high, low), if low == 0 then c + 32 else c)
  {
    hide Shl, Shr, Low, Pow2;
    var a := Dword(high, low);
    DwordSplit(high, low);
    if low == 0 {
      LowSplit(a, 32, c);
      ShrShr(a, 32, c);
      ShlIsMul(0, 32);
    } else {
      if c >= 32 {
        WidthPowers();
        Pow2Monotone(32, c);
        LowSmall(low, c);
        assert false;
      }
      LowOfHalf(high, low, c);
    }
  }

  /** `(high & m) | (low & ~m)` with an all-ones or zero mask picks one operand. */
  lemma SelectHalf(high: nat, low: nat, pickLow: bool)
    requires Is32(high) && Is32(low)
    ensures Or(And(high, Mask32(!pickLow)), And(low, Mask32(pickLow))) == if pickLow then low else high
  {
    WidthPowers();
    AndMask(high, 32);
    AndMask(low, 32);
    LowSmall(high, 32);
    LowSmall(low, 32);
  }

  lemma LowOfHalf(high: nat, low: nat, k: nat)
    requires Is32(low) && k <= 31
    ensures Low(Dword(high, low), k) == Low(low, k)
    ensures Shr(Dword(high, low), k) % 2 == Shr(low, k) % 2
  {
    hide Shl, Shr, Low, Pow2;
    DwordSplit(high, low);
    SplitAt(low, k);
    var mid := Shl(high, 32 - k);
    ShlShl(high, 32 - k, k);
    ShlAdd(mid, Shr(low, k), k);
    SplitUnique(mid + Shr(low, k), Low(low, k), k);
    ShlDouble(high, 31 - k);
    EvenSum(Shl(high, 31 - k), Shr(low, k));
  }

  lemma EvenSum(x: nat, y: nat)
    ensures (2 * x + y) % 2 == y % 2
  {
  }

  // ----- unsigned division -----

  /** The signed value of a 64-bit word (two's complement). */
  function Signed(x: nat): int
    requires Is64(x)
  {
    if x < 0x8000_0000_0000_0000 then x else x - W64
  }

  /** `>>` on a signed 64-bit word: the sign bit fills the top. */
  function Sar64(x: nat, k: nat): nat
    requires Is64(x)
  {
    if x < 0x8000_0000_0000_0000 then Shr(x, k) else var y := Shr(W64 - 1 - x, k); if y < W64 then W64 - 1 - y else 0
  }

  lemma SignFill(x: nat)
    requires Is64(x)
    ensures Sar64(x, 63) == if Signed(x) < 0 then W64 - 1 else 0
  {
    WidthPowers();
    LowSmall(if Signed(x) < 0 then W64 - 1 - x else x, 63);
  }

  lemma NoWrap64(x: int)
    requires 0 <= x < W64
    ensures x % W64 == x
  {
  }

  lemma MaskWithSign(x: nat)
    requires Is64(x)
    ensures And(x, W64 - 1) == x && And(x, 0) == 0
    ensures And(W64 - 1, 1) == 1 && And(0, 1) == 0
  {
    AndZero(x);
    AndZero(1);
    AndSymmetric(0, 1);
    OneBit(W64 - 1);
    hide *;
    WidthPowers();
    AndMask(x, 64);
    LowSmall(x, 64);
    AndMask(W64 - 1, 1);
  }

  /** Shifting a pair of words left by one, with `bit` entering at the bottom. */
  lemma ShiftPair(h: nat, l: nat, bit: nat)
    requires Is32(h) && Is32(l) && bit <= 1
    ensures Is32(Or(Shl32(h, 1), Shr(l, 31))) && Is32(Or(Shl32(l, 1), bit))
    ensures Dword(Or(Shl32(h, 1), Shr(l, 31)), Or(Shl32(l, 1), bit)) == (2 * Dword(h, l) + bit) % W64
    ensures Shr(h, 31) == 2 * Dword(h, l) / W64 <= 1
  {
    hide Dword, Or, Shl32, Shr, Low;
    TopBit(h);
    TopBit(l);
    DwordIs(h, l);
    DwordIs(Or(Shl32(h, 1), Shr(l, 31)), Or(Shl32(l, 1), bit));
    ShiftWord(h, Shr(l, 31));
    ShiftWord(l, bit);
    DoublePair(Shr(h, 31), Low(h, 31), Shr(l, 31), Low(l, 31), bit);
  }

  lemma DoublePair(th: nat, h: nat, tl: nat, l: nat, bit: nat)
    requires th <= 1 && tl <= 1 && bit <= 1 && h < 0x8000_0000 && l < 0x8000_0000
    ensures var x := Dword(th * 0x8000_0000 + h, tl * 0x8000_0000 + l);
            Dword(2 * h + tl, 2 * l + bit) == (2 * x + bit) % W64 && th == 2 * x / W64
  {
    var x := Dword(th * 0x8000_0000 + h, tl * 0x8000_0000 + l);
    var low := Dword(2 * h + tl, 2 * l);
    assert 2 * x == th * W64 + low && low + bit < W64;
    DivModUnique(2 * x + bit, W64, th, low + bit);
    DivModUnique(2 * x, W64, th, low);
  }

  lemma TopBit(x: nat)
    requires Is32(x)
    ensures Shr(x, 31) <= 1 && x == Shr(x, 31) * 0x8000_0000 + Low(x, 31) && Low(x, 31) < 0x8000_0000
  {
    WidthPowers();
    ShrBound(x, 31, 32);
    assert Pow2(1) == 2;
    SplitAt(x, 31);
    ShlIsMul(Shr(x, 31), 31);
  }

  /** `Shl32` by one in numbers. */
  lemma LowWord(x: nat)
    ensures Shl32(x, 1) == Shl(x, 1) % W32
  {
    WidthPowers();
    ShrIsDiv(Shl(x, 1), 32);
    hide Low, Shl, Shr, Pow2;
  }

  lemma DwordIs(h: nat, l: nat)
    ensures Dword(h, l) == h * W32 + l
  {
  }

  lemma ShiftWord(x: nat, bit: nat)
    requires Is32(x) && bit <= 1
    ensures Or(Shl32(x, 1), bit) == 2 * Low(x, 31) + bit
  {
    TopBit(x);
    DoubledLow(x, Shr(x, 31), Low(x, 31));
    hide Low, Or, Shr, Pow2;
    ShlOnce(x);
    ShlOnce(Low(x, 31));
    hide Shl;
    LowWord(x);
    OrDisjoint(Low(x, 31), bit, 1);
  }

  lemma DoubledLow(x: nat, top: nat, low: nat)
    requires x == top * 0x8000_0000 + low && low < 0x8000_0000
    ensures 2 * x % W32 == 2 * low
  {
    ModPlusMultiple(2 * low, top, W32);
  }

  /**
   What the shift-and-subtract loop keeps when `sr` steps are left: the top bits of `n` have been
   divided (quotient `done`, remainder `r`), the bits of `n` still to be used stand at the top of
   `q`, and the quotient bits but the newest, which is in `carry`, stand at its bottom.  For a
   divisor of 2^63 or more there is at most one step, on a dividend that is as large.
   */
  ghost predicate DivInv(n: nat, d: nat, sr: nat, q: nat, r: nat, carry: nat, done: nat) {
    && sr <= 63 && carry == done % 2
    && r < d && Shr(n, sr) == done * d + r
    && done < Pow2(63 - sr)
    && q == Shl(Low(n, sr), 64 - sr) + done / 2
    && (d >= 0x8000_0000_0000_0000 ==> n >= 0x8000_0000_0000_0000 && sr <= 1 && (sr == 1 ==> done == 0))
  }

  /** The top bit of `q` is the next bit of `n`. */
  lemma NextBit(n: nat, sr: nat, q: nat, done: nat) returns (bit: nat)
    requires 1 <= sr <= 63 && done < Pow2(63 - sr)
    requires q == Shl(Low(n, sr), 64 - sr) + done / 2
    ensures bit <= 1 && Shr(n, sr - 1) == 2 * Shr(n, sr) + bit
    ensures q < W64 && 2 * q / W64 == bit
    ensures 2 * q % W64 == Shl(Low(n, sr - 1), 65 - sr) + 2 * (done / 2)
  {
    bit := Shr(n, sr - 1) % 2;
    OneBit(Shr(n, sr - 1));
    hide *;
    ShrShr(n, sr - 1, 1);
    LowSplit(n, sr - 1, 1);
    RegisterTop(bit, Low(n, sr - 1), sr - 1) by { SplitAt(n, sr - 1); }
    Pow2Double(63 - sr);
    ShlDouble(Low(n, sr - 1), 64 - sr);
    DoubleWithTop(bit, Shl(Low(n, sr - 1), 64 - sr) + done / 2);
  }

  lemma RegisterTop(bit: nat, low: nat, k: nat)
    requires k <= 62 && low < Pow2(k)
    ensures Shl(Shl(bit, k) + low, 63 - k) == bit * 0x8000_0000_0000_0000 + Shl(low, 63 - k)
    ensures Shl(low, 63 - k) + Pow2(63 - k) <= 0x8000_0000_0000_0000
  {
    hide Shl, Pow2;
    WidthPowers();
    ShlAdd(Shl(bit, k), low, 63 - k);
    ShlShl(bit, k, 63 - k);
    ShlIsMul(bit, 63);
    ShlMonotone(low, Pow2(k), 63 - k);
    Pow2Add(k, 63 - k);
  }

  lemma DoubleWithTop(bit: nat, rest: nat)
    requires bit <= 1 && rest < 0x8000_0000_0000_0000
    ensures var q := bit * 0x8000_0000_0000_0000 + rest;
            q < W64 && 2 * q / W64 == bit && 2 * q % W64 == 2 * rest
  {
  }

  lemma OneBit(x: nat)
    ensures Shr(x, 1) == x / 2 && Low(x, 1) == x % 2
  {
  }

  /** The signed test of the loop body is an unsigned comparison. */
  lemma SignTest(n: nat, d: nat, r: nat)
    requires d < W64 && r < W64 && r < 2 * d
    requires d >= 0x8000_0000_0000_0000 ==> r >= 0x8000_0000_0000_0000
    ensures Signed((d - r - 1) % W64) < 0 <==> r >= d
  {
  }

  /**
   One iteration keeps the invariant: `q1` and `r1` are the registers after the shift, and `r1` has
   not overflowed.
   */
  lemma DivStep(n: nat, d: nat, sr: nat, q: nat, r: nat, carry: nat, done: nat, q1: nat, r1: nat)
    returns (done': nat)
    requires Is64(n) && Is64(d) && sr > 0 && DivInv(n, d, sr, q, r, carry, done)
    requires q1 == (2 * q + carry) % W64 && r1 == (2 * r + 2 * q / W64) % W64
    ensures Signed((d - r1 - 1) % W64) < 0 <==> r1 >= d
    ensures DivInv(n, d, sr - 1, q1, if r1 >= d then r1 - d else r1, if r1 >= d then 1 else 0, done')
  {
    hide Shl, Shr, Low, Pow2, Signed;
    var bit := NextBit(n, sr, q, done);
    StepBound(n, d, sr, r, bit, done);
    assert r1 == 2 * r + bit;
    SignTest(n, d, r1);
    var c := if r1 >= d then 1 else 0;
    done' := 2 * done + c;
    StepQuotient(Shr(n, sr), d, r, bit, done, c);
    AppendBit(q, carry);
    Pow2Double(63 - sr);
    assert done' / 2 == done;
  }

  lemma StepBound(n: nat, d: nat, sr: nat, r: nat, bit: nat, done: nat)
    requires Is64(n) && sr > 0 && bit <= 1
    requires Shr(n, sr) == done * d + r && Shr(n, sr - 1) == 2 * Shr(n, sr) + bit
    ensures 2 * r + bit < W64
    ensures sr == 1 && done == 0 ==> 2 * r + bit == n
  {
    MulNonNegative(done, d);
    ShrShrinks(n, sr - 1);
  }

  lemma StepQuotient(x: nat, d: nat, r: nat, bit: nat, done: nat, c: nat)
    requires x == done * d + r
    ensures 2 * x + bit == (2 * done + c) * d + (2 * r + bit - c * d)
  {
    assert (2 * done + c) * d == 2 * (done * d) + c * d;
  }

  lemma AppendBit(q: nat, carry: nat)
    requires q < W64 && carry <= 1
    ensures (2 * q + carry) % W64 == 2 * q % W64 + carry
  {
  }

  /** The loop of `__udivmoddi4` and its last shift. */
  method ShiftSubtract(ghost n: nat, dHigh: nat, dLow: nat, qHigh: nat, qLow: nat, rHigh: nat, rLow: nat, steps: nat)
    returns (quot: nat, rem: nat)
    requires Is64(n) && Is32(dHigh) && Is32(dLow)
    requires Is32(qHigh) && Is32(qLow) && Is32(rHigh) && Is32(rLow)
    requires DivInv(n, Dword(dHigh, dLow), steps, Dword(qHigh, qLow), Dword(rHigh, rLow), 0, 0)
    ensures n == quot * Dword(dHigh, dLow) + rem && rem < Dword(dHigh, dLow) && Is64(quot)
  {
    hide Shl, Shr, Low, Pow2, And, Or;
    var d := Dword(dHigh, dLow);
    var qh, ql, rh, rl, sr := qHigh, qLow, rHigh, rLow, steps;
    var carry := 0;
    ghost var done := 0;
    while sr > 0
      invariant 0 <= sr <= steps && carry <= 1
      invariant Is32(qh) && Is32(ql) && Is32(rh) && Is32(rl)
      invariant DivInv(n, d, sr, Dword(qh, ql), Dword(rh, rl), carry, done)
    {
      qh, ql, rh, rl, carry, done := LoopBody(n, d, sr, qh, ql, rh, rl, carry, done);
      sr := sr - 1;
    }
    quot := Or(Shl(Dword(qh, ql), 1) % W64, carry);
    rem := Dword(rh, rl);
    LastShift(n, d, Dword(qh, ql), rem, carry, done);
  }

  method LoopBody(ghost n: nat, d: nat, ghost sr: nat, qh: nat, ql: nat, rh: nat, rl: nat, carry: nat, ghost done: nat)
    returns (qh': nat, ql': nat, rh': nat, rl': nat, carry': nat, ghost done': nat)
    requires Is64(n) && Is64(d) && sr > 0 && carry <= 1
    requires Is32(qh) && Is32(ql) && Is32(rh) && Is32(rl)
    requires DivInv(n, d, sr, Dword(qh, ql), Dword(rh, rl), carry, done)
    ensures carry' <= 1 && Is32(qh') && Is32(ql') && Is32(rh') && Is32(rl')
    ensures DivInv(n, d, sr - 1, Dword(qh', ql'), Dword(rh', rl'), carry', done')
  {
    hide Shl, Shr, Low, Pow2, And, Or;
    qh', ql', rh', rl' := ShiftRegisters(qh, ql, rh, rl, carry);
    var r := Dword(rh', rl');
    done' := DivStep(n, d, sr, Dword(qh, ql), Dword(rh, rl), carry, done, Dword(qh', ql'), r);
    carry', r := Subtract(d, r);
    rh', rl' := High(r), LowHalf(r);
    JoinHalves(r);
  }

  lemma JoinHalves(x: nat)
    ensures Dword(High(x), LowHalf(x)) == x && Is32(LowHalf(x))
    ensures Is64(x) ==> Is32(High(x))
  {
  }

  /** `r:q = ((r:q) << 1) | carry`, word by word. */
  method ShiftRegisters(qh: nat, ql: nat, rh: nat, rl: nat, carry: nat)
    returns (qh': nat, ql': nat, rh': nat, rl': nat)
    requires carry <= 1 && Is32(qh) && Is32(ql) && Is32(rh) && Is32(rl)
    ensures Is32(qh') && Is32(ql') && Is32(rh') && Is32(rl')
    ensures Dword(rh', rl') == (2 * Dword(rh, rl) + 2 * Dword(qh, ql) / W64) % W64
    ensures Dword(qh', ql') == (2 * Dword(qh, ql) + carry) % W64
  {
    hide *;
    ShiftPair(qh, ql, carry);
    ShiftPair(rh, rl, Shr(qh, 31));
    rh' := Or(Shl32(rh, 1), Shr(rl, 31));
    rl' := Or(Shl32(rl, 1), Shr(qh, 31));
    qh' := Or(Shl32(qh, 1), Shr(ql, 31));
    ql' := Or(Shl32(ql, 1), carry);
  }

  /** The branch-free `if (r >= d) { r -= d; carry = 1; }`. */
  method Subtract(d: nat, r: nat) returns (carry: nat, r': nat)
    requires Is64(d) && Is64(r)
    requires Signed((d - r - 1) % W64) < 0 <==> r >= d
    ensures carry == if r >= d then 1 else 0
    ensures r' == if r >= d then r - d else r
  {
    hide Signed, Sar64, And;
    var s := Sar64((d - r - 1) % W64, 63);
    SignFill((d - r - 1) % W64);
    MaskWithSign(d);
    carry := And(s, 1);
    r' := (r - And(d, s)) % W64;
    NoWrap64(if r >= d then r - d else r);
  }

  lemma LastShift(n: nat, d: nat, q: nat, r: nat, carry: nat, done: nat)
    requires DivInv(n, d, 0, q, r, carry, done)
    ensures Or(Shl(q, 1) % W64, carry) == done < W64 && n == done * d + r
  {
    HalfRange(done);
    ShlIsMul(0, 64);
    AppendCarry(q, carry);
  }

  lemma AppendCarry(q: nat, carry: nat)
    requires 2 * q < W64 && carry <= 1
    ensures Or(Shl(q, 1) % W64, carry) == 2 * q + carry
  {
    ShlOnce(q);
    NoWrap64(2 * q);
    hide Shl, Or, Pow2;
    OrDisjoint(q, carry, 1);
  }

  lemma ShlOnce(x: nat)
    ensures Shl(x, 1) == 2 * x && Pow2(1) == 2
  {
    ShiftByZero(x);
    assert Pow2(0) == 1;
  }

  lemma HalfRange(x: nat)
    requires x < Pow2(63)
    ensures 2 * x < W64
  {
    WidthPowers();
  }

  // ----- aligning the dividend under the divisor -----

  lemma Shl32Low(x: nat, k: nat)
    requires Is32(x) && k <= 32
    ensures Shl32(x, 32 - k) == Shl(Low(x, k), 32 - k) < W32
    ensures Shl(x, 32 - k) == Shl(Shr(x, k), 32) + Shl(Low(x, k), 32 - k)
  {
    hide Shl, Shr, Low, Pow2;
    WidthPowers();
    var h, l := Shr(x, k), Low(x, k);
    SplitAt(x, k);
    ShlAdd(Shl(h, k), l, 32 - k);
    ShlShl(h, k, 32 - k);
    ShlMonotone(l, Pow2(k), 32 - k);
    Pow2Add(k, 32 - k);
    SplitUnique(h, Shl(l, 32 - k), 32);
  }

  /** `(h << (32 - k)) | (l >> k)`: the middle word of a pair shifted by `k`. */
  lemma Funnel(h: nat, l: nat, k: nat)
    requires Is32(h) && Is32(l) && k <= 32
    ensures Or(Shl32(h, 32 - k), Shr(l, k)) == Shl(Low(h, k), 32 - k) + Shr(l, k) < W32
  {
    WidthPowers();
    assert l < Pow2(32);
    hide *;
    Shl32Low(h, k);
    ShrBound(l, k, 32);
    OrDisjoint(Low(h, k), Shr(l, k), 32 - k);
    SplitAt(h, k);
    ShlMonotone(Low(h, k), Pow2(k), 32 - k);
    Pow2Add(k, 32 - k);
  }

  lemma ShrPair(h: nat, l: nat, k: nat)
    requires Is32(h) && Is32(l) && k <= 32
    ensures Shr(Dword(h, l), k) == Shl(h, 32 - k) + Shr(l, k)
    ensures Low(Dword(h, l), k) == Low(l, k)
  {
    hide Shl, Shr, Low, Pow2;
    DwordSplit(h, l);
    SplitAt(l, k);
    ShlShl(h, 32 - k, k);
    ShlAdd(Shl(h, 32 - k), Shr(l, k), k);
    SplitUnique(Shl(h, 32 - k) + Shr(l, k), Low(l, k), k);
  }

  /** The remainder register after an initial shift by at most one word. */
  lemma AlignedRemainder(h: nat, l: nat, k: nat)
    requires Is32(h) && Is32(l) && k <= 32
    ensures Is32(Shr(h, k)) && Is32(Or(Shl32(h, 32 - k), Shr(l, k)))
    ensures Dword(Shr(h, k), Or(Shl32(h, 32 - k), Shr(l, k))) == Shr(Dword(h, l), k)
  {
    hide Shl, Shr, Low, Pow2;
    Funnel(h, l, k);
    Shl32Low(h, k);
    ShrPair(h, l, k);
    ShrShrinks(h, k);
    ShlIsMul(Shr(h, k), 32);
    WidthPowers();
  }

  /** The quotient register after an initial shift by at most one word. */
  lemma AlignedQuotient(h: nat, l: nat, k: nat)
    requires Is32(h) && Is32(l) && k <= 32
    ensures Is32(Shl32(l, 32 - k))
    ensures Dword(Shl32(l, 32 - k), 0) == Shl(Low(Dword(h, l), k), 64 - k)
  {
    hide Shl, Shr, Low, Pow2;
    Shl32Low(l, k);
    ShrPair(h, l, k);
    ShlShl(Low(l, k), 32 - k, 32);
    DwordSplit(Shl32(l, 32 - k), 0);
  }

  /** Both registers after an initial shift by more than one word. */
  lemma AlignedLong(h: nat, l: nat, k: nat)
    requires Is32(h) && Is32(l) && 1 <= k <= 31
    ensures Is32(Shl32(l, 32 - k)) && Is32(Or(Shl32(h, 32 - k), Shr(l, k))) && Is32(Shr(h, k))
    ensures Shr(Dword(h, l), k + 32) == Shr(h, k)
    ensures Dword(Or(Shl32(h, 32 - k), Shr(l, k)), Shl32(l, 32 - k))
            == Shl(Low(Dword(h, l), k + 32), 32 - k)
  {
    hide Shl, Shr, Low, Pow2;
    DwordSplit(h, l);
    ShrShr(Dword(h, l), 32, k);
    ShrShrinks(h, k);
    Funnel(h, l, k);
    Shl32Low(l, k);
    LowSplit(Dword(h, l), 32, k);
    var lh := Low(h, k);
    ShlAdd(Shl(lh, 32), l, 32 - k);
    ShlShl(lh, 32, 32 - k);
    ShlShl(lh, 32 - k, 32);
    ShlAdd(Shl(lh, 32 - k), Shr(l, k), 32);
    DwordSplit(Shl(lh, 32 - k) + Shr(l, k), Shl32(l, 32 - k));
  }

  /** `q = n << (64 - sr); r = n >> sr` for a shift of less than a word. */
  method AlignShort(nh: nat, nl: nat, sr: nat) returns (qh: nat, rh: nat, rl: nat)
    requires Is32(nh) && Is32(nl) && 1 <= sr <= 31
    ensures Is32(qh) && Is32(rh) && Is32(rl)
    ensures Dword(qh, 0) == Shl(Low(Dword(nh, nl), sr), 64 - sr)
    ensures Dword(rh, rl) == Shr(Dword(nh, nl), sr)
  {
    hide Shl, Shr, Low, Pow2, And, Or;
    qh := Shl32(nl, 32 - sr);
    rh := Shr(nh, sr);
    rl := Or(Shl32(nh, 32 - sr), Shr(nl, sr));
    AlignedQuotient(nh, nl, sr);
    AlignedRemainder(nh, nl, sr);
  }

  /** The same for a shift of more than a word. */
  method AlignLong(nh: nat, nl: nat, sr: nat) returns (qh: nat, ql: nat, rl: nat)
    requires Is32(nh) && Is32(nl) && 33 <= sr <= 63
    ensures Is32(qh) && Is32(ql) && Is32(rl)
    ensures Dword(qh, ql) == Shl(Low(Dword(nh, nl), sr), 64 - sr)
    ensures Dword(0, rl) == Shr(Dword(nh, nl), sr)
  {
    hide Shl, Shr, Low, Pow2, And, Or;
    ql := Shl32(nl, 64 - sr);
    qh := Or(Shl32(nh, 64 - sr), Shr(nl, sr - 32));
    rl := Shr(nh, sr - 32);
    AlignedLong(nh, nl, sr - 32);
  }

  /** Aligned registers start the loop. */
  lemma StartLoop(n: nat, d: nat, sr: nat, q: nat, r: nat)
    requires 1 <= sr <= 63 && r == Shr(n, sr) < d
    requires q == Shl(Low(n, sr), 64 - sr)
    requires d >= 0x8000_0000_0000_0000 ==> n >= 0x8000_0000_0000_0000 && sr == 1
    ensures DivInv(n, d, sr, q, r, 0, 0)
  {
    hide Shl, Shr, Low, Pow2;
  }

  /** Shifting the dividend to one bit less than the divisor makes it smaller than the divisor. */
  lemma ShiftedBelow(n: nat, d: nat, sr: nat, size: nat)
    requires sr <= size && n < Pow2(size) && Pow2(size - sr) <= d
    ensures Shr(n, sr) < d
  {
    hide Shl, Shr, Low, Pow2;
    ShrBound(n, sr, size);
  }

  // ----- __udivmoddi4 -----

  method DivideWords(n: nat, d: nat) returns (q: nat, r: nat)
    requires Is32(n) && d > 0
    ensures n == q * d + r && r < d && q < W32
  {
    q, r := n / d, n % d;
    MulMonotone(1, d, q);
  }

  /** `n / d` where `d` is a multiple of 2^32 (lines 450-510 of int64.c). */
  method DivideByHighWord(nh: nat, nl: nat, dh: nat) returns (quot: nat, rem: nat)
    requires Is32(nh) && Is32(nl) && Is32(dh) && nh > 0 && dh > 0
    ensures Dword(nh, nl) == quot * Dword(dh, 0) + rem && rem < Dword(dh, 0) && Is64(quot)
  {
    hide Shl, Shr, Low, Pow2, And, Or;
    if nl == 0 {
      var q, r := DivideWords(nh, dh);
      ScaleDivision(nh, dh, q, r, 0);
      return q, Dword(r, 0);
    }
    var cd := Clzsi2(dh);
    PowerOfTwoTest(dh, cd);
    if And(dh, dh - 1) == 0 {
      quot, rem := DivideByHighPower(nh, nl, dh, cd);
      return;
    }
    var cn := Clzsi2(nh);
    var sr := (cd - cn) % W32;
    if sr > 30 {
      quot, rem := 0, Dword(nh, nl);
      SmallerByClz(nh, dh, cn, cd);
      return;
    }
    sr := sr + 1;
    AlignedByClz(nh, nl, dh, 0, cn, cd, sr);
    var qh, rh, rl := AlignShort(nh, nl, sr);
    StartLoop(Dword(nh, nl), Dword(dh, 0), sr, Dword(qh, 0), Dword(rh, rl));
    quot, rem := ShiftSubtract(Dword(nh, nl), dh, 0, qh, 0, rh, rl, sr);
  }

  method DivideByHighPower(nh: nat, nl: nat, dh: nat, ghost clz: nat) returns (quot: nat, rem: nat)
    requires Is32(nh) && Is32(nl) && Is32(dh) && dh > 0 && clz <= 31 && dh == Pow2(31 - clz)
    ensures Dword(nh, nl) == quot * Dword(dh, 0) + rem && rem < Dword(dh, 0) && Is64(quot)
  {
    var shift := Ctzsi2(dh);
    quot := Shr(nh, shift);
    rem := Dword(And(nh, dh - 1), nl);
    HighPower(nh, nl, dh, clz, shift);
  }

  /** A divisor `dh * 2^32` that is a power of two. */
  lemma HighPower(nh: nat, nl: nat, dh: nat, clz: nat, ctz: nat)
    requires Is32(nh) && Is32(nl) && dh > 0 && clz <= 31 && dh == Pow2(31 - clz) && TrailingZeros(dh, ctz)
    ensures Dword(nh, nl) == Shr(nh, ctz) * Dword(dh, 0) + Dword(And(nh, dh - 1), nl)
    ensures Dword(And(nh, dh - 1), nl) < Dword(dh, 0) && Is64(Shr(nh, ctz))
  {
    hide Shl, Shr, Low, Pow2;
    PowerOfTwoShift(dh, clz, ctz);
    DivideByPower(nh, ctz);
    ScaleDivision(nh, dh, Shr(nh, ctz), And(nh, dh - 1), nl);
    ShrShrinks(nh, ctz);
  }

  /** `n / d` where `d` fits in a word and `n` does not (lines 513-555). */
  method DivideByWord(nh: nat, nl: nat, dl: nat) returns (quot: nat, rem: nat)
    requires Is32(nh) && Is32(nl) && Is32(dl) && nh > 0 && dl > 0
    ensures Dword(nh, nl) == quot * dl + rem && rem < dl && Is64(quot)
  {
    hide Shl, Shr, Low, Pow2, And, Or;
    var cd := Clzsi2(dl);
    PowerOfTwoTest(dl, cd);
    if And(dl, dl - 1) == 0 {
      rem := And(nl, dl - 1);
      if dl == 1 {
        quot := Dword(nh, nl);
        return;
      }
      var sr := Ctzsi2(dl);
      PowerOfTwoShift(dl, cd, sr);
      quot := Dword(Shr(nh, sr), Or(Shl32(nh, 32 - sr), Shr(nl, sr)));
      AlignedRemainder(nh, nl, sr);
      ShrPair(nh, nl, sr);
      DivideByPower(nl, sr);
      DivideByPower(Dword(nh, nl), sr);
      return;
    }
    var cn := Clzsi2(nh);
    var sr := (33 + cd - cn) % W32;
    AlignedToWord(nh, nl, dl, cn, cd, sr);
    var qh, ql, rh, rl;
    if sr == 32 {
      ql, qh, rh, rl := 0, nl, 0, nh;
      DwordSplit(nh, nl);
      DwordSplit(nl, 0);
    } else if sr < 32 {
      ql := 0;
      qh, rh, rl := AlignShort(nh, nl, sr);
    } else {
      rh := 0;
      qh, ql, rl := AlignLong(nh, nl, sr);
    }
    StartLoop(Dword(nh, nl), dl, sr, Dword(qh, ql), Dword(rh, rl));
    quot, rem := ShiftSubtract(Dword(nh, nl), 0, dl, qh, ql, rh, rl, sr);
  }

  /** `n / d` where both halves of `d` are nonzero (lines 556-585). */
  method DivideByPair(nh: nat, nl: nat, dh: nat, dl: nat) returns (quot: nat, rem: nat)
    requires Is32(nh) && Is32(nl) && Is32(dh) && Is32(dl) && nh > 0 && dh > 0 && dl > 0
    ensures Dword(nh, nl) == quot * Dword(dh, dl) + rem && rem < Dword(dh, dl) && Is64(quot)
  {
    hide Shl, Shr, Low, Pow2, And, Or;
    var cd := Clzsi2(dh);
    var cn := Clzsi2(nh);
    var sr := (cd - cn) % W32;
    if sr > 31 {
      quot, rem := 0, Dword(nh, nl);
      SmallerByClz(nh, dh, cn, cd);
      return;
    }
    sr := sr + 1;
    var qh, ql, rh, rl;
    ql := 0;
    if sr == 32 {
      qh, rh, rl := nl, 0, nh;
      DwordSplit(nh, nl);
      DwordSplit(nl, 0);
    } else {
      qh, rh, rl := AlignShort(nh, nl, sr);
    }
    AlignedByClz(nh, nl, dh, dl, cn, cd, sr);
    quot, rem := ShiftSubtract(Dword(nh, nl), dh, dl, qh, ql, rh, rl, sr);
  }

  /** Unsigned division of any 64-bit words; the divisor may be anything but zero. */
  method Udivmoddi4(a: nat, b: nat) returns (quot: nat, rem: nat)
    requires Is64(a) && Is64(b) && b != 0
    ensures a == quot * b + rem && rem < b && Is64(quot)
  {
    var nh, nl := High(a), LowHalf(a);
    var dh, dl := High(b), LowHalf(b);
    JoinHalves(a);
    JoinHalves(b);
    if nh == 0 {
      if dh == 0 {
        return nl / dl, nl % dl;
      }
      return 0, nl;
    }
    if dl == 0 {
      quot, rem := DivideByHighWord(nh, nl, dh);
    } else if dh == 0 {
      quot, rem := DivideByWord(nh, nl, dl);
    } else {
      quot, rem := DivideByPair(nh, nl, dh, dl);
    }
  }

  lemma ScaleDivision(nh: nat, dh: nat, q: nat, r: nat, low: nat)
    requires Is32(low) && nh == q * dh + r && r < dh
    ensures Dword(nh, low) == q * Dword(dh, 0) + Dword(r, low)
    ensures Dword(r, low) < Dword(dh, 0)
  {
    assert q * (dh * W32) == (q * dh) * W32;
  }

  lemma PowerOfTwoTest(d: nat, clz: nat)
    requires Is32(d) && d > 0 && LeadingZeros(d, clz)
    ensures And(d, d - 1) == 0 <==> d == Pow2(31 - clz)
    ensures And(d, d - 1) != 0 ==> clz <= 30
  {
    AndPredPowerOfTwo(d, 31 - clz);
    assert Pow2(0) == 1 && Pow2(1) == 2;
  }

  lemma PowerOfTwoShift(d: nat, clz: nat, ctz: nat)
    requires d > 0 && clz <= 31 && d == Pow2(31 - clz) && TrailingZeros(d, ctz)
    ensures ctz == 31 - clz && d == Pow2(ctz)
  {
    hide Shl, Shr, Low, Pow2;
    var j := 31 - clz;
    ShlOne(j);
    SplitUnique(1, 0, j);
    if ctz < j {
      ShlShl(1, j - ctz, ctz);
      SplitUnique(Shl(1, j - ctz), 0, ctz);
      ShlDouble(1, j - ctz - 1);
    } else if ctz > j {
      Pow2Monotone(j, ctz);
      LowSmall(d, ctz);
    }
  }

  lemma DivideByPower(x: nat, k: nat)
    ensures x == Shr(x, k) * Pow2(k) + And(x, Pow2(k) - 1)
    ensures And(x, Pow2(k) - 1) == Low(x, k) < Pow2(k)
  {
    SplitAt(x, k);
    ShlIsMul(Shr(x, k), k);
    AndMask(x, k);
  }

  /** A wrapped difference of leading zero counts means the dividend is the smaller one. */
  lemma SmallerByClz(nh: nat, dh: nat, cn: nat, cd: nat)
    requires Is32(nh) && Is32(dh) && nh > 0 && dh > 0
    requires LeadingZeros(nh, cn) && LeadingZeros(dh, cd)
    requires (cd - cn) % W32 > 31 || cd < cn
    ensures nh < dh
  {
    hide Shl, Shr, Low, Pow2;
    Pow2Monotone(32 - cn, 31 - cd);
  }

  lemma AlignedByClz(nh: nat, nl: nat, dh: nat, dl: nat, cn: nat, cd: nat, sr: nat)
    requires Is32(nh) && Is32(nl) && Is32(dh) && Is32(dl) && nh > 0 && dh > 0
    requires LeadingZeros(nh, cn) && LeadingZeros(dh, cd)
    requires sr == cd - cn + 1 && 1 <= sr <= 32
    ensures Shr(Dword(nh, nl), sr) < Dword(dh, dl)
    ensures Dword(dh, dl) >= 0x8000_0000_0000_0000 ==> Dword(nh, nl) >= 0x8000_0000_0000_0000 && sr == 1
  {
    hide Shl, Shr, Low, Pow2;
    JoinSize(nh, nl, 31 - cn);
    JoinSize(dh, dl, 31 - cd);
    ShiftedBelow(Dword(nh, nl), Dword(dh, dl), sr, 64 - cn);
    WidthPowers();
    if cd > 0 {
      Pow2Monotone(64 - cd, 63);
    }
  }

  lemma AlignedToWord(nh: nat, nl: nat, dl: nat, cn: nat, cd: nat, sr: nat)
    requires Is32(nh) && Is32(nl) && Is32(dl) && nh > 0 && dl > 0
    requires LeadingZeros(nh, cn) && LeadingZeros(dl, cd) && cd <= 30
    requires sr == (33 + cd - cn) % W32
    ensures 2 <= sr <= 63
    ensures Shr(Dword(nh, nl), sr) < dl
  {
    hide Shl, Shr, Low, Pow2;
    JoinSize(nh, nl, 31 - cn);
    ShiftedBelow(Dword(nh, nl), dl, sr, 64 - cn);
  }

  // ----- signed division -----

  const INT64_MIN: int := -0x8000_0000_0000_0000

  function Abs(x: int): nat { if x < 0 then -x else x }

  /** Division rounding toward zero, the C quotient. */
  function TruncDiv(a: int, b: int): int
    requires b != 0
  {
    if (a < 0) == (b < 0) then Abs(a) / Abs(b) else -(Abs(a) / Abs(b))
  }

  /** The C remainder. */
  function TruncMod(a: int, b: int): int
    requires b != 0
  {
    if a < 0 then -(Abs(a) % Abs(b)) else Abs(a) % Abs(b)
  }

  /** The C11 contract of `/` and `%`: the remainder is smaller than the divisor and never against the dividend's sign. */
  ghost predicate IsTruncated(a: int, b: int, q: int, r: int) {
    a == q * b + r && Abs(r) < Abs(b) && (r != 0 ==> (r < 0 <==> a < 0))
  }

  /** That contract has exactly one solution, and `TruncDiv`, `TruncMod` is it. */
  lemma TruncatedUnique(a: int, b: int, q: int, r: int)
    requires b != 0
    ensures IsTruncated(a, b, q, r) <==> q == TruncDiv(a, b) && r == TruncMod(a, b)
  {
    TruncatedHolds(a, b);
    if IsTruncated(a, b, q, r) {
      var sq := if (a < 0) == (b < 0) then q else -q;
      MagnitudeEquation(a, b, q, r, sq);
      DivModUnique(Abs(a), Abs(b), sq, Abs(r));
    }
  }

  lemma TruncatedHolds(a: int, b: int)
    requires b != 0
    ensures IsTruncated(a, b, TruncDiv(a, b), TruncMod(a, b))
  {
    var m, n := Abs(a), Abs(b);
    DivisionEquation(m, n);
    SignedDivision(a, b, m / n, m % n);
  }

  lemma DivisionEquation(m: nat, n: nat)
    requires n > 0
    ensures m == m / n * n + m % n && m / n >= 0
  {
  }

  lemma SignedDivision(a: int, b: int, q: int, r: int)
    requires b != 0 && Abs(a) == q * Abs(b) + r && 0 <= r < Abs(b)
    ensures IsTruncated(a, b, if (a < 0) == (b < 0) then q else -q, if a < 0 then -r else r)
  {
    SignedProducts(q, b);
  }

  lemma SignedProducts(x: int, y: int)
    ensures (-x) * y == -(x * y) && x * (-y) == -(x * y) && (-x) * (-y) == x * y
  {
  }

  lemma MagnitudeEquation(a: int, b: int, q: int, r: int, sq: int)
    requires b != 0 && IsTruncated(a, b, q, r)
    requires sq == if (a < 0) == (b < 0) then q else -q
    ensures Abs(a) == sq * Abs(b) + Abs(r)
  {
    SignedProducts(q, b);
  }

  /** `(x ^ s) - s`, where `s` is a sign mask: negation when `s` is all ones. */
  function ApplySign(x: nat, s: nat): (r: nat)
    ensures Is64(r)
  {
    (Xor(x, s) - s) % W64
  }

  lemma NegativeWraps(x: int)
    ensures -x % W64 == (W64 - x) % W64
  {
    assert W64 - x == -x + W64;
  }

  lemma ApplySignMeaning(x: nat, negative: bool)
    requires Is64(x)
    ensures ApplySign(x, if negative then W64 - 1 else 0) == if negative then (W64 - x) % W64 else x
  {
    assert ApplySign(x, if negative then W64 - 1 else 0) == if negative then (Xor(x, W64 - 1) - (W64 - 1)) % W64 else Xor(x, 0) % W64;
    hide *;
    if negative {
      WidthPowers();
      XorOnes(x, 64);
      NegativeWraps(x);
    } else {
      XorZero(x);
      NoWrap64(x);
    }
  }

  /** `a >> 63` for a signed word. */
  method SignMask(a: nat) returns (s: nat)
    requires Is64(a)
    ensures s == if Signed(a) < 0 then W64 - 1 else 0
  {
    s := Sar64(a, 63);
    SignFill(a);
  }

  lemma AbsNonzero(b: nat)
    requires Is64(b) && b != 0
    ensures Signed(b) != 0 && Abs(Signed(b)) > 0
  {
  }

  lemma AbsWord(x: nat)
    requires Is64(x)
    ensures Abs(Signed(x)) == if Signed(x) < 0 then (W64 - x) % W64 else x
    ensures Abs(Signed(x)) <= 0x8000_0000_0000_0000
  {
  }

  method Divdi3(a: nat, b: nat) returns (quot: nat)
    requires Is64(a) && Is64(b) && b != 0
    ensures Is64(quot)
    ensures !(Signed(a) == INT64_MIN && Signed(b) == -1) ==> Signed(quot) == TruncDiv(Signed(a), Signed(b))
    ensures Signed(a) == INT64_MIN && Signed(b) == -1 ==> Signed(quot) == INT64_MIN
  {
    hide Xor, Sar64, ApplySign, TruncDiv;
    AbsNonzero(b);
    var sa := SignMask(a);
    var sb := SignMask(b);
    AbsWord(a);
    AbsWord(b);
    ApplySignMeaning(a, Signed(a) < 0);
    ApplySignMeaning(b, Signed(b) < 0);
    var m, n := ApplySign(a, sa), ApplySign(b, sb);
    var q, r := Udivmoddi4(m, n);
    DivModUnique(m, n, q, r);
    XorMasks(sa, sb);
    var s := Xor(sa, sb);
    ApplySignMeaning(q, s != 0);
    quot := ApplySign(q, s);
    SignedQuotient(Signed(a), Signed(b), q);
    Negated(q);
  }

  lemma Negated(q: nat)
    requires q <= 0x8000_0000_0000_0000
    ensures Signed((W64 - q) % W64) == -(q as int)
  {
    if q > 0 {
      NoWrap64(W64 - q);
    }
  }

  lemma XorMasks(x: nat, y: nat)
    requires x in {0, W64 - 1} && y in {0, W64 - 1}
    ensures Xor(x, y) == if x == y then 0 else W64 - 1
  {
    if x != 0 && y != 0 {
      hide Pow2, Xor;
      WidthPowers();
      XorOnes(x, 64);
    }
  }

  /** The magnitude of a quotient fits a signed word except for `INT64_MIN / -1`. */
  lemma SignedQuotient(a: int, b: int, q: nat)
    requires b != 0 && Abs(a) <= 0x8000_0000_0000_0000 && INT64_MIN <= a && q == Abs(a) / Abs(b)
    ensures q <= 0x8000_0000_0000_0000
    ensures q == 0x8000_0000_0000_0000 <==> Abs(a) == 0x8000_0000_0000_0000 && Abs(b) == 1
    ensures TruncDiv(a, b) == if (a < 0) == (b < 0) then q as int else -(q as int)
  {
    var n := Abs(b);
    assert Abs(a) == q * n + Abs(a) % n;
    if n >= 2 {
      MulMonotone(2, n, q);
    }
  }

  /** The sign of the dividend, put to the remainder of the magnitudes. */
  lemma SignedRemainder(a: int, b: int, r: nat)
    requires b != 0 && Abs(b) > 0 && Abs(a) <= 0x8000_0000_0000_0000 && Abs(b) <= 0x8000_0000_0000_0000 && r == Abs(a) % Abs(b)
    ensures r < 0x8000_0000_0000_0000 && Signed(if a < 0 then (W64 - r) % W64 else r) == TruncMod(a, b)
  {
    hide Abs;
    if a < 0 && r > 0 {
      NoWrap64(W64 - r);
    }
  }

  method Moddi3(a: nat, b: nat) returns (rem: nat)
    requires Is64(a) && Is64(b) && b != 0
    ensures Is64(rem) && Signed(rem) == TruncMod(Signed(a), Signed(b))
  {
    hide Xor, Sar64, ApplySign, Signed, TruncMod, Abs;
    var sb := SignMask(b);
    ApplySignMeaning(b, Signed(b) < 0);
    AbsWord(b);
    var n := ApplySign(b, sb);
    var sa := SignMask(a);
    ApplySignMeaning(a, Signed(a) < 0);
    AbsWord(a);
    var m := ApplySign(a, sa);
    AbsNonzero(b);
    var q, r := Udivmoddi4(m, n);
    DivModUnique(m, n, q, r);
    ApplySignMeaning(r, Signed(a) < 0);
    rem := ApplySign(r, sa);
    SignedRemainder(Signed(a), Signed(b), r);
  }

  /** Quotient and remainder together; the remainder is computed back from the quotient. */
  method Divmoddi4(a: nat, b: nat) returns (quot: nat, rem: nat)
    requires Is64(a) && Is64(b) && b != 0
    ensures Is64(quot) && Is64(rem)
    ensures !(Signed(a) == INT64_MIN && Signed(b) == -1) ==> Signed(quot) == TruncDiv(Signed(a), Signed(b))
    ensures Signed(rem) == TruncMod(Signed(a), Signed(b))
  {
    quot := Divdi3(a, b);
    rem := (a - quot * b) % W64;
    RemainderWraps(a, b, quot);
  }

  lemma SignedWhole(a: nat) returns (i: int)
    requires Is64(a)
    ensures a == Signed(a) + i * W64
  {
    i := if a < 0x8000_0000_0000_0000 then 0 else 1;
  }

  lemma RemainderWraps(a: nat, b: nat, q: nat)
    requires Is64(a) && Is64(b) && b != 0 && Is64(q)
    requires (Signed(q) - TruncDiv(Signed(a), Signed(b))) % W64 == 0
    ensures Signed((a - q * b) % W64) == TruncMod(Signed(a), Signed(b))
  {
    hide TruncDiv, TruncMod;
    AbsNonzero(b);
    var sa, sb := Signed(a), Signed(b);
    var t, r := TruncDiv(sa, sb), TruncMod(sa, sb);
    TruncatedHolds(sa, sb);
    AbsWord(b);
    var i := SignedWhole(a);
    var j := SignedWhole(b);
    var l := SignedWhole(q);
    var m := (Signed(q) - t) / W64;
    assert Signed(q) - t == m * W64;
    var k := m + l;
    hide Signed;
    WrapsBack(r, sa, sb, t, i, j, k);
  }

  lemma WrapsBack(r: int, sa: int, sb: int, t: int, i: int, j: int, k: int)
    requires sa == t * sb + r && -0x8000_0000_0000_0000 <= r < 0x8000_0000_0000_0000
    ensures Signed((sa + i * W64 - (t + k * W64) * (sb + j * W64)) % W64) == r
  {
    ProductWraps(t, k, sb, j);
    var c := t * j + k * sb + k * j * W64;
    assert sa + i * W64 - (t + k * W64) * (sb + j * W64) == r + (i - c) * W64;
    ModPlusMultiple(r, i - c, W64);
  }

  lemma ProductWraps(x: int, k: int, y: int, j: int)
    ensures (x + k * W64) * (y + j * W64) == x * y + (x * j + k * y + k * j * W64) * W64
  {
  }
}
