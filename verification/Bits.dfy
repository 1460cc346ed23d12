/**
 Fixed-width machine words as natural numbers.

 A w-bit word is a `nat` below `Pow2(w)`.  The C operators `&`, `|`, `^`, `<<` and `>>` are defined
 here bit by bit, without a width: a left shift in a w-bit word is `Low(Shl(x, k), w)`.  The lemmas
 say when a bit operation is ordinary arithmetic, which is what the other modules need.
 */
module Bits {

  /** Two to the power `k`. */
  function Pow2(k: nat): (p: nat)
    ensures p > 0
  {
    if k == 0 then 1 else 2 * Pow2(k - 1)
  }

  const W8: nat := 0x100
  const W16: nat := 0x1_0000
  const W32: nat := 0x1_0000_0000
  const W64: nat := 0x1_0000_0000_0000_0000

  /** `x << k`, with nothing shifted out. */
  function Shl(x: nat, k: nat): nat {
    if k == 0 then x else 2 * Shl(x, k - 1)
  }

  /** `x >> k`. */
  function Shr(x: nat, k: nat): nat {
    if k == 0 then x else Shr(x / 2, k - 1)
  }

  /** The low `k` bits of `x`. */
  function Low(x: nat, k: nat): nat {
    if k == 0 then 0 else 2 * Low(x / 2, k - 1) + x % 2
  }

  /** Bit `k` of `x`. */
  function Bit(x: nat, k: nat): (b: nat)
    ensures b < 2
  {
    Shr(x, k) % 2
  }

  /** Bitwise and. */
  function And(x: nat, y: nat): (r: nat)
    ensures r <= x && r <= y
  {
    if x == 0 || y == 0 then 0
    else 2 * And(x / 2, y / 2) + (if x % 2 == 1 && y % 2 == 1 then 1 else 0)
  }

  /** Bitwise or. */
  function Or(x: nat, y: nat): (r: nat)
    ensures r <= x + y
    decreases x + y
  {
    if x == 0 then y else if y == 0 then x
    else 2 * Or(x / 2, y / 2) + (if x % 2 == 1 || y % 2 == 1 then 1 else 0)
  }

  /** Bitwise exclusive or. */
  function Xor(x: nat, y: nat): (r: nat)
    ensures r <= x + y
    decreases x + y
  {
    if x == 0 then y else if y == 0 then x
    else 2 * Xor(x / 2, y / 2) + (if x % 2 != y % 2 then 1 else 0)
  }

  // ----- shifts are multiplication and division -----

  lemma {:induction false} ShrShrinks(x: nat, k: nat)
    ensures Shr(x, k) <= x
  {
    if k > 0 {
      ShrShrinks(x / 2, k - 1);
    }
  }

  lemma {:induction false} ShlIsMul(x: nat, k: nat)
    ensures Shl(x, k) == x * Pow2(k)
  {
    if k > 0 {
      ShlIsMul(x, k - 1);
      assert 2 * (x * Pow2(k - 1)) == x * (2 * Pow2(k - 1));
    }
  }

  lemma {:induction false} ShlAdd(x: nat, y: nat, k: nat)
    ensures Shl(x + y, k) == Shl(x, k) + Shl(y, k)
  {
    if k > 0 {
      ShlAdd(x, y, k - 1);
    }
  }

  lemma {:induction false} ShlDouble(x: nat, k: nat)
    ensures Shl(2 * x, k) == 2 * Shl(x, k) == Shl(x, k + 1)
  {
    if k > 0 {
      ShlDouble(x, k - 1);
    }
  }

  lemma {:induction false} ShlShl(x: nat, a: nat, b: nat)
    ensures Shl(Shl(x, a), b) == Shl(x, a + b)
  {
    if b > 0 {
      ShlShl(x, a, b - 1);
    }
  }

  lemma {:induction false} ShlOne(k: nat)
    ensures Shl(1, k) == Pow2(k)
  {
    if k > 0 {
      ShlOne(k - 1);
    }
  }

  lemma {:induction false} ShlMonotone(x: nat, y: nat, k: nat)
    requires x <= y
    ensures Shl(x, k) <= Shl(y, k)
    ensures x < y ==> Shl(x, k) + Pow2(k) <= Shl(y, k)
  {
    if k > 0 {
      ShlMonotone(x, y, k - 1);
    }
  }

  /** A word is its high part shifted back plus its low part. */
  lemma {:induction false} SplitAt(x: nat, k: nat)
    ensures x == Shl(Shr(x, k), k) + Low(x, k)
    ensures Low(x, k) < Pow2(k)
  {
    if k > 0 {
      SplitAt(x / 2, k - 1);
    }
  }

  /** ... and there is only one way to split it. */
  lemma {:induction false} SplitUnique(h: nat, l: nat, k: nat)
    requires l < Pow2(k)
    ensures Shr(Shl(h, k) + l, k) == h
    ensures Low(Shl(h, k) + l, k) == l
  {
    if k > 0 {
      SplitUnique(h, l / 2, k - 1);
      var x := Shl(h, k) + l;
      assert x / 2 == Shl(h, k - 1) + l / 2 && x % 2 == l % 2;
    } else {
      assert Pow2(0) == 1;
    }
  }

  lemma ShrIsDiv(x: nat, k: nat)
    ensures Shr(x, k) == x / Pow2(k)
    ensures Low(x, k) == x % Pow2(k)
  {
    SplitAt(x, k);
    ShlIsMul(Shr(x, k), k);
    DivModUnique(x, Pow2(k), Shr(x, k), Low(x, k));
  }

  /** Quotient and remainder are determined by the division equation. */
  lemma DivModUnique(x: int, d: int, q: int, r: int)
    requires 0 < d && 0 <= r < d
    requires x == q * d + r
    ensures x / d == q && x % d == r
  {
    var q', r' := x / d, x % d;
    assert x == d * q' + r';
    assert (q - q') * d == r' - r;
    if q > q' {
      MulAtLeast(q - q', d);
    } else if q < q' {
      assert (q' - q) * d == r - r';
      MulAtLeast(q' - q, d);
    }
  }

  /** Adding a multiple of the modulus changes nothing. */
  lemma ModPlusMultiple(x: int, k: int, d: int)
    requires d > 0
    ensures (x + k * d) % d == x % d
  {
    var q, r := x / d, x % d;
    assert x + k * d == (q + k) * d + r;
    DivModUnique(x + k * d, d, q + k, r);
  }

  lemma MulAtLeast(k: int, d: int)
    requires k >= 1 && d >= 0
    ensures k * d >= d
  {
    assert k * d == (k - 1) * d + d;
    MulNonNegative(k - 1, d);
  }

  lemma MulNonNegative(a: int, b: int)
    requires a >= 0 && b >= 0
    ensures a * b >= 0
  {
  }

  lemma MulMonotone(a: int, b: int, c: int)
    requires a <= b && c >= 0
    ensures a * c <= b * c
  {
    MulNonNegative(b - a, c);
    assert (b - a) * c == b * c - a * c;
  }

  lemma {:induction false} LowSmall(x: nat, k: nat)
    requires x < Pow2(k)
    ensures Low(x, k) == x && Shr(x, k) == 0
  {
    if k > 0 {
      LowSmall(x / 2, k - 1);
    }
  }

  lemma {:induction false} ShrShr(x: nat, a: nat, b: nat)
    ensures Shr(Shr(x, a), b) == Shr(x, a + b)
  {
    if a > 0 {
      ShrShr(x / 2, a - 1, b);
    }
  }

  lemma {:induction false} LowSplit(x: nat, a: nat, b: nat)
    ensures Low(x, a + b) == Shl(Low(Shr(x, a), b), a) + Low(x, a)
  {
    if a > 0 {
      LowSplit(x / 2, a - 1, b);
    }
  }

  lemma {:induction false} ShrBound(x: nat, k: nat, w: nat)
    requires x < Pow2(w) && k <= w
    ensures Shr(x, k) < Pow2(w - k)
  {
    if k > 0 {
      assert Pow2(w) == 2 * Pow2(w - 1);
      ShrBound(x / 2, k - 1, w - 1);
    }
  }

  // ----- powers of two -----

  lemma Pow2Double(k: nat)
    ensures Pow2(k + 1) == 2 * Pow2(k)
  {
  }

  lemma {:induction false} Pow2Add(a: nat, b: nat)
    ensures Pow2(a + b) == Shl(Pow2(a), b)
  {
    if b > 0 {
      Pow2Add(a, b - 1);
    }
  }

  lemma {:induction false} Pow2Monotone(a: nat, b: nat)
    requires a <= b
    ensures Pow2(a) <= Pow2(b)
    ensures a < b ==> Pow2(a) < Pow2(b)
  {
    if a < b {
      Pow2Monotone(a, b - 1);
    }
  }

  lemma ShiftByZero(x: nat)
    ensures Shl(x, 0) == x && Shr(x, 0) == x && Low(x, 0) == 0
  {
  }

  lemma ShiftZero(k: nat)
    ensures Shl(0, k) == 0 && Shr(0, k) == 0 && Low(0, k) == 0
  {
  }

  lemma WidthPowers()
    ensures Pow2(0) == 1 && Pow2(1) == 2 && Pow2(2) == 4 && Pow2(4) == 16
    ensures Pow2(8) == W8 && Pow2(16) == W16
    ensures Pow2(32) == W32 && Pow2(64) == W64
    ensures Pow2(31) == 0x8000_0000 && Pow2(63) == 0x8000_0000_0000_0000
  {
    Pow2Four(0);
    Pow2Four(4);
    Pow2Four(8);
    Pow2Four(12);
    Pow2Four(16);
    Pow2Four(20);
    Pow2Four(24);
    Pow2Four(28);
    Pow2Four(32);
    Pow2Four(36);
    Pow2Four(40);
    Pow2Four(44);
    Pow2Four(48);
    Pow2Four(52);
    Pow2Four(56);
    Pow2Four(60);
    assert Pow2(32) == 2 * Pow2(31) && Pow2(64) == 2 * Pow2(63) && Pow2(1) == 2 && Pow2(2) == 4;
  }

  lemma Pow2Four(k: nat)
    ensures Pow2(k + 4) == 16 * Pow2(k)
    ensures k == 0 ==> Pow2(0) == 1
  {
    assert Pow2(k + 4) == 2 * Pow2(k + 3) && Pow2(k + 3) == 2 * Pow2(k + 2) && Pow2(k + 2) == 2 * Pow2(k + 1);
  }

  // ----- bit operations that are arithmetic -----

  /** One step of the recursive definitions. */
  lemma Unfold(x: nat, k: nat)
    requires k > 0
    ensures x == 2 * (x / 2) + x % 2 && x % 2 < 2
    ensures Low(x, k) == 2 * Low(x / 2, k - 1) + x % 2 && Shr(x, k) == Shr(x / 2, k - 1)
  {
  }

  lemma ShlStep(x: nat, k: nat)
    requires k > 0
    ensures Shl(x, k) == 2 * Shl(x, k - 1)
  {
  }

  lemma Halved(a: nat, b: nat)
    requires b < 2
    ensures (2 * a + b) / 2 == a && (2 * a + b) % 2 == b
  {
  }

  lemma HalfIs(x: nat, h: nat, b: nat)
    requires x == 2 * h + b && b < 2
    ensures x / 2 == h && x % 2 == b
  {
  }

  lemma HalfSum(a: nat, b: nat)
    ensures (2 * a + b) / 2 == a + b / 2 && (2 * a + b) % 2 == b % 2
  {
  }

  lemma AndHalf(x: nat, y: nat)
    ensures And(x, y) == 2 * And(x / 2, y / 2) + (if x % 2 == 1 && y % 2 == 1 then 1 else 0)
  {
  }

  lemma OrHalf(x: nat, y: nat)
    ensures Or(x, y) == 2 * Or(x / 2, y / 2) + (if x % 2 == 1 || y % 2 == 1 then 1 else 0)
  {
  }

  lemma XorHalf(x: nat, y: nat)
    ensures Xor(x, y) == 2 * Xor(x / 2, y / 2) + (if x % 2 != y % 2 then 1 else 0)
  {
  }

  /** `x & (2^k - 1)` keeps the low `k` bits. */
  lemma {:induction false} AndMask(x: nat, k: nat)
    ensures And(x, Pow2(k) - 1) == Low(x, k)
  {
    if k > 0 {
      hide And;
      var h, p := x / 2, Pow2(k - 1);
      assert Pow2(k) == 2 * p && Low(x, k) == 2 * Low(h, k - 1) + x % 2;
      hide *;
      AndMask(x / 2, k - 1);
      AndParts(x, x / 2, x % 2, Pow2(k) - 1, Pow2(k - 1) - 1, 1);
    }
  }

  lemma AndAllOnes(x: nat, k: nat)
    requires x < Pow2(k)
    ensures And(x, Pow2(k) - 1) == x
  {
    hide And, Low, Pow2;
    AndMask(x, k);
    LowSmall(x, k);
  }

  /** A bitwise and can be taken separately above and below bit `k`. */
  lemma {:induction false} AndSplit(x: nat, y: nat, k: nat)
    ensures And(x, y) == Shl(And(Shr(x, k), Shr(y, k)), k) + And(Low(x, k), Low(y, k))
    decreases k
  {
    if k == 0 {
      AndNothing(x, y);
    } else {
      var hx, hy, a, b := x / 2, y / 2, x % 2, y % 2;
      hide *;
      Unfold(x, k);
      Unfold(y, k);
      AndSplit(hx, hy, k - 1);
      AndParts(x, hx, a, y, hy, b);
      AndParts(Low(x, k), Low(hx, k - 1), a, Low(y, k), Low(hy, k - 1), b);
      ShlStep(And(Shr(x, k), Shr(y, k)), k);
    }
  }

  lemma AndNothing(x: nat, y: nat)
    ensures And(x, y) == Shl(And(Shr(x, 0), Shr(y, 0)), 0) + And(Low(x, 0), Low(y, 0))
  {
    ShiftByZero(x);
    ShiftByZero(y);
    ShiftByZero(And(x, y));
    AndZero(0);
    hide *;
  }

  lemma AndParts(x: nat, hx: nat, a: nat, y: nat, hy: nat, b: nat)
    requires a < 2 && b < 2 && x == 2 * hx + a && y == 2 * hy + b
    ensures And(x, y) == 2 * And(hx, hy) + (if a == 1 && b == 1 then 1 else 0)
  {
    hide *;
    HalfIs(x, hx, a);
    HalfIs(y, hy, b);
    AndHalf(x, y);
  }

  lemma {:induction false} OrSplit(x: nat, y: nat, k: nat)
    ensures Or(x, y) == Shl(Or(Shr(x, k), Shr(y, k)), k) + Or(Low(x, k), Low(y, k))
    decreases k
  {
    if k == 0 {
      OrNothing(x, y);
    } else {
      var hx, hy, a, b := x / 2, y / 2, x % 2, y % 2;
      hide *;
      Unfold(x, k);
      Unfold(y, k);
      OrSplit(hx, hy, k - 1);
      OrParts(x, hx, a, y, hy, b);
      OrParts(Low(x, k), Low(hx, k - 1), a, Low(y, k), Low(hy, k - 1), b);
      ShlStep(Or(Shr(x, k), Shr(y, k)), k);
    }
  }

  lemma OrNothing(x: nat, y: nat)
    ensures Or(x, y) == Shl(Or(Shr(x, 0), Shr(y, 0)), 0) + Or(Low(x, 0), Low(y, 0))
  {
    ShiftByZero(x);
    ShiftByZero(y);
    ShiftByZero(Or(x, y));
    OrZero(0);
    hide *;
  }

  lemma OrParts(x: nat, hx: nat, a: nat, y: nat, hy: nat, b: nat)
    requires a < 2 && b < 2 && x == 2 * hx + a && y == 2 * hy + b
    ensures Or(x, y) == 2 * Or(hx, hy) + (if a == 1 || b == 1 then 1 else 0)
  {
    hide *;
    HalfIs(x, hx, a);
    HalfIs(y, hy, b);
    OrHalf(x, y);
  }

  lemma {:induction false} XorSplit(x: nat, y: nat, k: nat)
    ensures Xor(x, y) == Shl(Xor(Shr(x, k), Shr(y, k)), k) + Xor(Low(x, k), Low(y, k))
    decreases k
  {
    if k == 0 {
      XorNothing(x, y);
    } else {
      var hx, hy, a, b := x / 2, y / 2, x % 2, y % 2;
      hide *;
      Unfold(x, k);
      Unfold(y, k);
      XorSplit(hx, hy, k - 1);
      XorParts(x, hx, a, y, hy, b);
      XorParts(Low(x, k), Low(hx, k - 1), a, Low(y, k), Low(hy, k - 1), b);
      ShlStep(Xor(Shr(x, k), Shr(y, k)), k);
    }
  }

  lemma XorNothing(x: nat, y: nat)
    ensures Xor(x, y) == Shl(Xor(Shr(x, 0), Shr(y, 0)), 0) + Xor(Low(x, 0), Low(y, 0))
  {
    ShiftByZero(x);
    ShiftByZero(y);
    ShiftByZero(Xor(x, y));
    XorZero(0);
    hide *;
  }

  lemma XorParts(x: nat, hx: nat, a: nat, y: nat, hy: nat, b: nat)
    requires a < 2 && b < 2 && x == 2 * hx + a && y == 2 * hy + b
    ensures Xor(x, y) == 2 * Xor(hx, hy) + (if a != b then 1 else 0)
  {
    hide *;
    HalfIs(x, hx, a);
    HalfIs(y, hy, b);
    XorHalf(x, y);
  }

  /** `x & (m << k)`, where `m` has `j` ones, tests bits `k` to `k + j - 1` of `x`. */
  lemma AndHighMask(x: nat, j: nat, k: nat)
    ensures And(x, Shl(Pow2(j) - 1, k)) == Shl(Low(Shr(x, k), j), k)
  {
    hide *;
    var m := Shl(Pow2(j) - 1, k);
    AndSplit(x, m, k);
    SplitUnique(Pow2(j) - 1, 0, k);
    AndMask(Shr(x, k), j);
    AndZero(Low(x, k));
  }

  /** An or of words with no common bit is a sum. */
  lemma OrDisjoint(h: nat, l: nat, k: nat)
    requires l < Pow2(k)
    ensures Or(Shl(h, k), l) == Or(l, Shl(h, k)) == Shl(h, k) + l
  {
    OrZero(h);
    OrZero(l);
    hide *;
    var x := Shl(h, k);
    SplitUnique(h, 0, k);
    LowSmall(l, k);
    OrSplit(x, l, k);
    OrSplit(l, x, k);
  }

  /** Exclusive or with all ones is the complement. */
  lemma {:induction false} XorOnes(x: nat, k: nat)
    requires x < Pow2(k)
    ensures Xor(x, Pow2(k) - 1) == Pow2(k) - 1 - x
  {
    hide Xor;
    if k > 0 {
      XorOnes(x / 2, k - 1);
      XorHalf(x, Pow2(k) - 1);
      Halved(Pow2(k - 1) - 1, 1);
      assert Pow2(k) - 1 == 2 * (Pow2(k - 1) - 1) + 1;
    } else {
      assert Pow2(0) == 1;
      XorZero(x);
    }
  }

  /** `x & (x - 1)` clears the lowest set bit: it is zero exactly for the powers of two. */
  lemma {:induction false} AndPredPowerOfTwo(x: nat, j: nat)
    requires Pow2(j) <= x < Pow2(j + 1)
    ensures And(x, x - 1) == 0 <==> x == Pow2(j)
  {
    hide And;
    var h := x / 2;
    AndHalf(x, x - 1);
    if x % 2 == 0 {
      assert x == 2 * h && j > 0 by { assert Pow2(0) == 1 && Pow2(1) == 2; }
      AndPredPowerOfTwo(h, j - 1);
      Halved(h - 1, 1);
      assert x - 1 == 2 * (h - 1) + 1;
    } else {
      assert x - 1 == 2 * h;
      Halved(h, 0);
      AndSelf(h);
      if j > 0 {
        assert Pow2(j) == 2 * Pow2(j - 1);
      } else {
        assert Pow2(0) == 1 && Pow2(1) == 2;
      }
    }
  }

  lemma OrZero(x: nat)
    ensures Or(x, 0) == x && Or(0, x) == x
  {
  }

  lemma XorZero(x: nat)
    ensures Xor(x, 0) == x
  {
  }

  lemma AndZero(x: nat)
    ensures And(x, 0) == 0
  {
  }

  lemma AndSymmetric(x: nat, y: nat)
    ensures And(x, y) == And(y, x)
  {
  }

  lemma XorSymmetric(x: nat, y: nat)
    ensures Xor(x, y) == Xor(y, x)
  {
  }

  lemma {:induction false} OrBound(x: nat, y: nat, k: nat)
    requires x < Pow2(k) && y < Pow2(k)
    ensures Or(x, y) < Pow2(k)
  {
    if k > 0 {
      OrHalf(x, y);
      hide Or;
      OrBound(x / 2, y / 2, k - 1);
    }
  }

  lemma {:induction false} XorBound(x: nat, y: nat, k: nat)
    requires x < Pow2(k) && y < Pow2(k)
    ensures Xor(x, y) < Pow2(k)
  {
    if k > 0 {
      XorHalf(x, y);
      hide Xor;
      XorBound(x / 2, y / 2, k - 1);
    }
  }

  lemma AndSelf(x: nat)
    ensures And(x, x) == x
  {
  }

  /** Half and lowest bit of the three operations. */
  lemma BitwiseHalves(x: nat, y: nat)
    ensures And(x, y) / 2 == And(x / 2, y / 2) && And(x, y) % 2 == if x % 2 == 1 && y % 2 == 1 then 1 else 0
    ensures Or(x, y) / 2 == Or(x / 2, y / 2) && Or(x, y) % 2 == if x % 2 == 1 || y % 2 == 1 then 1 else 0
    ensures Xor(x, y) / 2 == Xor(x / 2, y / 2) && Xor(x, y) % 2 == if x % 2 != y % 2 then 1 else 0
  {
    AndHalf(x, y);
    OrHalf(x, y);
    XorHalf(x, y);
    hide And, Or, Xor;
    Halved(And(x / 2, y / 2), if x % 2 == 1 && y % 2 == 1 then 1 else 0);
    Halved(Or(x / 2, y / 2), if x % 2 == 1 || y % 2 == 1 then 1 else 0);
    Halved(Xor(x / 2, y / 2), if x % 2 != y % 2 then 1 else 0);
  }

  /** The three operations, bit by bit. */
  lemma {:induction false} BitwiseMeaning(x: nat, y: nat, k: nat)
    ensures Bit(And(x, y), k) == 1 <==> Bit(x, k) == 1 && Bit(y, k) == 1
    ensures Bit(Or(x, y), k) == 1 <==> Bit(x, k) == 1 || Bit(y, k) == 1
    ensures Bit(Xor(x, y), k) == 1 <==> Bit(x, k) != Bit(y, k)
  {
    hide And, Or, Xor;
    BitwiseHalves(x, y);
    if k > 0 {
      BitwiseMeaning(x / 2, y / 2, k - 1);
    }
  }
}
