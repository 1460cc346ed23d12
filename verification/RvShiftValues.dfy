/**
 The arithmetic behind the table-driven shifts: shifting a word is shifting its four bytes and adding
 the results, and the additions produce no carry (abstract-machine/tools/rvmini/inst-replace.h,
 lines 451-462).
 */
module RvShiftValues {
  import opened Bits
  import opened RvMachine
  import opened RvBasicMacros
  import opened RvCompare
  import opened RvLut

  // ----- left -----

  lemma WordAsSum(x: Word)
    ensures x == ByteOf(x, 0) + 0x100 * ByteOf(x, 1) + 0x1_0000 * ByteOf(x, 2) + 0x100_0000 * ByteOf(x, 3)
  {
    hide ByteOf, WordOf;
    WordOfBytesOf(x);
    WordOfIs(ByteOf(x, 0), ByteOf(x, 1), ByteOf(x, 2), ByteOf(x, 3));
  }

  lemma ShlScaled(c: nat, b: nat, j: nat)
    ensures Shl(c * b, j) == c * Shl(b, j)
  {
    hide Shl, Pow2;
    ShlIsMul(c * b, j);
    ShlIsMul(b, j);
    assert (c * b) * Pow2(j) == c * (b * Pow2(j));
  }

  lemma ShlByBytes(x: Word, j: nat)
    ensures Shl(x, j) == Shl(ByteOf(x, 0), j) + 0x100 * Shl(ByteOf(x, 1), j)
                         + 0x1_0000 * Shl(ByteOf(x, 2), j) + 0x100_0000 * Shl(ByteOf(x, 3), j)
  {
    hide Shl, ByteOf;
    WordAsSum(x);
    var b0: nat, b1: nat, b2: nat, b3: nat := ByteOf(x, 0), ByteOf(x, 1), ByteOf(x, 2), ByteOf(x, 3);
    ShlAdd(b0 + 0x100 * b1 + 0x1_0000 * b2, 0x100_0000 * b3, j);
    ShlAdd(b0 + 0x100 * b1, 0x1_0000 * b2, j);
    ShlAdd(b0, 0x100 * b1, j);
    ShlScaled(0x100, b1, j);
    ShlScaled(0x1_0000, b2, j);
    ShlScaled(0x100_0000, b3, j);
  }

  /** What the left shift adds up. */
  function SllSum(e0: Word, e1: Word, e2: Word, e3: Word): Word {
    Wrap(Wrap(Wrap(WordOf(0, 0, 0, ByteOf(e3, 0)) + WordOf(0, 0, ByteOf(e2, 0), ByteOf(e2, 1))) + Wrap(0x100 * e1)) + e0)
  }

  lemma SllSumValue(e0: Word, e1: Word, e2: Word, e3: Word)
    ensures SllSum(e0, e1, e2, e3) == Wrap(e0 + 0x100 * e1 + 0x1_0000 * e2 + 0x100_0000 * e3)
  {
    hide Wrap, WordOf, ByteOf;
    LowOneByte(e3);
    LowTwoBytes(e2);
    WrapSum4(0x100_0000 * e3, 0x1_0000 * e2, 0x100 * e1, e0);
  }

  lemma LowOneByte(e: Word)
    ensures WordOf(0, 0, 0, ByteOf(e, 0)) == Wrap(0x100_0000 * e)
  {
    WordOfIs(0, 0, 0, ByteOf(e, 0));
    hide WordOf;
  }

  lemma LowTwoBytes(e: Word)
    ensures WordOf(0, 0, ByteOf(e, 0), ByteOf(e, 1)) == Wrap(0x1_0000 * e)
  {
    WordOfIs(0, 0, ByteOf(e, 0), ByteOf(e, 1));
    var q := e / 0x100 / 0x100;
    assert e == ByteOf(e, 0) + 0x100 * ByteOf(e, 1) + 0x1_0000 * q;
    ShiftOut(ByteOf(e, 0) + 0x100 * ByteOf(e, 1), q);
  }

  lemma ShiftOut(m: nat, q: nat)
    requires m < 0x1_0000
    ensures Wrap(0x1_0000 * (m + 0x1_0000 * q)) == 0x1_0000 * m
  {
  }

  lemma WrapSum4(a: int, b: int, c: int, d: int)
    ensures Wrap(Wrap(Wrap(Wrap(a) + Wrap(b)) + Wrap(c)) + d) == Wrap(d + c + b + a)
  {
    hide Wrap;
    WrapAdd(a, Wrap(b));
    WrapAdd(a, b);
    WrapAdd(a + b, Wrap(c));
    WrapAdd(a + b, c);
    WrapAdd(a + b + c, d);
  }

  lemma WrapSums(a: int, b: int, c: int, d: int)
    ensures Wrap(Wrap(a) + 0x100 * Wrap(b) + 0x1_0000 * Wrap(c) + 0x100_0000 * Wrap(d))
            == Wrap(a + 0x100 * b + 0x1_0000 * c + 0x100_0000 * d)
  {
    hide Wrap;
    var p := WrapSplit(a);
    var q := WrapSplit(b);
    var r := WrapSplit(c);
    var s := WrapSplit(d);
    WrapShift(a + 0x100 * b + 0x1_0000 * c + 0x100_0000 * d, -(p + 0x100 * q + 0x1_0000 * r + 0x100_0000 * s));
  }

  lemma SllEntries(x: Word, j: nat)
    ensures forall k: nat :: k < 4 ==> Entry(SllTable, j, ByteOf(x, k)) == Wrap(Shl(ByteOf(x, k), j))
  {
  }

  /** `sll` through the table. */
  lemma SllByTable(x: Word, j: nat)
    ensures SllSum(Entry(SllTable, j, ByteOf(x, 0)), Entry(SllTable, j, ByteOf(x, 1)),
                   Entry(SllTable, j, ByteOf(x, 2)), Entry(SllTable, j, ByteOf(x, 3))) == Wrap(Shl(x, j))
  {
    SllEntries(x, j);
    hide Shl, ByteOf, WordOf, SllSum, Wrap, Entry;
    ShlByBytes(x, j);
    var s0, s1, s2, s3 := Shl(ByteOf(x, 0), j), Shl(ByteOf(x, 1), j), Shl(ByteOf(x, 2), j), Shl(ByteOf(x, 3), j);
    SllSumValue(Wrap(s0), Wrap(s1), Wrap(s2), Wrap(s3));
    WrapSums(s0, s1, s2, s3);
  }

  // ----- right -----

  /** Shifting words with no common bit: the results have no common bit either. */
  lemma {:induction false} ShrDisjoint(h: nat, l: nat, k: nat, a: nat)
    requires l < Pow2(k)
    ensures Shr(Shl(h, k) + l, a) == Shr(Shl(h, k), a) + Shr(l, a)
  {
    if a > 0 {
      if k == 0 {
        assert l == 0;
        ShiftZero(a);
      } else {
        HalfSum(Shl(h, k - 1), l);
        ShrDisjoint(h, l / 2, k - 1, a - 1);
      }
    }
  }

  lemma LowStep(s: nat, l: nat, w: nat)
    requires w > 0
    ensures Low(2 * s + l, w) == 2 * Low(s + l / 2, w - 1) + l % 2
    ensures Low(2 * s, w) == 2 * Low(s, w - 1) && Low(l, w) == 2 * Low(l / 2, w - 1) + l % 2
  {
    HalfSum(s, l);
    HalfSum(s, 0);
    assert (2 * s + l) % 2 == l % 2;
  }

  lemma {:induction false} LowDisjoint(h: nat, l: nat, k: nat, w: nat)
    requires l < Pow2(k)
    ensures Low(Shl(h, k) + l, w) == Low(Shl(h, k), w) + Low(l, w)
  {
    if w > 0 {
      if k == 0 {
        assert l == 0;
        ShiftZero(w);
      } else {
        LowStep(Shl(h, k - 1), l, w);
        assert Shl(h, k) == 2 * Shl(h, k - 1) && Pow2(k) == 2 * Pow2(k - 1);
        hide *;
        LowDisjoint(h, l / 2, k - 1, w - 1);
      }
    }
  }

  lemma ShrStep(s: nat, l: nat, a: nat)
    requires a > 0
    ensures Shr(2 * s + l, a) == Shr(s + l / 2, a - 1) && Shr(2 * s, a) == Shr(s, a - 1) && Shr(l, a) == Shr(l / 2, a - 1)
  {
    HalfSum(s, l);
    HalfSum(s, 0);
  }

  lemma {:induction false} LowShrDisjoint(h: nat, l: nat, k: nat, a: nat, w: nat)
    requires l < Pow2(k)
    ensures Low(Shr(Shl(h, k) + l, a), w) == Low(Shr(Shl(h, k), a), w) + Low(Shr(l, a), w)
  {
    if a > 0 {
      if k == 0 {
        assert l == 0;
        ShiftZero(a);
        ShiftZero(w);
      } else {
        ShrStep(Shl(h, k - 1), l, a);
        assert Shl(h, k) == 2 * Shl(h, k - 1) && Pow2(k) == 2 * Pow2(k - 1);
        hide *;
        LowShrDisjoint(h, l / 2, k - 1, a - 1, w);
      }
    } else {
      LowDisjoint(h, l, k, w);
    }
  }

  lemma HalfDifference(p: nat, x: nat)
    requires x < 2 * p
    ensures (2 * p - 1 - x) / 2 == p - 1 - x / 2
  {
  }

  /** The complement of a shifted word. */
  lemma {:induction false} ShrComplement(x: nat, k: nat, a: nat)
    requires x < Pow2(k)
    ensures Shr(Pow2(k) - 1, a) == Shr(Pow2(k) - 1 - x, a) + Shr(x, a)
  {
    if a > 0 {
      if k == 0 {
        assert Pow2(0) == 1;
        ShiftZero(a);
      } else {
        Halved(Pow2(k - 1) - 1, 1);
        assert Pow2(k) - 1 == 2 * (Pow2(k - 1) - 1) + 1;
        HalfDifference(Pow2(k - 1), x);
        ShrComplement(x / 2, k - 1, a - 1);
      }
    }
  }

  lemma ConstantShifts(x: nat)
    ensures Shl(x, 8) == 0x100 * x && Shl(x, 16) == 0x1_0000 * x && Shl(x, 24) == 0x100_0000 * x
    ensures Pow2(8) == 0x100 && Pow2(16) == 0x1_0000 && Pow2(24) == 0x100_0000 && Pow2(32) == 0x1_0000_0000
  {
    WidthPowers();
    ShlByConstant(x);
    ShiftPowers();
    hide Shl, Pow2;
  }

  /** The three lower bytes, shifted right, from the table words `y2`, `y1` and `y0`. */
  lemma ShrLowBytes(x2: Byte, x1: Byte, x0: Byte, a: nat)
    ensures var y2, y1, y0 := ShrWord(x2 * 0x100_0000, a), ShrWord(x1 * 0x100_0000, a), ShrWord(x0 * 0x100_0000, a);
            && Shr(x2 * 0x1_0000 + x1 * 0x100 + x0, a) == y2 / 0x100 + y1 / 0x1_0000 + y0 / 0x100_0000
            && ByteOf(y2, 1) + ByteOf(y1, 2) + ByteOf(y0, 3) < 0x100
            && ByteOf(y2, 2) + ByteOf(y1, 3) < 0x100
  {
    NoCarry(x2, x1, x0, a);
    ShrSeparately(x2, x1, x0, a);
    hide Shr, ByteOf;
    TopShifted(x2, x1, x0, a);
  }

  lemma ShrSeparately(x2: Byte, x1: Byte, x0: Byte, a: nat)
    ensures Shr(x2 * 0x1_0000 + x1 * 0x100 + x0, a) == Shr(x2 * 0x1_0000, a) + Shr(x1 * 0x100, a) + Shr(x0, a)
  {
    hide *;
    ConstantShifts(x2);
    ConstantShifts(x1);
    ShrDisjoint(x2, x1 * 0x100 + x0, 16, a);
    ShrDisjoint(x1, x0, 8, a);
  }

  /** A byte shifted within its place is the table word shifted down. */
  lemma TopShifted(x2: Byte, x1: Byte, x0: Byte, a: nat)
    ensures Shr(x2 * 0x1_0000, a) == Shr(x2 * 0x100_0000, a) / 0x100
    ensures Shr(x1 * 0x100, a) == Shr(x1 * 0x100_0000, a) / 0x1_0000
    ensures Shr(x0, a) == Shr(x0 * 0x100_0000, a) / 0x100_0000
  {
    hide Shr, Shl, Low;
    ShrCommutes(x2, 16, 8, a);
    ShrCommutes(x1, 8, 16, a);
    ShrCommutes(x0, 0, 24, a);
    ConstantShifts(x2);
    ConstantShifts(x1);
    ConstantShifts(x0);
    ShiftByZero(x0);
    ShrIsDiv(Shr(x2 * 0x100_0000, a), 8);
    ShrIsDiv(Shr(x1 * 0x100_0000, a), 16);
    ShrIsDiv(Shr(x0 * 0x100_0000, a), 24);
  }

  lemma ShrCommutes(x: nat, k: nat, d: nat, a: nat)
    ensures Shr(Shl(x, k), a) == Shr(Shr(Shl(x, k + d), a), d)
  {
    hide Shr, Shl, Low, Pow2;
    ShlShl(x, k, d);
    ShrShr(Shl(x, k + d), a, d);
    ShrShr(Shl(x, k + d), d, a);
    SplitUnique(Shl(x, k), 0, d);
  }

  lemma NoCarry(x2: Byte, x1: Byte, x0: Byte, a: nat)
    ensures var y2, y1, y0 := ShrWord(x2 * 0x100_0000, a), ShrWord(x1 * 0x100_0000, a), ShrWord(x0 * 0x100_0000, a);
            ByteOf(y2, 1) + ByteOf(y1, 2) + ByteOf(y0, 3) < 0x100 && ByteOf(y2, 2) + ByteOf(y1, 3) < 0x100
  {
    hide Shr, Shl, Low, Pow2, ByteOf;
    var y2, y1, y0 := ShrWord(x2 * 0x100_0000, a), ShrWord(x1 * 0x100_0000, a), ShrWord(x0 * 0x100_0000, a);
    ConstantShifts(x2);
    ConstantShifts(x1);
    TopShifted(x2, x1, x0, a);
    var u, v, w := Shr(x2 * 0x1_0000, a), Shr(x1 * 0x100, a), Shr(x0, a);
    var x := x2 * 0x1_0000 + x1 * 0x100 + x0;
    LowShrDisjoint(x2, x1 * 0x100 + x0, 16, a, 8);
    LowShrDisjoint(x1, x0, 8, a, 8);
    SplitAt(Shr(x, a), 8);
    LowShrDisjoint(x2, x1 * 0x100 + x0, 16, a + 8, 8);
    LowShrDisjoint(x1, x0, 8, a + 8, 8);
    SplitAt(Shr(x, a + 8), 8);
    ShrShr(x2 * 0x1_0000, a, 8);
    ShrShr(x1 * 0x100, a, 8);
    LowByteIs(u);
    LowByteIs(v);
    LowByteIs(w);
    LowByteIs(u / 0x100);
    LowByteIs(v / 0x100);
    BytesOfQuotients(y2);
    BytesOfQuotients(y1);
    BytesOfQuotients(y0);
    ShrShrinks(x0, a);
  }

  lemma LowByteIs(x: nat)
    ensures Low(x, 8) == x % 0x100 && Shr(x, 8) == x / 0x100
  {
    hide Shr, Low, Pow2;
    ShrIsDiv(x, 8);
    WidthPowers();
  }

  lemma BytesOfQuotients(y: Word)
    ensures ByteOf(y, 1) == y / 0x100 % 0x100 && ByteOf(y, 2) == y / 0x1_0000 % 0x100 && ByteOf(y, 3) == y / 0x100_0000
    ensures ByteOf(y, 2) == y / 0x100 / 0x100 % 0x100 && ByteOf(y, 3) == y / 0x1_0000 / 0x100
    ensures y / 0x100_0000 < 0x100
  {
  }

  /** What the right shift adds up from the bytes of the table words. */
  function ShrSum(y0: Word, y1: Word, y2: Word): int {
    (ByteOf(y2, 1) + ByteOf(y1, 2) + ByteOf(y0, 3)) + 0x100 * (ByteOf(y2, 2) + ByteOf(y1, 3)) + 0x1_0000 * ByteOf(y2, 3)
  }

  lemma ShrSumValue(y0: Word, y1: Word, y2: Word)
    ensures ShrSum(y0, y1, y2) == y2 / 0x100 + y1 / 0x1_0000 + y0 / 0x100_0000
  {
    BytesOfQuotients(y0);
    BytesOfQuotients(y1);
    BytesOfQuotients(y2);
    hide ByteOf;
    assert y2 / 0x100 == y2 / 0x100 % 0x100 + 0x100 * (y2 / 0x100 / 0x100);
    assert y2 / 0x100 / 0x100 == y2 / 0x100 / 0x100 % 0x100 + 0x100 * (y2 / 0x100_0000);
    assert y1 / 0x1_0000 == y1 / 0x1_0000 % 0x100 + 0x100 * (y1 / 0x1_0000 / 0x100);
  }

  /** Both right shifts, byte by byte. */
  lemma RightShiftBytes(x3: Byte, x2: Byte, x1: Byte, x0: Byte, a: nat)
    ensures var y2, y1, y0 := ShrWord(x2 * 0x100_0000, a), ShrWord(x1 * 0x100_0000, a), ShrWord(x0 * 0x100_0000, a);
            && ShrSum(y0, y1, y2) + ShrWord(x3 * 0x100_0000, a) == Shr(WordOf(x0, x1, x2, x3), a)
            && ShrSum(y0, y1, y2) + Sra(x3 * 0x100_0000, a) == Sra(WordOf(x0, x1, x2, x3), a)
  {
    hide Shr, Shl, Low, Pow2, ByteOf, ShrSum, WordOf;
    WordOfIs(x0, x1, x2, x3);
    var z: nat := x2 * 0x1_0000 + x1 * 0x100 + x0;
    ShrLowBytes(x2, x1, x0, a);
    ShrSumValue(ShrWord(x0 * 0x100_0000, a), ShrWord(x1 * 0x100_0000, a), ShrWord(x2 * 0x100_0000, a));
    ConstantShifts(x3);
    ShrDisjoint(x3, z, 24, a);
    if x3 >= 128 {
      var c: nat := 255 - x3;
      ConstantShifts(c);
      ShrDisjoint(c, 0xFF_FFFF - z, 24, a);
      ShrDisjoint(c, 0xFF_FFFF, 24, a);
      ShrComplement(z, 24, a);
    }
  }

  /** `srl` and `sra` through the tables: only the top byte is extended. */
  lemma ShiftRightByTable(x: Word, a: nat)
    ensures var y0, y1, y2 := Entry(SrlTable, a, ByteOf(x, 0)), Entry(SrlTable, a, ByteOf(x, 1)), Entry(SrlTable, a, ByteOf(x, 2));
            && ShrSum(y0, y1, y2) + Entry(SrlTable, a, ByteOf(x, 3)) == Shr(x, a)
            && ShrSum(y0, y1, y2) + Entry(SraTable, a, ByteOf(x, 3)) == Sra(x, a)
            && ByteOf(y2, 1) + ByteOf(y1, 2) + ByteOf(y0, 3) < 0x100
            && ByteOf(y2, 2) + ByteOf(y1, 3) < 0x100
  {
    hide Shr, ByteOf, ShrSum, WordOf, Sra, ShrWord;
    WordOfBytesOf(x);
    RightShiftBytes(ByteOf(x, 3), ByteOf(x, 2), ByteOf(x, 1), ByteOf(x, 0), a);
    ShrLowBytes(ByteOf(x, 2), ByteOf(x, 1), ByteOf(x, 0), a);
  }

  // ----- what shifts mean -----

  /** Dividing the complement, rounding down. */
  lemma ComplementDivided(y: int, p: int)
    requires y >= 0 && p > 0
    ensures (-y - 1) / p == -(y / p) - 1
  {
    var q, r := y / p, y % p;
    assert y == p * q + r;
    assert p * (-q - 1) == -(p * q) - p;
    DivModUnique(-y - 1, p, -q - 1, p - 1 - r);
  }

  /**
   The arithmetic right shift of a signed number is the largest number that, shifted back, is not above it:
   division by a power of two, rounding down.
   */
  lemma SraIsFloor(x: Word, k: nat)
    ensures SignedWord(Sra(x, k)) == SignedWord(x) / Pow2(k)
    ensures Pow2(k) * SignedWord(Sra(x, k)) <= SignedWord(x) < Pow2(k) * (SignedWord(Sra(x, k)) + 1)
  {
    hide Shr, Pow2;
    var p, y: nat := Pow2(k), if x < 0x8000_0000 then x else 0xFFFF_FFFF - x;
    ShrIsDiv(y, k);
    ShrShrinks(y, k);
    ComplementDivided(y, p);
    FloorBounds(SignedWord(x), p);
  }

  lemma FloorBounds(s: int, p: nat)
    requires p > 0
    ensures p * (s / p) <= s < p * (s / p + 1)
  {
    assert p * (s / p + 1) == p * (s / p) + p;
  }

  lemma ShiftMeaning(x: Word, k: nat)
    ensures Wrap(Shl(x, k)) == Wrap(x * Pow2(k))
    ensures ShrWord(x, k) == Wrap(x / Pow2(k))
    ensures Sra(x, k) == Wrap(SignedWord(x) / Pow2(k))
  {
    hide Shr, Shl, Pow2, Sra, Wrap, SignedWord;
    ShlIsMul(x, k);
    ShrIsDiv(x, k);
    ShrShrinks(x, k);
    WrapSmall(Shr(x, k));
    SraIsFloor(x, k);
    WrapSigned(Sra(x, k));
  }

  lemma WrapSigned(w: Word)
    ensures Wrap(SignedWord(w)) == w
  {
  }
}
