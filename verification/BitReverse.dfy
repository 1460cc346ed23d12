/**
 The table of reversed bytes (fceux-am/src/ppu.cpp, lines 73-92), built by doubling.
 */
module BitReverse {
  import opened Bits

  /** The lowest `n` bits of `x` in the opposite order. */
  function Reversed(x: nat, n: nat): (r: nat)
    ensures r < Pow2(n)
  {
    if n == 0 then 0 else (if x % 2 == 1 then Pow2(n - 1) else 0) + Reversed(x / 2, n - 1)
  }

  lemma {:induction false} BitOfSum(b: bool, x: nat, m: nat, k: nat)
    requires x < Pow2(m) && k <= m
    ensures Bit((if b then Pow2(m) else 0) + x, k) == if k == m then (if b then 1 else 0) else Bit(x, k)
    decreases m
  {
    if m > 0 {
      HalfOfSum(b, x, Pow2(m - 1));
      if k > 0 {
        BitOfSum(b, x / 2, m - 1, k - 1);
      }
    }
  }

  lemma HalfOfSum(b: bool, x: nat, p: nat)
    ensures ((if b then 2 * p else 0) + x) / 2 == (if b then p else 0) + x / 2
    ensures ((if b then 2 * p else 0) + x) % 2 == x % 2
  {
    HalfSum(p, x);
  }

  /** Bit `k` of the reversed number is bit `n - 1 - k` of the number. */
  lemma {:induction false} ReversedBit(x: nat, n: nat, k: nat)
    requires k < n
    ensures Bit(Reversed(x, n), k) == Bit(x, n - 1 - k)
    decreases n
  {
    BitOfSum(x % 2 == 1, Reversed(x / 2, n - 1), n - 1, k);
    if k < n - 1 {
      ReversedBit(x / 2, n - 1, k);
    }
  }

  /** One more high bit in the argument is one more low bit in the result. */
  lemma {:induction false} ReversedDouble(x: nat, t: nat, n: nat)
    requires x < Pow2(t) && t < n
    ensures Reversed(x + Pow2(t), n) == Reversed(x, n) + Pow2(n - 1 - t)
    decreases t
  {
    if t == 0 {
      ReversedOne(n);
    } else {
      HalfOfSum(true, x, Pow2(t - 1));
      ReversedDouble(x / 2, t - 1, n - 1);
    }
  }

  lemma ReversedOne(n: nat)
    requires n > 0
    ensures Reversed(1, n) == Pow2(n - 1) && Reversed(0, n) == 0
  {
    ReversedZero(n);
    ReversedZero(n - 1);
    assert (1 as nat) / 2 == 0;
  }

  /** The inner loop: the upper half of the part that is filled is the lower half plus `a`. */
  method Extend(lut: array<nat>, m: nat, a: nat)
    requires 2 * m <= lut.Length
    modifies lut
    ensures forall x :: 0 <= x < m ==> lut[x] == old(lut[x])
    ensures forall x :: m <= x < 2 * m ==> lut[x] == old(lut[x - m]) + a
  {
    var i, j := 0, m;
    while i < m
      invariant i <= m && j == m + i
      invariant forall k :: 0 <= k < m ==> lut[k] == old(lut[k])
      invariant forall k :: m <= k < j ==> lut[k] == old(lut[k - m]) + a
    {
      lut[j] := lut[i] + a;
      i, j := i + 1, j + 1;
    }
  }

  /** The constructor of `BITREVLUT`. */
  method Build() returns (lut: array<nat>)
    ensures lut.Length == 0x100 && forall x :: 0 <= x < 0x100 ==> lut[x] == Reversed(x, 8)
  {
    hide Reversed, Pow2;
    FirstPowers();
    var bits, m, a := 8, 1, 0x80;
    lut := new nat[0x100](_ => 0);
    ghost var t := 0;
    FirstTwo();
    lut[0], lut[1] := 0, a;
    bits := bits - 1;
    while bits > 0
      invariant 0 <= bits && bits == 7 - t && m == Pow2(t) && a == Pow2(7 - t)
      invariant 2 * m <= 0x100 && lut.Length == 0x100 && fresh(lut)
      invariant forall x :: 0 <= x < 2 * m ==> lut[x] == Reversed(x, 8)
    {
      PowerSteps(t);
      m, a, t := 2 * m, a / 2, t + 1;
      Extend(lut, m, a);
      forall x | m <= x < 2 * m
        ensures lut[x] == Reversed(x, 8)
      {
        ReversedDouble(x - m, t, 8);
      }
      bits := bits - 1;
    }
  }

  lemma FirstTwo()
    ensures Reversed(0, 8) == 0 && Reversed(1, 8) == 0x80
  {
    hide Reversed;
    ReversedOne(8);
    WidthPowers();
    assert Pow2(8) == 2 * Pow2(7);
  }

  lemma {:induction false} ReversedZero(n: nat)
    ensures Reversed(0, n) == 0
  {
    if n > 0 {
      ReversedZero(n - 1);
    }
  }

  lemma FirstPowers()
    ensures Pow2(0) == 1 && Pow2(7) == 0x80
  {
    WidthPowers();
    assert Pow2(8) == 2 * Pow2(7);
  }

  lemma PowerSteps(t: nat)
    requires t < 7
    ensures Pow2(t + 1) == 2 * Pow2(t) && Pow2(7 - t) == 2 * Pow2(7 - (t + 1)) && 2 * Pow2(t + 1) <= 0x100
  {
    WidthPowers();
    Pow2Monotone(t + 2, 8);
    assert Pow2(t + 2) == 2 * Pow2(t + 1);
  }
}
