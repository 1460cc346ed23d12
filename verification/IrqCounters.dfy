/**
 Interrupt counters of two boards: a counter behind a prescaler (fceux-am/src/boards/90.cpp, lines
 329-379) and a counter of scan lines that is fed with processor cycles (fceux-am/src/boards/252.cpp,
 lines 86-101).
 */
module IrqCounters {
  import opened Bits

  type Byte = b: nat | b < 0x100

  // ----- the prescaled counter -----

  /** `raised` counts the calls of `X6502_IRQBegin`. */
  datatype Counter = Counter(mode: Byte, pre: Byte, count: Byte, enabled: bool, raised: nat) {
    predicate Up() {
      mode / 64 == 1
    }

    predicate Down() {
      mode / 64 == 2
    }

    /** How many clocks make one step of the counter. */
    function Prescale(): (p: nat)
      ensures p in {8, 256}
    {
      if mode / 4 % 2 == 1 then 8 else 256
    }

    /** Prescaler and counter as one number. */
    function Value(): nat {
      if mode / 4 % 2 == 1 then 8 * count + pre % 8 else 256 * count + pre
    }

    function Period(): (m: nat)
      ensures m > 0
    {
      if mode / 4 % 2 == 1 then 2048 else 65536
    }
  }

  /** `CCL`. */
  function CountStep(c: Counter): Counter {
    if c.Up() then
      var count := (c.count + 1) % 256;
      c.(count := count, raised := c.raised + (if count == 0 && c.enabled then 1 else 0))
    else if c.Down() then
      var count := (c.count + 255) % 256;
      c.(count := count, raised := c.raised + (if count == 0xFF && c.enabled then 1 else 0))
    else c
  }

  /** `ClockCounter`. */
  function Clock(c: Counter): Counter {
    if c.Up() then
      var d := c.(pre := (c.pre + 1) % 256);
      if d.pre % c.Prescale() == 0 then CountStep(d) else d
    else if c.Down() then
      var d := c.(pre := (c.pre + 255) % 256);
      if d.pre % c.Prescale() == c.Prescale() - 1 then CountStep(d) else d
    else c
  }

  function Clocks(c: Counter, n: nat): Counter {
    if n == 0 then c else Clock(Clocks(c, n - 1))
  }

  /** What a clock leaves alone. */
  predicate SameSetup(c: Counter, d: Counter) {
    d.mode == c.mode && d.enabled == c.enabled
  }

  lemma UpByOne(x: Byte)
    ensures (x + 1) % 256 == if x == 255 then 0 else x + 1
    ensures (x + 1) % 256 % 8 == if x % 8 == 7 then 0 else x % 8 + 1
  {
  }

  lemma DownByOne(x: Byte)
    ensures (x + 255) % 256 == if x == 0 then 255 else x - 1
    ensures (x + 255) % 256 % 8 == if x % 8 == 0 then 7 else x % 8 - 1
  {
  }

  lemma NoRemainder(x: Byte)
    ensures x % 256 == x
  {
  }

  lemma ClockUp(c: Counter)
    requires c.Up()
    ensures var d := Clock(c);
            && SameSetup(c, d)
            && d.Value() == (if c.Value() + 1 == c.Period() then 0 else c.Value() + 1)
            && d.raised == c.raised + (if c.Value() + 1 == c.Period() && c.enabled then 1 else 0)
  {
    UpByOne(c.pre);
    UpByOne(c.count);
    NoRemainder((c.pre + 1) % 256);
  }

  lemma ClockDown(c: Counter)
    requires c.Down()
    ensures var d := Clock(c);
            && SameSetup(c, d)
            && d.Value() == (if c.Value() == 0 then c.Period() - 1 else c.Value() - 1)
            && d.raised == c.raised + (if c.Value() == 0 && c.enabled then 1 else 0)
  {
    DownByOne(c.pre);
    DownByOne(c.count);
    NoRemainder((c.pre + 255) % 256);
  }

  lemma ValueInPeriod(c: Counter)
    ensures c.Value() < c.Period()
  {
  }

  lemma OneOn(x: nat, m: nat)
    requires m > 0
    ensures (x + 1) % m == if x % m + 1 == m then 0 else x % m + 1
    ensures (x + 1) / m == x / m + (if x % m + 1 == m then 1 else 0)
  {
    if x % m + 1 == m {
      DivModUnique(x + 1, m, x / m + 1, 0);
    } else {
      DivModUnique(x + 1, m, x / m, x % m + 1);
    }
  }

  lemma SmallDivMod(x: nat, m: nat)
    requires x < m
    ensures x / m == 0 && x % m == x
  {
    DivModUnique(x, m, 0, x);
  }

  /**
   Counting up, `n` clocks add `n` to one number modulo 8 * 256 or 256 * 256, and the interrupt is raised
   each time that number wraps, and at no other time.
   */
  lemma {:induction false} UpIsModulo(c: Counter, n: nat)
    requires c.Up()
    ensures var d := Clocks(c, n);
            && SameSetup(c, d)
            && d.Value() == (c.Value() + n) % c.Period()
            && d.raised == c.raised + (if c.enabled then (c.Value() + n) / c.Period() else 0)
  {
    ValueInPeriod(c);
    hide Clock, Counter.Value;
    if n == 0 {
      SmallDivMod(c.Value(), c.Period());
    } else {
      UpIsModulo(c, n - 1);
      ClockUp(Clocks(c, n - 1));
      OneOn(c.Value() + n - 1, c.Period());
    }
  }

  /** Counting down is counting up from the other end. */
  lemma {:induction false} DownIsModulo(c: Counter, n: nat)
    requires c.Down()
    ensures var d := Clocks(c, n);
            var left := c.Period() - 1 - c.Value();
            && SameSetup(c, d) && left >= 0
            && d.Value() == c.Period() - 1 - (left + n) % c.Period()
            && d.raised == c.raised + (if c.enabled then (left + n) / c.Period() else 0)
  {
    ValueInPeriod(c);
    hide Clock, Counter.Value;
    var left := c.Period() - 1 - c.Value();
    if n == 0 {
      SmallDivMod(left, c.Period());
    } else {
      DownIsModulo(c, n - 1);
      ClockDown(Clocks(c, n - 1));
      OneOn(left + n - 1, c.Period());
    }
  }

  /** In the other modes the counter stands still. */
  lemma {:induction false} OffStandsStill(c: Counter, n: nat)
    requires !c.Up() && !c.Down()
    ensures Clocks(c, n) == c
  {
    if n > 0 {
      OffStandsStill(c, n - 1);
    }
  }

  lemma {:induction false} ClocksAdd(c: Counter, a: nat, b: nat)
    ensures Clocks(Clocks(c, a), b) == Clocks(c, a + b)
  {
    hide Clock;
    if b > 0 {
      ClocksAdd(c, a, b - 1);
    }
  }

  lemma {:induction false} ClocksKeepMode(c: Counter, n: nat)
    ensures Clocks(c, n).mode == c.mode
  {
    if n > 0 {
      ClocksKeepMode(c, n - 1);
    }
  }

  /** `CPUWrap`: the counter is clocked by processor cycles in source mode 0. */
  function CpuCycles(c: Counter, a: int): Counter {
    if c.mode % 4 == 0 && a > 0 then Clocks(c, a) else c
  }

  /** `SLWrap`: eight clocks for each scan line in source mode 1. */
  function ScanLine(c: Counter): Counter {
    if c.mode % 4 == 1 then Clocks(c, 8) else c
  }

  function ScanLines(c: Counter, n: nat): Counter {
    if n == 0 then c else ScanLine(ScanLines(c, n - 1))
  }

  /** Cycles can be delivered in any portions. */
  lemma CyclesAdd(c: Counter, a: nat, b: nat)
    ensures CpuCycles(CpuCycles(c, a), b) == CpuCycles(c, a + b)
  {
    hide Clock, Clocks;
    ClocksKeepMode(c, a);
    ClocksAdd(c, a, b);
    NoClocks(c);
    NoClocks(Clocks(c, a));
  }

  lemma NoClocks(c: Counter)
    ensures Clocks(c, 0) == c
  {
  }

  /** A scan line is eight clocks. */
  lemma {:induction false} LinesAreClocks(c: Counter, n: nat)
    ensures ScanLines(c, n) == if c.mode % 4 == 1 then Clocks(c, 8 * n) else c
  {
    hide Clock, Clocks;
    if n == 0 {
      NoClocks(c);
    } else {
      LinesAreClocks(c, n - 1);
      ClocksKeepMode(c, 8 * (n - 1));
      ClocksAdd(c, 8 * (n - 1), 8);
    }
  }

  class Board90 {
    var IRQMode: Byte
    var IRQPre: Byte
    var IRQCount: Byte
    var IRQa: bool
    var raised: nat

    ghost function View(): Counter
      reads this
    {
      Counter(IRQMode, IRQPre, IRQCount, IRQa, raised)
    }

    method Ccl()
      modifies this`IRQCount, this`raised
      ensures View() == CountStep(old(View()))
    {
      if IRQMode / 64 == 1 {
        IRQCount := (IRQCount + 1) % 256;
        if IRQCount == 0 && IRQa {
          raised := raised + 1;
        }
      } else if IRQMode / 64 == 2 {
        IRQCount := (IRQCount + 255) % 256;
        if IRQCount == 0xFF && IRQa {
          raised := raised + 1;
        }
      }
    }

    /** `ClockCounter`: masking with 7 or 255 is taking the remainder by 8 or 256. */
    method ClockCounter()
      modifies this`IRQPre, this`IRQCount, this`raised
      ensures View() == Clock(old(View()))
    {
      var premask := if IRQMode / 4 % 2 == 1 then 7 else 255;
      if IRQMode / 64 == 1 {
        IRQPre := (IRQPre + 1) % 256;
        if IRQPre % (premask + 1) == 0 {
          Ccl();
        }
      } else if IRQMode / 64 == 2 {
        IRQPre := (IRQPre + 255) % 256;
        if IRQPre % (premask + 1) == premask {
          Ccl();
        }
      }
    }

    method CpuWrap(a: int)
      modifies this`IRQPre, this`IRQCount, this`raised
      ensures View() == CpuCycles(old(View()), a)
    {
      hide Clock;
      NoClocks(View());
      if IRQMode % 4 == 0 {
        var x := 0;
        while x < a
          invariant 0 <= x && (x <= a || x == 0)
          invariant View() == Clocks(old(View()), x)
        {
          ClockCounter();
          x := x + 1;
        }
      }
    }

    method SlWrap()
      modifies this`IRQPre, this`IRQCount, this`raised
      ensures View() == ScanLine(old(View()))
    {
      hide Clock;
      if IRQMode % 4 == 1 {
        var x := 0;
        while x < 8
          invariant x <= 8
          invariant View() == Clocks(old(View()), x)
        {
          ClockCounter();
          x := x + 1;
        }
      }
    }
  }

  // ----- the scan line counter -----

  const LCYCS: nat := 341

  /** The counter of board 252: cycles of the current line, lines, the value to start again from. */
  datatype Lines = Lines(clock: int, count: nat, latch: nat, enabled: bool, raised: nat)

  /** One scan line. */
  function Line(s: Lines): Lines {
    if (s.count + 1) / 0x100 % 2 == 1 then s.(count := s.latch, raised := s.raised + 1) else s.(count := s.count + 1)
  }

  /** The `while` loop. */
  function Drain(s: Lines): Lines
    decreases s.clock
  {
    if s.clock >= LCYCS then Drain(Line(s.(clock := s.clock - LCYCS))) else s
  }

  /** `M252IRQ`. */
  function Cycles(s: Lines, a: nat): Lines {
    if s.enabled then Drain(s.(clock := s.clock + a * 3)) else s
  }

  function LinesOn(s: Lines, n: nat): Lines {
    if n == 0 then s else Line(LinesOn(s, n - 1))
  }

  lemma {:induction false} LinesOnAdd(s: Lines, a: nat, b: nat)
    ensures LinesOn(LinesOn(s, a), b) == LinesOn(s, a + b)
  {
    hide Line;
    if b > 0 {
      LinesOnAdd(s, a, b - 1);
    }
  }

  lemma {:induction false} LinesOnFrame(s: Lines, n: nat, clock: int)
    ensures LinesOn(s.(clock := clock), n) == LinesOn(s, n).(clock := clock)
    ensures LinesOn(s, n).clock == s.clock && LinesOn(s, n).enabled == s.enabled && LinesOn(s, n).latch == s.latch
  {
    if n > 0 {
      LinesOnFrame(s, n - 1, clock);
    }
  }

  /** The loop takes out whole lines and leaves the rest. */
  lemma {:induction false} DrainIsDivision(s: Lines)
    requires s.clock >= 0
    ensures Drain(s) == LinesOn(s, s.clock / LCYCS).(clock := s.clock % LCYCS)
    decreases s.clock
  {
    hide Line;
    if s.clock >= LCYCS {
      var s1 := s.(clock := s.clock - LCYCS);
      LineFrame(s, s.clock - LCYCS);
      DrainIsDivision(Line(s1));
      assert s.clock / LCYCS == (s.clock - LCYCS) / LCYCS + 1 && s.clock % LCYCS == (s.clock - LCYCS) % LCYCS;
      assert LinesOn(s, 0) == s && LinesOn(s, 1) == Line(s);
      LinesOnAdd(s, 1, (s.clock - LCYCS) / LCYCS);
      LinesOnFrame(Line(s), (s.clock - LCYCS) / LCYCS, s.clock - LCYCS);
    } else {
      assert LinesOn(s, 0) == s;
    }
  }

  lemma LineFrame(s: Lines, clock: int)
    ensures Line(s.(clock := clock)) == Line(s).(clock := clock)
  {
  }

  /** A processor cycle is three dots of 341 to a line: 341 cycles are three lines, and nothing is left over. */
  lemma CyclesAreLines(s: Lines, k: nat)
    requires 0 <= s.clock < LCYCS
    ensures Cycles(s, 341 * k) == if s.enabled then LinesOn(s, 3 * k) else s
  {
    hide Line, LinesOn, Drain;
    if s.enabled {
      var x := s.clock + 3 * (341 * k);
      DrainIsDivision(s.(clock := x));
      DivModUnique(x, 341, 3 * k, s.clock);
      LinesOnFrame(s, 3 * k, x);
      LinesOnFrame(s, 3 * k, s.clock);
      assert s.(clock := s.clock) == s;
    }
  }

  /** Cycles can be delivered in any portions here as well. */
  lemma LineCyclesAdd(s: Lines, a: nat, b: nat)
    requires 0 <= s.clock < LCYCS
    ensures Cycles(Cycles(s, a), b) == Cycles(s, a + b)
  {
    hide Line, LinesOn, Drain;
    if s.enabled {
      var x, y := s.clock + 3 * a, s.clock + 3 * (a + b);
      var s1 := LinesOn(s, x / LCYCS);
      DrainIsDivision(s.(clock := x));
      LinesOnFrame(s, x / LCYCS, x);
      LinesOnFrame(s, x / LCYCS, 0);
      var z := x % LCYCS + 3 * b;
      DrainIsDivision(s1.(clock := z));
      LinesOnFrame(s1, z / LCYCS, z);
      DrainIsDivision(s.(clock := y));
      LinesOnFrame(s, y / LCYCS, y);
      LinesOnAdd(s, x / LCYCS, z / LCYCS);
      assert x / LCYCS + z / LCYCS == y / LCYCS && z % LCYCS == y % LCYCS;
    }
  }

  /**
   With the count and the latch below 256, the interrupt is raised after the first 256 - count lines and
   then every 256 - latch lines: dividing the lines since the first interrupt by that period gives the
   further interrupts as the quotient and the distance from the latch as the remainder.
   */
  lemma LinesPeriod(s: Lines, n: nat)
    requires s.count < 256 && s.latch < 256
    ensures var d := LinesOn(s, n);
            var first, period := 256 - s.count, 256 - s.latch;
            if n < first then d.count == s.count + n && d.raised == s.raised
            else Divided(n - first, period, d.raised - s.raised - 1, d.count - s.latch)
  {
    hide *;
    if n < 256 - s.count {
      LinesBefore(s, n);
    } else {
      LinesAt(s, n - (256 - s.count));
    }
  }

  lemma {:induction false} LinesBefore(s: Lines, n: nat)
    requires n < 256 - s.count
    ensures var d := LinesOn(s, n); d.count == s.count + n && d.raised == s.raised && d.latch == s.latch
  {
    if n > 0 {
      LinesBefore(s, n - 1);
      LineAbove(LinesOn(s, n - 1));
    }
  }

  /** After the first interrupt and `m` more lines. */
  lemma {:induction false} LinesAt(s: Lines, m: nat)
    requires s.count < 256 && s.latch < 256
    ensures var d := LinesOn(s, 256 - s.count + m);
            Divided(m, 256 - s.latch, d.raised - s.raised - 1, d.count - s.latch) && d.latch == s.latch
    decreases m
  {
    hide LinesOn;
    var n, period := 256 - s.count + m, 256 - s.latch;
    LinesNext(s, n);
    var before := LinesOn(s, n - 1);
    if m == 0 {
      LinesBefore(s, n - 1);
      LineAbove(before);
    } else {
      LinesAt(s, m - 1);
      var q, r := before.raised - s.raised - 1, before.count - s.latch;
      LineBelow(before, r, period);
      DividedNext(m - 1, period, q, r);
    }
  }

  /** Quotient and remainder of `m` by `d`. */
  predicate Divided(m: int, d: int, q: int, r: int) {
    0 <= q && 0 <= r < d && m == q * d + r
  }

  lemma DividedNext(m: int, d: int, q: int, r: int)
    requires Divided(m, d, q, r)
    ensures if r + 1 == d then Divided(m + 1, d, q + 1, 0) else Divided(m + 1, d, q, r + 1)
  {
  }

  lemma LinesNext(s: Lines, n: nat)
    requires n > 0
    ensures LinesOn(s, n) == Line(LinesOn(s, n - 1))
  {
  }

  /** A line before the first interrupt. */
  lemma LineAbove(d: Lines)
    requires d.count < 256
    ensures Line(d).count == if d.count == 255 then d.latch else d.count + 1
    ensures Line(d).raised == d.raised + (if d.count == 255 then 1 else 0) && Line(d).latch == d.latch
  {
  }

  /** A line with the count `r` above the latch. */
  lemma LineBelow(d: Lines, r: nat, period: nat)
    requires d.latch < 256 && period == 256 - d.latch && r < period && d.count == d.latch + r
    ensures Line(d).count == d.latch + (if r + 1 == period then 0 else r + 1)
    ensures Line(d).raised == d.raised + (if r + 1 == period then 1 else 0) && Line(d).latch == d.latch
  {
  }

  lemma LineIs(s: Lines)
    ensures Line(s) == if (s.count + 1) / 0x100 % 2 == 1 then Lines(s.clock, s.latch, s.latch, s.enabled, s.raised + 1)
                       else Lines(s.clock, s.count + 1, s.latch, s.enabled, s.raised)
  {
  }

  class Board252 {
    var IRQa: bool
    var IRQCount: nat
    var IRQClock: int
    var IRQLatch: nat
    var raised: nat

    ghost function View(): Lines
      reads this
    {
      Lines(IRQClock, IRQCount, IRQLatch, IRQa, raised)
    }

    method M252Irq(a: nat)
      modifies this`IRQCount, this`IRQClock, this`raised
      ensures View() == Cycles(old(View()), a)
    {
      if IRQa {
        IRQClock := IRQClock + a * 3;
        ghost var start := View();
        hide Line;
        if IRQClock >= LCYCS {
          while IRQClock >= LCYCS
            invariant Drain(View()) == Drain(start)
            decreases IRQClock
          {
            LineIs(Lines(IRQClock - LCYCS, IRQCount, IRQLatch, IRQa, raised));
            IRQClock := IRQClock - LCYCS;
            IRQCount := IRQCount + 1;
            if IRQCount / 0x100 % 2 == 1 {
              raised := raised + 1;
              IRQCount := IRQLatch;
            }
          }
        }
      }
    }
  }
}
