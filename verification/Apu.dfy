/**
 The sound processor (fceux-am/src/sound.cpp, lines 182-348, 370-455, 534-557, 640-736, 780-921
 and 1100-1160).

 Register writes, the frame sequencer, the sample loops and soft resets may come in any order.  In every state that
 can be reached the registers keep the ranges on which the low-quality mixer relies: it adds up the
 channels' levels and uses the sums as indices into tables of 32 and 203 entries.
 */
module Apu {
  import opened Bits

  type Byte = b: nat | b < 0x100

  const LENGTHS: seq<nat> := [
    10, 254, 20, 2, 40, 4, 80, 6, 160, 8, 60, 10, 14, 12, 26, 14,
    12, 16, 24, 18, 48, 20, 96, 22, 192, 24, 72, 26, 16, 28, 32, 30]

  // ----- envelopes -----

  /** `ENVUNIT`: `mode` has the bits "fixed volume" (1) and "loop" (2). */
  datatype Env = Env(speed: Byte, mode: Byte, decCount: Byte, decVolume: Byte, reload: bool) {
    predicate Ok() {
      speed < 16 && mode < 4 && decVolume < 16 && decCount <= 16
    }

    /** The number of clocks between two falls. */
    function Period(): (p: nat)
      ensures p > 0
    {
      speed as int + 1
    }

    /** The volume that the mixers take. */
    function Volume(): Byte {
      if mode % 2 == 1 then speed else decVolume
    }

    /** The part of `FrameSoundStuff` for one envelope. */
    function Clock(): (e: Env)
      requires Ok()
      ensures e.Ok()
    {
      if reload then Env(speed, mode, speed + 1, 0xF, false)
      else
        var d := if decCount > 0 then decCount - 1 else decCount;
        if d != 0 then this.(decCount := d)
        else if decVolume != 0 || mode / 2 % 2 == 1 then
          this.(decCount := speed + 1, decVolume := (decVolume + 0xFF) % 0x100 % 16)
        else this.(decCount := speed + 1)
    }

    function SetMode(v: Byte): (e: Env)
      requires Ok()
      ensures e.Ok()
    {
      this.(mode := v / 16 % 4, speed := v % 16)
    }
  }

  /** `k` clocks of an envelope with nothing written in between. */
  function Clocks(e: Env, k: nat): (r: Env)
    requires e.Ok()
    ensures r.Ok()
  {
    if k == 0 then e else Clocks(e, k - 1).Clock()
  }

  /** The volume after `n` falls: it stays at zero, or starts again from 15 when it loops. */
  function Fallen(volume: int, n: int, loop: bool): int {
    if loop then (volume - n) % 16 else if n <= volume then volume - n else 0
  }

  /**
   In its course, with no reload pending, an envelope falls by one every speed + 1 clocks: at zero it
   stays, or wraps around to 15 when it loops.
   */
  lemma EnvelopeFalls(e: Env, k: nat)
    requires e.Ok() && !e.reload && 1 <= e.decCount <= e.speed + 1
    ensures var r, n := Clocks(e, k), Elapsed(e, k);
            && r.decVolume == Fallen(e.decVolume, n / e.Period(), e.mode / 2 % 2 == 1)
            && r.decCount == e.Period() - n % e.Period()
            && !r.reload && r.speed == e.speed && r.mode == e.mode
  {
    hide Clocks, Fallen;
    var n, d := Elapsed(e, k), e.Period();
    assert n == d * (n / d) + n % d;
    EnvelopeAt(e, k, n / d, n % d);
  }

  /** How many clocks ago the count was at its highest, after `k` clocks. */
  function Elapsed(e: Env, k: nat): nat
    requires e.decCount <= e.speed + 1
  {
    k + (e.Period() - e.decCount)
  }

  /** The same, with quotient and remainder given. */
  lemma {:induction false} EnvelopeAt(e: Env, k: nat, q: nat, m: nat)
    requires e.Ok() && !e.reload && 1 <= e.decCount <= e.speed + 1
    requires m <= e.speed && k + (e.speed as int + 1 - e.decCount) == q * (e.speed as int + 1) + m
    ensures var r := Clocks(e, k);
            && r.decVolume == Fallen(e.decVolume, q, e.mode / 2 % 2 == 1) && r.decCount == e.speed as int + 1 - m
            && !r.reload && r.speed == e.speed && r.mode == e.mode
    decreases k
  {
    var period := e.speed as int + 1;
    if k == 0 {
      hide Clocks;
      EnvelopeStart(q, m, period, period - e.decCount);
    } else {
      EnvelopeBefore(q, m, period, k + period - e.decCount);
      var q', m' := if m == 0 then q - 1 else q, if m == 0 then period - 1 else m - 1;
      hide Fallen, Env.Clock;
      EnvelopeAt(e, k - 1, q', m');
      OneClock(e, Clocks(e, k - 1), q', m', period);
    }
  }

  lemma EnvelopeStart(q: nat, m: nat, d: nat, n: nat)
    requires m < d && n < d && n == q * d + m
    ensures q == 0 && m == n
  {
    if q > 0 {
      MulAtLeast(q, d);
    }
  }

  lemma EnvelopeBefore(q: nat, m: nat, d: nat, n: int)
    requires m < d && 0 < n == q * d + m
    ensures if m == 0 then q > 0 && n - 1 == (q - 1) * d + (d - 1) else n - 1 == q * d + (m - 1)
  {
    QuotientBefore(q, d);
  }

  lemma QuotientBefore(q: int, d: int)
    ensures (q - 1) * d + d == q * d
  {
  }

  /** From `m` clocks after fall number `q` to the next clock. */
  lemma OneClock(e: Env, r: Env, q: nat, m: int, period: int)
    requires e.Ok() && r.Ok() && !r.reload && r.speed == e.speed && r.mode == e.mode && period == e.speed as int + 1
    requires r.decVolume == Fallen(e.decVolume, q, e.mode / 2 % 2 == 1) && 0 <= m < period && r.decCount == period - m
    ensures var s := r.Clock();
            && s.decVolume == Fallen(e.decVolume, if m == period - 1 then q + 1 else q, e.mode / 2 % 2 == 1)
            && s.decCount == period - (if m == period - 1 then 0 else m + 1)
            && !s.reload && s.speed == e.speed && s.mode == e.mode
  {
    OneFall(r.decVolume);
    FallenNext(e.decVolume, q, e.mode / 2 % 2 == 1);
    hide Fallen;
  }

  lemma OneFall(d: nat)
    requires d < 16
    ensures (d + 0xFF) % 0x100 % 16 == if d == 0 then 15 else d - 1
  {
  }

  lemma FallenNext(volume: int, q: nat, loop: bool)
    requires volume >= 0
    ensures Fallen(volume, q + 1, loop)
            == if Fallen(volume, q, loop) == 0 then (if loop then 15 else 0) else Fallen(volume, q, loop) - 1
  {
    if loop {
      Down16(volume - q);
    }
  }

  lemma Down16(x: int)
    ensures (x - 1) % 16 == if x % 16 == 0 then 15 else x % 16 - 1
  {
  }

  /** A reload starts the course at 15. */
  lemma EnvelopeCourse(e: Env, k: nat)
    requires e.Ok() && e.reload
    ensures Clocks(e, 1 + k).decVolume == Fallen(15, k / e.Period(), e.mode / 2 % 2 == 1)
  {
    EnvelopeFalls(e.Clock(), k);
    ClocksFirst(e, k);
  }

  lemma {:induction false} ClocksFirst(e: Env, k: nat)
    requires e.Ok()
    ensures Clocks(e, 1 + k) == Clocks(e.Clock(), k)
  {
    if k > 0 {
      ClocksFirst(e, k - 1);
    } else {
      assert Clocks(e, 0) == e;
    }
  }

  // ----- square waves -----

  datatype Square = Square(freq: int, length: int, sweepOn: bool, sweepCount: Byte, sweepReload: bool, duty: int, env: Env) {
    predicate Ok() {
      0 <= freq <= 0x7FF && length >= 0 && 0 <= duty < 8 && sweepCount <= 8 && env.Ok()
    }

    /** One clock of the sweep unit of channel `p`, whose second register is `r`. */
    function Sweep(p: nat, r: Byte): (s: Square)
      requires Ok() && p < 2
      ensures s.Ok()
    {
      var count := if sweepCount > 0 then sweepCount - 1 else 0;
      var shift := r % 8;
      ShiftHalves(freq, shift);
      var next :=
        if count > 0 || !sweepOn || shift == 0 || freq < 8 then freq
        else if r / 8 % 2 == 1 then freq - (Shr(freq, shift) + (if p == 0 then 1 else 0))
        else if Shr(freq, shift) + freq < 0x800 then freq + Shr(freq, shift)
        else freq;
      this.(freq := next, sweepCount := if count == 0 || sweepReload then r / 16 % 8 + 1 else count, sweepReload := false)
    }

    function CountLength(r: Byte): (s: Square)
      requires Ok()
      ensures s.Ok()
    {
      if r / 32 % 2 == 0 && length > 0 then this.(length := length - 1) else this
    }
  }

  lemma {:induction false} ShiftHalves(x: nat, k: nat)
    ensures Shr(x, k) <= x && (k > 0 ==> 2 * Shr(x, k) <= x)
  {
    if k > 0 {
      ShiftHalves(x / 2, k - 1);
    }
  }

  // ----- noise -----

  /** One step of the shift register; `short` selects the tap. */
  function NoiseStep(n: nat, short: bool): nat {
    var tap := if short then n / 0x100 else n / 0x2000;
    (2 * n + (tap + n / 0x4000) % 2) % 0x8000
  }

  predicate NoiseOk(n: nat) {
    0 < n < 0x8000
  }

  /** The register before, from the register after. */
  function NoiseBack(n: nat, short: bool): nat {
    var tap := if short then n / 0x200 else n / 0x4000;
    n / 2 + (tap + n) % 2 * 0x4000
  }

  /** The bit that is shifted in. */
  function NoiseBit(n: nat, short: bool): nat {
    ((if short then n / 0x100 else n / 0x2000) + n / 0x4000) % 2
  }

  /** The register never gets stuck at zero, and no two states lead to the same one, whatever the tap. */
  lemma NoiseReversible(n: nat, short: bool)
    requires NoiseOk(n)
    ensures NoiseOk(NoiseStep(n, short)) && NoiseBack(NoiseStep(n, short), short) == n
  {
    var top, rest, f := n / 0x4000, n % 0x4000, NoiseBit(n, short);
    ShiftedIn(n, top, rest, f);
    Halved(rest, f);
    NoiseParity(n, short, top, rest, f);
    hide NoiseBit;
    assert NoiseStep(n, short) == 2 * rest + f by { NoiseStepIs(n, short, rest, f); }
    assert NoiseBack(2 * rest + f, short) == rest + top * 0x4000 by { NoiseBackIs(rest, f, short, top); }
  }

  lemma NoiseStepIs(n: nat, short: bool, rest: nat, f: nat)
    requires f == NoiseBit(n, short) && (2 * n + f) % 0x8000 == 2 * rest + f
    ensures NoiseStep(n, short) == 2 * rest + f
  {
  }

  lemma NoiseBackIs(rest: nat, f: nat, short: bool, top: nat)
    requires (2 * rest + f) / 2 == rest
    requires (((if short then (2 * rest + f) / 0x200 else (2 * rest + f) / 0x4000)) + (2 * rest + f)) % 2 == top
    ensures NoiseBack(2 * rest + f, short) == rest + top * 0x4000
  {
  }

  /** The tap is the same bit, before and after the shift, so that the top bit can be told from the bit shifted in. */
  lemma NoiseParity(n: nat, short: bool, top: nat, rest: nat, f: nat)
    requires n == top * 0x4000 + rest && rest < 0x4000 && top < 2 && f == NoiseBit(n, short)
    ensures f < 2 && ((if short then (2 * rest + f) / 0x200 else (2 * rest + f) / 0x4000) + (2 * rest + f)) % 2 == top
  {
    Taps(n, top, rest, f);
    if short {
      ParityBack(rest / 0x100, 0x20 * top, top, f, rest);
    } else {
      ParityBack(rest / 0x2000, top, top, f, rest);
    }
  }

  /** The tap before and after. */
  lemma Taps(n: nat, top: nat, rest: nat, f: nat)
    requires n == top * 0x4000 + rest && rest < 0x4000 && f < 2
    ensures n / 0x100 == 2 * (0x20 * top) + rest / 0x100 && (2 * rest + f) / 0x200 == rest / 0x100
    ensures n / 0x2000 == 2 * top + rest / 0x2000 && (2 * rest + f) / 0x4000 == rest / 0x2000
    ensures n / 0x4000 == top
  {
  }

  lemma ParityBack(tap: nat, k: nat, top: nat, f: nat, rest: nat)
    requires top < 2 && f == (2 * k + tap + top) % 2
    ensures (tap + (2 * rest + f)) % 2 == top
  {
  }

  lemma ShiftedIn(n: nat, top: nat, rest: nat, f: nat)
    requires n == top * 0x4000 + rest && rest < 0x4000 && f < 2
    ensures (2 * n + f) % 0x8000 == 2 * rest + f
  {
    assert 2 * n + f == top * 0x8000 + (2 * rest + f);
  }

  // ----- samples -----

  const PERIODS_NTSC: seq<nat> := [428, 380, 340, 320, 286, 254, 226, 214, 190, 160, 142, 128, 106, 84, 72, 54]
  const PERIODS_PAL: seq<nat> := [398, 354, 316, 298, 276, 236, 210, 198, 176, 148, 132, 118, 98, 78, 66, 50]

  function DmcPeriod(v: Byte, pal: bool): (p: nat)
    ensures 50 <= p <= 428
  {
    PeriodRange(v % 16);
    if pal then PERIODS_PAL[v % 16] else PERIODS_NTSC[v % 16]
  }

  lemma PeriodRange(k: nat)
    requires k < 16
    ensures 50 <= PERIODS_PAL[k] <= 428 && 50 <= PERIODS_NTSC[k] <= 428
  {
    if k < 8 {
      assert k in {0, 1, 2, 3, 4, 5, 6, 7};
    } else {
      assert k in {8, 9, 10, 11, 12, 13, 14, 15};
    }
  }

  /** The delta channel; `latch` is `RawDALatch`. */
  datatype Dmc = Dmc(latch: Byte, acc: int, period: nat, bitCount: nat, shift: Byte, haveSample: bool, haveDma: bool, buffer: Byte) {
    predicate Ok() {
      latch < 0x80 && period > 0 && bitCount < 8
    }

    /** One bit: the level goes up or down by two, unless that leaves seven bits. */
    function Bit(): (d: Dmc)
      requires Ok()
      ensures d.Ok() && d.acc == acc + period && d.period == period
    {
      var next := (latch + shift % 2 * 4 + 0xFE) % 0x100;
      var count := (bitCount + 1) % 8;
      var d := this.(latch := if haveSample && next < 0x80 then next else latch, acc := acc + period, bitCount := count, shift := shift / 2);
      if count != 0 then d
      else if !haveDma then d.(haveSample := false)
      else d.(haveSample := true, shift := buffer, haveDma := false)
    }

    /** The loop of `FCEU_SoundCPUHook`. */
    function Catch(): (d: Dmc)
      requires Ok()
      ensures d.Ok() && d.acc > 0
      decreases -acc
    {
      if acc > 0 then this else Bit().Catch()
    }
  }

  // ----- all registers -----

  datatype Apu = Apu(psg: seq<Byte>, enabled: Byte, sq0: Square, sq1: Square, triCount: Byte, triMode: bool, triLength: int,
                     noiseLength: int, noiseEnv: Env, nreg: nat, dmc: Dmc) {
    predicate Ok() {
      && |psg| == 16 && sq0.Ok() && sq1.Ok()
      && triCount < 0x80 && triLength >= 0 && noiseLength >= 0 && noiseEnv.Ok() && NoiseOk(nreg) && dmc.Ok()
    }
  }

  /** `FCEUSND_Power`. */
  function PowerOn(duty0: nat, duty1: nat, pal: bool): (a: Apu)
    requires duty0 < 8 && duty1 < 8
    ensures a.Ok()
  {
    var env := Env(0, 0, 0, 0, false);
    Apu(seq<Byte>(16, _ => 0), 0, Square(0, 0, false, 0, false, duty0, env), Square(0, 0, false, 0, false, duty1, env),
        0, false, 0, 0, env, 1, Dmc(0, 1, DmcPeriod(0, pal), 0, 0, false, false, 0))
  }

  function LengthOf(v: Byte): (n: nat)
    ensures n <= 254
  {
    LengthRange(v / 8 % 32);
    LENGTHS[v / 8 % 32]
  }

  lemma LengthRange(k: nat)
    requires k < 32
    ensures LENGTHS[k] <= 254
  {
    if k < 16 {
      assert k in {0, 1, 2, 3, 4, 5, 6, 7, 8, 9, 10, 11, 12, 13, 14, 15};
    } else {
      assert k in {16, 17, 18, 19, 20, 21, 22, 23, 24, 25, 26, 27, 28, 29, 30, 31};
    }
  }

  /** A write to one of the four registers of square channel `p`. */
  function WriteSquare(s: Square, p: nat, enabled: Byte, k: nat, v: Byte): (r: Square)
    requires s.Ok() && p < 2 && k < 4
    ensures r.Ok()
  {
    if k == 0 then s.(env := s.env.SetMode(v))
    else if k == 1 then s.(sweepOn := v >= 0x80, sweepReload := true)
    else if k == 2 then s.(freq := s.freq / 0x100 % 0x100 * 0x100 + v)
    else
      var on := if p == 0 then enabled % 2 == 1 else enabled / 2 % 2 == 1;
      s.(length := if on then LengthOf(v) else s.length, freq := s.freq % 0x100 + v % 8 * 0x100, duty := 7, env := s.env.(reload := true))
  }

  /** The duty bits can be exchanged on the way in. */
  function SwapDuty(v: Byte): Byte {
    v % 0x40 + v / 0x80 * 0x40 + v / 0x40 % 2 * 0x80
  }

  /** `Write_PSG`. */
  function WritePsg(a: Apu, k: nat, v: Byte, swapDuty: bool): (r: Apu)
    requires a.Ok() && k < 16
    ensures r.Ok()
  {
    var stored := if swapDuty && (k == 0 || k == 4) then SwapDuty(v) else v;
    var b := a.(psg := a.psg[k := stored]);
    if k < 4 then b.(sq0 := WriteSquare(a.sq0, 0, a.enabled, k, v))
    else if k < 8 then b.(sq1 := WriteSquare(a.sq1, 1, a.enabled, k - 4, v))
    else if k == 0xB then b.(triLength := if a.enabled / 4 % 2 == 1 then LengthOf(v) else a.triLength, triMode := true)
    else if k == 0xC then b.(noiseEnv := a.noiseEnv.SetMode(v))
    else if k == 0xF then b.(noiseLength := if a.enabled / 8 % 2 == 1 then LengthOf(v) else a.noiseLength, noiseEnv := a.noiseEnv.(reload := true))
    else b
  }

  /** `StatusWrite`, as far as it concerns the length counters. */
  function WriteStatus(a: Apu, v: Byte): (r: Apu)
    requires a.Ok()
    ensures r.Ok()
  {
    a.(sq0 := if v % 2 == 0 then a.sq0.(length := 0) else a.sq0, sq1 := if v / 2 % 2 == 0 then a.sq1.(length := 0) else a.sq1,
       triLength := if v / 4 % 2 == 0 then 0 else a.triLength, noiseLength := if v / 8 % 2 == 0 then 0 else a.noiseLength,
       enabled := v % 0x20)
  }

  /** `Write_DMCRegs`, registers 0 and 1. */
  function WriteDmc(a: Apu, k: nat, v: Byte, pal: bool): (r: Apu)
    requires a.Ok()
    ensures r.Ok()
  {
    if k == 0 then a.(dmc := a.dmc.(period := DmcPeriod(v, pal)))
    else if k == 1 then a.(dmc := a.dmc.(latch := v % 0x80))
    else a
  }

  /** `FrameSoundStuff`: the even frames also count lengths and sweep. */
  function Frame(a: Apu, v: nat): (r: Apu)
    requires a.Ok()
    ensures r.Ok()
  {
    var b :=
      if v % 2 == 1 then a
      else
        a.(triLength := if a.psg[8] < 0x80 && a.triLength > 0 then a.triLength - 1 else a.triLength,
           noiseLength := if a.psg[0xC] / 32 % 2 == 0 && a.noiseLength > 0 then a.noiseLength - 1 else a.noiseLength,
           sq0 := a.sq0.CountLength(a.psg[0]).Sweep(0, a.psg[1]), sq1 := a.sq1.CountLength(a.psg[4]).Sweep(1, a.psg[5]));
    b.(triCount := if b.triMode then b.psg[8] % 0x80 else if b.triCount > 0 then b.triCount - 1 else b.triCount,
       triMode := b.triMode && b.psg[8] >= 0x80,
       sq0 := b.sq0.(env := b.sq0.env.Clock()), sq1 := b.sq1.(env := b.sq1.env.Clock()),
       noiseEnv := b.noiseEnv.Clock())
  }

  /** The delta channel's part of `FCEU_SoundCPUHook`, after a byte may have been fetched. */
  function Hook(a: Apu, cycles: int, fetched: bool, byte: Byte): (r: Apu)
    requires a.Ok()
    ensures r.Ok()
  {
    var d := if fetched then a.dmc.(haveDma := true, buffer := byte) else a.dmc;
    a.(dmc := d.(acc := d.acc - cycles).Catch())
  }

  // ----- the sample loops -----

  /** Adds a period to the counter of a channel until it is positive, and moves the duty on each time. */
  function Turn(acc: int, period: nat, duty: nat): (r: (int, nat))
    requires period > 0 && duty < 8
    ensures r.0 > 0 && r.1 < 8
    decreases -acc
  {
    if acc <= 0 then Turn(acc + period, period, (duty + 1) % 8) else (acc, duty)
  }

  /** `CheckFreq`. */
  predicate FreqOk(cf: nat, sr: Byte) {
    sr / 8 % 2 == 1 || (Shr(cf, sr % 8) + cf) / 0x800 % 2 == 0
  }

  /** The step of a square channel, zero when it is silent. */
  function SquareStep(s: Square, r: Byte, nesincsize: nat): nat
    requires s.Ok()
  {
    if s.freq < 8 || !FreqOk(s.freq, r) || s.length == 0 then 0 else nesincsize
  }

  /** Its level while the duty is on; volumes go up to 256. */
  function SquareAmp(s: Square, step: nat, volume: nat): (amp: nat)
    requires s.Ok() && volume <= 256
    ensures amp <= 15
  {
    if step == 0 then 0
    else if volume != 256 then (Scaled(s.env.Volume(), volume); s.env.Volume() * volume / 256)
    else s.env.Volume()
  }

  lemma Scaled(x: nat, volume: nat)
    requires x <= 15 && volume <= 256
    ensures 0 <= x * volume / 256 <= 15
  {
    assert x * volume <= 15 * 256 by {
      assert 15 * 256 - x * volume == 15 * (256 - volume) + (15 - x) * volume;
      assert (15 - x) * volume >= 0;
    }
  }

  /** `RectDuties`. */
  function Threshold(r: Byte): (t: nat)
    ensures t <= 6
  {
    match r / 0x40 % 4
    case 0 => 1
    case 1 => 2
    case 2 => 4
    case _ => 6
  }

  /** What the loop over the samples of both square channels works with. */
  datatype Squares = Squares(step0: nat, step1: nat, period0: nat, period1: nat, amp0: nat, amp1: nat, on0: nat, on1: nat) {
    predicate Ok() {
      period0 > 0 && period1 > 0 && amp0 <= 15 && amp1 <= 15
    }
  }

  function Setup(a: Apu, nesincsize: nat, volume1: nat, volume2: nat): (c: Squares)
    requires a.Ok() && volume1 <= 256 && volume2 <= 256
    ensures c.Ok()
  {
    var s0, s1 := SquareStep(a.sq0, a.psg[1], nesincsize), SquareStep(a.sq1, a.psg[5], nesincsize);
    Squares(s0, s1, (a.sq0.freq + 1) * 2 * 0x2_0000, (a.sq1.freq + 1) * 2 * 0x2_0000,
            SquareAmp(a.sq0, s0, volume2), SquareAmp(a.sq1, s1, volume1), Threshold(a.psg[0]), Threshold(a.psg[4]))
  }

  datatype Phase = Phase(acc0: int, acc1: int, duty0: nat, duty1: nat) {
    predicate Ok() {
      duty0 < 8 && duty1 < 8
    }
  }

  /** One sample further. */
  function Advance(c: Squares, p: Phase): (r: Phase)
    requires c.Ok() && p.Ok()
    ensures r.Ok()
  {
    if c.step0 == 0 && c.step1 == 0 then p
    else
      var t0, t1 := Turn(p.acc0 - c.step0, c.period0, p.duty0), Turn(p.acc1 - c.step1, c.period1, p.duty1);
      Phase(t0.0, t1.0, t0.1, t1.1)
  }

  /** The index into the table of 32 entries. */
  function Sum(c: Squares, p: Phase): (i: nat)
    requires c.Ok() && p.Ok()
    ensures i <= 30
  {
    (if p.duty0 < c.on0 then c.amp0 else 0) + (if p.duty1 < c.on1 then c.amp1 else 0)
  }

  function After(c: Squares, p: Phase, n: nat): (r: Phase)
    requires c.Ok() && p.Ok()
    ensures r.Ok()
  {
    if n == 0 then p else Advance(c, After(c, p, n - 1))
  }

  /** The samples that are added to the wave. */
  function Samples(c: Squares, p: Phase, table: seq<int>, n: nat): (r: seq<int>)
    requires c.Ok() && p.Ok() && |table| == 32
    ensures |r| == n
  {
    if n == 0 then [] else Samples(c, p, table, n - 1) + [table[Sum(c, After(c, p, n - 1))]]
  }

  /** Sixteen samples are added up in each entry of the wave. */
  function Mixed(wave: seq<int>, start: nat, samples: seq<int>): (r: seq<int>)
    requires start + |samples| <= 16 * |wave|
    ensures |r| == |wave|
  {
    if samples == [] then wave
    else
      var n := |samples| - 1;
      var w := Mixed(wave, start, samples[..n]);
      w[(start + n) / 16 := w[(start + n) / 16] + samples[n]]
  }

  // ----- triangle, noise and delta channel -----

  /** The triangle's level at a step: up and down between 0 and 45. */
  function Triangle(step: nat): (l: nat)
    ensures l <= 45
  {
    (if step / 16 % 2 == 1 then step % 16 else 15 - step % 16) * 3
  }

  function NoisePeriod(v: Byte, pal: bool): (p: nat)
    ensures p >= 4
  {
    var k := v % 16;
    NoisePeriodRange(k);
    if pal then NOISE_PAL[k] else NOISE_NTSC[k]
  }

  const NOISE_NTSC: seq<nat> := [4, 8, 16, 32, 64, 96, 128, 160, 202, 254, 380, 508, 762, 1016, 2034, 4068]
  const NOISE_PAL: seq<nat> := [4, 7, 14, 30, 60, 88, 118, 148, 188, 236, 354, 472, 708, 944, 1890, 3778]

  lemma NoisePeriodRange(k: nat)
    requires k < 16
    ensures NOISE_NTSC[k] >= 4 && NOISE_PAL[k] >= 4
  {
    if k < 8 {
      assert k in {0, 1, 2, 3, 4, 5, 6, 7};
    } else {
      assert k in {8, 9, 10, 11, 12, 13, 14, 15};
    }
  }

  datatype Rest = Rest(step0: nat, step1: nat, period0: nat, period1: nat, amp: nat, short: bool, latch: nat) {
    predicate Ok() {
      period0 > 0 && period1 > 0 && amp <= 30 && latch < 0x80
    }
  }

  function SetupRest(a: Apu, nesincsize: nat, volume: nat, pal: bool): (c: Rest)
    requires a.Ok() && volume <= 256
    ensures c.Ok()
  {
    var freq: nat := a.psg[0xA] as nat + (a.psg[0xB] % 8) as nat * 0x100 + 1;
    var v := a.noiseEnv.Volume();
    Scaled(v, volume);
    var amp := if a.noiseLength == 0 then 0 else 2 * (if volume != 256 then v * volume / 256 else v);
    Rest(if a.triLength == 0 || a.triCount == 0 || freq <= 4 then 0 else nesincsize, if a.noiseLength == 0 then 0 else nesincsize,
         freq * 0x2_0000, NoisePeriod(a.psg[0xE], pal) * 0x2_0000, amp, a.psg[0xE] >= 0x80, a.dmc.latch)
  }

  datatype RestPhase = RestPhase(triacc: int, noiseacc: int, tristep: nat, tcout: nat, nreg: nat) {
    predicate Ok() {
      tcout <= 45 && NoiseOk(nreg)
    }
  }

  function TriangleTurn(acc: int, period: nat, step: nat): (r: (int, nat))
    requires period > 0
    ensures r.0 > 0
    decreases -acc
  {
    if acc <= 0 then TriangleTurn(acc + period, period, (step + 1) % 0x20) else (acc, step)
  }

  function NoiseTurn(acc: int, period: nat, n: nat, short: bool): (r: (int, nat))
    requires period > 0 && NoiseOk(n)
    ensures r.0 > 0 && NoiseOk(r.1)
    decreases -acc
  {
    NoiseReversible(n, short);
    if acc <= 0 then NoiseTurn(acc + period, period, NoiseStep(n, short), short) else (acc, n)
  }

  /** One sample further: a channel with step zero stands still. */
  function AdvanceRest(c: Rest, p: RestPhase): (r: RestPhase)
    requires c.Ok() && p.Ok()
    ensures r.Ok()
  {
    var q :=
      if c.step0 == 0 || p.triacc - c.step0 > 0 then p.(triacc := p.triacc - c.step0)
      else
        var t := TriangleTurn(p.triacc - c.step0, c.period0, p.tristep);
        p.(triacc := t.0, tristep := t.1, tcout := Triangle(t.1));
    if c.step1 == 0 then q
    else
      var t := NoiseTurn(q.noiseacc - c.step1, c.period1, q.nreg, c.short);
      q.(noiseacc := t.0, nreg := t.1)
  }

  /** The index into the table of 203 entries. */
  function SumRest(c: Rest, p: RestPhase): (i: nat)
    requires c.Ok() && p.Ok()
    ensures i < 203
  {
    p.tcout + (if p.nreg / 0x4000 % 2 == 0 then c.amp else 0) + c.latch
  }

  function AfterRest(c: Rest, p: RestPhase, n: nat): (r: RestPhase)
    requires c.Ok() && p.Ok()
    ensures r.Ok()
  {
    if n == 0 then p else AdvanceRest(c, AfterRest(c, p, n - 1))
  }

  function SamplesRest(c: Rest, p: RestPhase, table: seq<int>, n: nat): (r: seq<int>)
    requires c.Ok() && p.Ok() && |table| == 203
    ensures |r| == n
  {
    if n == 0 then [] else SamplesRest(c, p, table, n - 1) + [table[SumRest(c, AfterRest(c, p, n - 1))]]
  }

  // ----- every reachable state -----

  /** The registers, and where the sample loops are. */
  datatype Sound = Sound(apu: Apu, acc0: int, acc1: int, triacc: int, noiseacc: int, tristep: nat, tcout: nat) {
    predicate Ok() {
      apu.Ok() && tcout <= 45
    }

    function SquarePhase(): Phase
      requires apu.Ok()
    {
      Phase(acc0, acc1, apu.sq0.duty, apu.sq1.duty)
    }

    function OtherPhase(): RestPhase {
      RestPhase(triacc, noiseacc, tristep, tcout, apu.nreg)
    }
  }

  /** Anything that can happen, in any order; the last two are the sample loops. */
  datatype Event =
    | PsgEvent(k: nat, v: Byte, swapDuty: bool)
    | StatusEvent(v: Byte)
    | DmcEvent(k: nat, v: Byte, pal: bool)
    | FrameEvent(n: nat)
    | HookEvent(cycles: int, fetched: bool, byte: Byte)
    | ResetEvent(acc: int, keep: bool)
    | SquaresEvent(samples: nat, nesincsize: nat, volume1: nat, volume2: nat)
    | RestEvent(samples: nat, nesincsize: nat, volume: nat, pal: bool)

  /** Volumes go up to 256. */
  predicate EventOk(e: Event) {
    && (e.PsgEvent? ==> e.k < 16) && (e.SquaresEvent? ==> e.volume1 <= 256 && e.volume2 <= 256) && (e.RestEvent? ==> e.volume <= 256)
  }

  predicate EventsOk(es: seq<Event>) {
    forall i :: 0 <= i < |es| ==> EventOk(es[i])
  }

  /**
   `FCEUSND_Reset`, the console's button: the square registers and the envelopes keep what they hold, and
   so do the sweep's counts and the triangle's level.  A film that is being played can keep the position
   in the delta sample.
   */
  function Reset(a: Apu, keep: bool): (r: Apu)
    requires a.Ok()
    ensures r.Ok()
  {
    a.(enabled := 0, sq0 := a.sq0.(freq := 0, length := 0, sweepOn := false), sq1 := a.sq1.(freq := 0, length := 0, sweepOn := false),
       triCount := 0, triMode := false, triLength := 0, noiseLength := 0, nreg := 1,
       dmc := a.dmc.(latch := 0, acc := if keep then a.dmc.acc else 1, bitCount := if keep then a.dmc.bitCount else 0,
                     shift := 0, haveSample := false, haveDma := false))
  }

  function Step(s: Sound, e: Event): (r: Sound)
    requires s.Ok() && EventOk(e)
    ensures r.Ok()
  {
    match e
    case PsgEvent(k, v, swapDuty) => s.(apu := WritePsg(s.apu, k, v, swapDuty))
    case StatusEvent(v) => s.(apu := WriteStatus(s.apu, v))
    case DmcEvent(k, v, pal) => s.(apu := WriteDmc(s.apu, k, v, pal))
    case FrameEvent(n) => s.(apu := Frame(s.apu, n))
    case HookEvent(cycles, fetched, byte) => s.(apu := Hook(s.apu, cycles, fetched, byte))
    case ResetEvent(acc, keep) => s.(apu := Reset(s.apu, keep), acc0 := acc, acc1 := acc, tristep := 0)
    case SquaresEvent(n, nesincsize, volume1, volume2) => SquaresMixed(s, n, nesincsize, volume1, volume2)
    case RestEvent(n, nesincsize, volume, pal) => RestMixed(s, n, nesincsize, volume, pal)
  }

  function SquaresMixed(s: Sound, n: nat, nesincsize: nat, volume1: nat, volume2: nat): (r: Sound)
    requires s.Ok() && volume1 <= 256 && volume2 <= 256
    ensures r.Ok()
  {
    var p := After(Setup(s.apu, nesincsize, volume1, volume2), s.SquarePhase(), n);
    s.(apu := s.apu.(sq0 := s.apu.sq0.(duty := p.duty0), sq1 := s.apu.sq1.(duty := p.duty1)), acc0 := p.acc0, acc1 := p.acc1)
  }

  function RestMixed(s: Sound, n: nat, nesincsize: nat, volume: nat, pal: bool): (r: Sound)
    requires s.Ok() && volume <= 256
    ensures r.Ok()
  {
    var p := AfterRest(SetupRest(s.apu, nesincsize, volume, pal), s.OtherPhase(), n);
    s.(apu := s.apu.(nreg := p.nreg), triacc := p.triacc, noiseacc := p.noiseacc, tristep := p.tristep, tcout := p.tcout)
  }

  function Run(s: Sound, es: seq<Event>): (r: Sound)
    requires s.Ok() && EventsOk(es)
    ensures r.Ok()
    decreases |es|
  {
    if es == [] then s else Run(Step(s, es[0]), es[1..])
  }

  /** After `FCEUSND_Power`; `acc` is where the square counters start. */
  function Start(duty0: nat, duty1: nat, pal: bool, acc: int): (s: Sound)
    requires duty0 < 8 && duty1 < 8
    ensures s.Ok()
  {
    Sound(PowerOn(duty0, duty1, pal), acc, acc, 0, 0, 0, 0)
  }

  /**
   In every state after power-on, whatever is written, reset and mixed in between, the registers are in
   range, the noise register is not zero, and both sums of the mixer are inside the tables, for volumes up
   to 256.
   */
  lemma ReachableInRange(duty0: nat, duty1: nat, pal: bool, acc: int, es: seq<Event>, nesincsize: nat, volume1: nat, volume2: nat, volume3: nat)
    requires duty0 < 8 && duty1 < 8 && EventsOk(es)
    requires volume1 <= 256 && volume2 <= 256 && volume3 <= 256
    ensures var s := Run(Start(duty0, duty1, pal, acc), es);
            var a := s.apu;
            && 0 <= a.sq0.freq <= 0x7FF && 0 <= a.sq1.freq <= 0x7FF
            && a.sq0.env.decVolume <= 15 && a.sq1.env.decVolume <= 15 && a.noiseEnv.decVolume <= 15
            && a.sq0.length >= 0 && a.sq1.length >= 0 && a.triLength >= 0 && a.noiseLength >= 0
            && a.dmc.latch <= 127 && 0 < a.nreg < 0x8000 && s.tcout <= 45
            && Sum(Setup(a, nesincsize, volume1, volume2), s.SquarePhase()) < 32
            && SumRest(SetupRest(a, nesincsize, volume3, pal), s.OtherPhase()) < 203
  {
    hide Step, Setup, SetupRest, Sum, SumRest, Run;
    var s := Run(Start(duty0, duty1, pal, acc), es);
    assert s.Ok() && s.SquarePhase().Ok() && s.OtherPhase().Ok();
  }

  // ----- the bound of 203 is reached -----

  /** A triangle that runs alone: its counter, and how often it has turned. */
  lemma {:induction false} TriangleRuns(c: Rest, p: RestPhase, n: nat) returns (turns: nat)
    requires c.Ok() && p.Ok() && c.step1 == 0 && c.step0 > 0 && p.triacc <= c.period0 && p.tristep < 32
    ensures TriangleAt(c, p, AfterRest(c, p, n), n, turns)
  {
    if n == 0 {
      turns := 0;
    } else {
      var before := TriangleRuns(c, p, n - 1);
      var q := AfterRest(c, p, n - 1);
      assert AfterRest(c, p, n) == AdvanceRest(c, q);
      hide AfterRest;
      var more := TriangleMoves(c, p, q, n - 1, before);
      turns := before + more;
    }
  }

  predicate TriangleAt(c: Rest, p: RestPhase, r: RestPhase, n: nat, turns: nat) {
    && r.triacc == p.triacc - n * c.step0 + turns * c.period0 && r.triacc <= c.period0 && (n > 0 ==> r.triacc > 0)
    && r.tristep == (p.tristep + turns) % 32 && r.nreg == p.nreg && (turns > 0 ==> r.tcout == Triangle(r.tristep))
  }

  lemma TriangleMoves(c: Rest, p: RestPhase, q: RestPhase, n: nat, before: nat) returns (more: nat)
    requires c.Ok() && p.Ok() && q.Ok() && c.step1 == 0 && c.step0 > 0 && TriangleAt(c, p, q, n, before)
    ensures TriangleAt(c, p, AdvanceRest(c, q), n + 1, before + more)
  {
    hide TriangleTurn, Triangle;
    more := TurnsUp(q.triacc - c.step0, c.period0, q.tristep);
    TurnsAdd(before, more, c.period0, p.tristep);
    QuotientBefore(n + 1, c.step0);
  }

  lemma TurnsAdd(before: nat, more: nat, period: nat, step: nat)
    ensures (before + more) * period == before * period + more * period
    ensures ((step + before) % 32 + more) % 32 == (step + (before + more)) % 32
  {
  }

  lemma StepsAdd(step: nat, more: nat)
    ensures ((step + 1) % 32 + more) % 32 == (step + (more + 1)) % 32
  {
  }

  lemma {:induction false} TurnsUp(acc: int, period: nat, step: nat) returns (turns: nat)
    requires period > 0 && acc <= period && step < 32
    ensures var t := TriangleTurn(acc, period, step);
            t.0 == acc + turns * period && 0 < t.0 <= period && t.1 == (step + turns) % 32 && (acc > 0 <==> turns == 0)
    decreases -acc
  {
    if acc > 0 {
      turns := 0;
    } else {
      assert TriangleTurn(acc, period, step) == TriangleTurn(acc + period, period, (step + 1) % 32);
      hide *;
      var more := TurnsUp(acc + period, period, (step + 1) % 32);
      turns := more + 1;
      OneMorePeriod(acc, period, more);
      StepsAdd(step, more);
    }
  }

  lemma OneMorePeriod(acc: int, period: int, more: int)
    ensures acc + period + more * period == acc + (more + 1) * period
  {
  }

  /** Everything on, and the triangle set up to be loud. */
  function EnableTriangle(): (es: seq<Event>)
    ensures EventsOk(es)
  {
    [StatusEvent(0x1F), PsgEvent(8, 0x7F, false), PsgEvent(0xA, 10, false)]
  }

  /** The triangle is started and mixed until it is at its highest step. */
  function PlayTriangle(): (es: seq<Event>)
    ensures EventsOk(es)
  {
    [PsgEvent(0xB, 0, false), FrameEvent(1), RestEvent(131, 332467, 256, false)]
  }

  /** Noise at full volume, and the delta level at its highest. */
  function AddNoise(): (es: seq<Event>)
    ensures EventsOk(es)
  {
    [PsgEvent(0xC, 0x1F, false), PsgEvent(0xF, 0, false), DmcEvent(1, 0x7F, false)]
  }

  lemma {:induction false} RunAppend(s: Sound, es: seq<Event>, fs: seq<Event>)
    requires s.Ok() && EventsOk(es) && EventsOk(fs)
    ensures EventsOk(es + fs) && Run(s, es + fs) == Run(Run(s, es), fs)
    decreases |es|
  {
    hide Step, EventOk;
    if es == [] {
      assert es + fs == fs;
    } else {
      assert (es + fs)[1..] == es[1..] + fs;
      RunAppend(Step(s, es[0]), es[1..], fs);
    }
  }

  lemma RunOne(s: Sound, a: Event)
    requires s.Ok() && EventOk(a)
    ensures EventsOk([a]) && Run(s, [a]) == Step(s, a)
  {
    hide Step, EventOk, Sound.Ok;
    assert [a][1..] == [];
    RunNothing(Step(s, a));
  }

  lemma RunThree(s: Sound, a: Event, b: Event, c: Event)
    requires s.Ok() && EventOk(a) && EventOk(b) && EventOk(c)
    ensures EventsOk([a, b, c]) && Run(s, [a, b, c]) == Step(Step(Step(s, a), b), c)
  {
    hide Run, Step, EventOk, Sound.Ok;
    RunOne(s, a);
    RunOne(Step(s, a), b);
    RunOne(Step(Step(s, a), b), c);
    RunAppend(s, [a], [b]);
    RunAppend(s, [a] + [b], [c]);
    assert [a] + [b] + [c] == [a, b, c];
  }

  lemma RunNothing(s: Sound)
    requires s.Ok()
    ensures Run(s, []) == s
  {
  }

  lemma TriangleEnabled(s: Sound)
    requires s == Start(0, 0, false, 1)
    ensures var r := Run(s, EnableTriangle());
            && r.apu.enabled == 0x1F && r.apu.psg[8] == 0x7F && r.apu.psg[0xA] == 10 && r.apu.noiseLength == 0
            && r.OtherPhase() == RestPhase(0, 0, 0, 0, 1)
  {
    RunThree(s, StatusEvent(0x1F), PsgEvent(8, 0x7F, false), PsgEvent(0xA, 10, false));
    hide Run;
  }

  /** At 44100 samples a second, 131 samples turn the triangle 31 times. */
  lemma TrianglePlayed(s: Sound)
    requires s.Ok() && s.apu.enabled == 0x1F && s.apu.psg[8] == 0x7F && s.apu.psg[0xA] == 10 && s.apu.noiseLength == 0
    requires s.OtherPhase() == RestPhase(0, 0, 0, 0, 1)
    ensures var r := Run(s, PlayTriangle()); r.tcout == 45 && r.apu.enabled == 0x1F && r.apu.nreg == 1
  {
    hide Run, Step;
    RunThree(s, PsgEvent(0xB, 0, false), FrameEvent(1), RestEvent(131, 332467, 256, false));
    TriangleReady(s);
    TriangleTop(Step(Step(s, PsgEvent(0xB, 0, false)), FrameEvent(1)));
  }

  lemma TriangleReady(s: Sound)
    requires s.Ok() && s.apu.enabled == 0x1F && s.apu.psg[8] == 0x7F && s.apu.psg[0xA] == 10 && s.apu.noiseLength == 0
    requires s.OtherPhase() == RestPhase(0, 0, 0, 0, 1)
    ensures var r := Step(Step(s, PsgEvent(0xB, 0, false)), FrameEvent(1));
            && r.apu.triLength == 10 && r.apu.triCount == 0x7F && r.apu.noiseLength == 0 && r.apu.psg[0xA] == 10 && r.apu.psg[0xB] == 0
            && r.apu.enabled == 0x1F && r.OtherPhase() == RestPhase(0, 0, 0, 0, 1)
  {
    TriangleLoaded(s.apu);
    TriangleFramed(WritePsg(s.apu, 0xB, 0, false));
    hide WritePsg, Frame, Apu.Ok;
  }

  lemma TriangleLoaded(a: Apu)
    requires a.Ok() && a.enabled == 0x1F && a.psg[8] == 0x7F && a.psg[0xA] == 10 && a.noiseLength == 0
    ensures var r := WritePsg(a, 0xB, 0, false);
            && r.triLength == 10 && r.triMode && r.psg[8] == 0x7F && r.psg[0xA] == 10 && r.psg[0xB] == 0
            && r.noiseLength == 0 && r.enabled == 0x1F && r.nreg == a.nreg
  {
  }

  lemma TriangleFramed(a: Apu)
    requires a.Ok() && a.triMode && a.psg[8] == 0x7F
    ensures var r := Frame(a, 1);
            && r.triCount == 0x7F && r.triLength == a.triLength && r.noiseLength == a.noiseLength
            && r.psg == a.psg && r.enabled == a.enabled && r.nreg == a.nreg
  {
    hide Env.Clock;
  }

  lemma TriangleTop(s: Sound)
    requires s.Ok() && s.apu.triLength == 10 && s.apu.triCount == 0x7F && s.apu.noiseLength == 0 && s.apu.psg[0xA] == 10 && s.apu.psg[0xB] == 0
    requires s.OtherPhase() == RestPhase(0, 0, 0, 0, 1)
    ensures var r := Step(s, RestEvent(131, 332467, 256, false));
            r.tcout == 45 && r.apu == s.apu
  {
    hide AfterRest, Triangle;
    var c := SetupRest(s.apu, 332467, 256, false);
    assert c.period0 == 1441792 && c.step0 == 332467 && c.step1 == 0;
    var turns := TriangleRuns(c, s.OtherPhase(), 131);
    assert turns == 31;
    TriangleHighest();
  }

  lemma TriangleHighest()
    ensures Triangle(31) == 45
  {
  }

  lemma NoiseAndDelta(s: Sound)
    requires s.Ok() && s.tcout == 45 && s.apu.enabled == 0x1F && s.apu.nreg == 1
    ensures var r := Run(s, AddNoise()); SumRest(SetupRest(r.apu, 1, 256, false), r.OtherPhase()) == 202
  {
    RunThree(s, PsgEvent(0xC, 0x1F, false), PsgEvent(0xF, 0, false), DmcEvent(1, 0x7F, false));
    NoiseAdded(s.apu);
    hide Run, WritePsg, WriteDmc, SumRest, SetupRest, Apu.Ok;
    var r := Run(s, AddNoise());
    LoudSum(r.apu, r.OtherPhase());
  }

  lemma NoiseAdded(a: Apu)
    requires a.Ok() && a.enabled == 0x1F && a.nreg == 1
    ensures var r := WriteDmc(WritePsg(WritePsg(a, 0xC, 0x1F, false), 0xF, 0, false), 1, 0x7F, false);
            r.noiseLength == 10 && r.noiseEnv.speed == 15 && r.noiseEnv.mode == 1 && r.dmc.latch == 0x7F && r.nreg == 1
  {
    hide Square.Ok;
  }

  lemma LoudSum(a: Apu, q: RestPhase)
    requires a.Ok() && q.Ok() && a.noiseLength == 10 && a.noiseEnv.speed == 15 && a.noiseEnv.mode == 1 && a.dmc.latch == 0x7F
    requires q.tcout == 45 && q.nreg == 1
    ensures SumRest(SetupRest(a, 1, 256, false), q) == 202
  {
    hide NoisePeriod, Square.Ok;
  }

  /** The bound is the best one: a run of the program reaches the last entry of the table of 203. */
  lemma LargestSum()
    ensures var es := EnableTriangle() + PlayTriangle() + AddNoise();
            EventsOk(es)
            && var s := Run(Start(0, 0, false, 1), es); SumRest(SetupRest(s.apu, 1, 256, false), s.OtherPhase()) == 202
  {
    hide Run, Start, EnableTriangle, PlayTriangle, AddNoise, EventsOk, SumRest, SetupRest;
    var s := Start(0, 0, false, 1);
    RunAppend(s, EnableTriangle(), PlayTriangle());
    RunAppend(s, EnableTriangle() + PlayTriangle(), AddNoise());
    TriangleEnabled(s);
    TrianglePlayed(Run(s, EnableTriangle()));
    NoiseAndDelta(Run(Run(s, EnableTriangle()), PlayTriangle()));
  }

  // ----- the program -----

  const WAVE: nat := 2048 + 512

  /** The wave, the tables and the counters of the low-quality mixer. */
  class Mixer {
    const Wave: array<int>
    const wlookup1: array<int>
    const wlookup2: array<int>
    var apu: Apu
    var sqacc0: int
    var sqacc1: int
    var triacc: int
    var noiseacc: int
    var tristep: nat
    var tcout: nat

    ghost predicate Valid()
      reads this
    {
      && Wave.Length == WAVE && wlookup1.Length == 32 && wlookup2.Length == 203 && Wave != wlookup1 && Wave != wlookup2
      && apu.Ok() && tcout <= 45
    }

    /** The positions of the two square channels. */
    ghost function Now(): Phase
      reads this
      requires apu.Ok()
    {
      Phase(sqacc0, sqacc1, apu.sq0.duty, apu.sq1.duty)
    }

    ghost function NowRest(): RestPhase
      reads this
    {
      RestPhase(triacc, noiseacc, tristep, tcout, apu.nreg)
    }

    constructor (duty0: nat, duty1: nat, pal: bool)
      requires duty0 < 8 && duty1 < 8
      ensures Valid() && apu == PowerOn(duty0, duty1, pal) && fresh(Wave) && fresh(wlookup1) && fresh(wlookup2)
    {
      Wave := new int[WAVE](_ => 0);
      wlookup1 := new int[32](_ => 0);
      wlookup2 := new int[203](_ => 0);
      apu := PowerOn(duty0, duty1, pal);
      sqacc0, sqacc1, triacc, noiseacc, tristep, tcout := 1, 1, 0, 0, 0, 0;
    }

    /** The tables of `SetSoundVariables` for low quality: the sum is compressed. */
    method FillTables()
      requires Valid()
      modifies wlookup1, wlookup2
      ensures forall x :: 0 <= x < 32 ==> wlookup1[x] == (if x == 0 then 0 else 1565000 * x / (8128 + 100 * x) / 16)
      ensures forall x :: 0 <= x < 203 ==> wlookup2[x] == (if x == 0 then 0 else 2681569 * x / (24329 + 100 * x) / 16)
    {
      wlookup1[0] := 0;
      var x := 1;
      while x < 32
        invariant 1 <= x <= 32
        invariant forall k :: 0 <= k < x ==> wlookup1[k] == (if k == 0 then 0 else 1565000 * k / (8128 + 100 * k) / 16)
      {
        wlookup1[x] := 1565000 * x / (8128 + 100 * x);
        wlookup1[x] := wlookup1[x] / 16;
        x := x + 1;
      }
      wlookup2[0] := 0;
      x := 1;
      while x < 203
        invariant 1 <= x <= 203
        invariant forall k :: 0 <= k < x ==> wlookup2[k] == (if k == 0 then 0 else 2681569 * k / (24329 + 100 * k) / 16)
        invariant wlookup1 != wlookup2 ==> forall k :: 0 <= k < 32 ==> wlookup1[k] == (if k == 0 then 0 else 1565000 * k / (8128 + 100 * k) / 16)
      {
        wlookup2[x] := 2681569 * x / (24329 + 100 * x);
        wlookup2[x] := wlookup2[x] / 16;
        x := x + 1;
      }
    }

    /** The loop `rea`: the counter is filled up again. */
    static method Refill(acc: int, period: nat, duty: nat) returns (acc': int, duty': nat)
      requires period > 0 && duty < 8
      ensures (acc', duty') == Turn(acc, period, duty)
    {
      acc', duty' := acc, duty;
      while acc' <= 0
        invariant duty' < 8 && Turn(acc', period, duty') == Turn(acc, period, duty)
        decreases -acc'
      {
        acc', duty' := acc' + period, (duty' + 1) % 8;
      }
    }

    /** `RDoSQLQ`, for the samples from `start` to `end`. */
    method SquaresLq(start: nat, end: nat, nesincsize: nat, volume1: nat, volume2: nat)
      requires Valid() && start <= end <= 16 * WAVE && volume1 <= 256 && volume2 <= 256
      modifies this, Wave
      ensures Valid()
      ensures var c := Setup(old(apu), nesincsize, volume1, volume2);
              var p := old(Now());
              && Wave[..] == Mixed(old(Wave[..]), start, Samples(c, p, wlookup1[..], end - start))
              && Now() == After(c, p, end - start)
              && apu == old(apu).(sq0 := old(apu).sq0.(duty := apu.sq0.duty), sq1 := old(apu).sq1.(duty := apu.sq1.duty))
    {
      var c := Setup(apu, nesincsize, volume1, volume2);
      var acc0, acc1, duty0: nat, duty1: nat := sqacc0, sqacc1, apu.sq0.duty, apu.sq1.duty;
      ghost var p := Phase(acc0, acc1, duty0, duty1);
      acc0, acc1, duty0, duty1 := MixSquares(c, start, end, acc0, acc1, duty0, duty1);
      sqacc0, sqacc1 := acc0, acc1;
      apu := apu.(sq0 := apu.sq0.(duty := duty0), sq1 := apu.sq1.(duty := duty1));
    }

    /** The loop over the samples. */
    method MixSquares(c: Squares, start: nat, end: nat, acc0: int, acc1: int, duty0: nat, duty1: nat)
      returns (a0: int, a1: int, d0: nat, d1: nat)
      requires Valid() && c.Ok() && duty0 < 8 && duty1 < 8 && start <= end <= 16 * WAVE
      modifies Wave
      ensures var p := Phase(acc0, acc1, duty0, duty1);
              Wave[..] == Mixed(old(Wave[..]), start, Samples(c, p, wlookup1[..], end - start))
              && Phase(a0, a1, d0, d1) == After(c, p, end - start)
    {
      hide Turn, Mixed, Sum;
      a0, a1, d0, d1 := acc0, acc1, duty0, duty1;
      ghost var p, table, before := Phase(acc0, acc1, duty0, duty1), wlookup1[..], Wave[..];
      var v := start;
      MixedNothing(before, start);
      while v < end
        invariant start <= v <= end && d0 < 8 && d1 < 8 && wlookup1[..] == table
        invariant Phase(a0, a1, d0, d1) == After(c, p, v - start)
        invariant Wave[..] == Mixed(before, start, Samples(c, p, table, v - start))
      {
        SumIs(c, Phase(a0, a1, d0, d1));
        var totalout := wlookup1[(if d0 < c.on0 then c.amp0 else 0) + (if d1 < c.on1 then c.amp1 else 0)];
        MixedOne(before, start, Samples(c, p, table, v - start), totalout);
        Wave[v / 16] := Wave[v / 16] + totalout;
        if c.step0 != 0 || c.step1 != 0 {
          a0, a1 := a0 - c.step0, a1 - c.step1;
          a0, d0 := Refill(a0, c.period0, d0);
          a1, d1 := Refill(a1, c.period1, d1);
        }
        v := v + 1;
      }
    }

    /** `RDoTriangleNoisePCMLQ`; its four loops differ in which of the two channels stand still. */
    method RestLq(start: nat, end: nat, nesincsize: nat, volume: nat, pal: bool)
      requires Valid() && start <= end <= 16 * WAVE && volume <= 256
      modifies this, Wave
      ensures Valid()
      ensures var c := SetupRest(old(apu), nesincsize, volume, pal);
              var p := old(NowRest());
              && Wave[..] == Mixed(old(Wave[..]), start, SamplesRest(c, p, wlookup2[..], end - start))
              && NowRest() == AfterRest(c, p, end - start)
              && apu == old(apu).(nreg := apu.nreg)
    {
      hide TriangleTurn, NoiseTurn, Mixed, SumRest, SetupRest, Triangle;
      var c := SetupRest(apu, nesincsize, volume, pal);
      ghost var p, table, before, regs := NowRest(), wlookup2[..], Wave[..], apu;
      var v := start;
      MixedNothing(before, start);
      while v < end
        invariant start <= v <= end && Valid() && wlookup2[..] == table && apu == regs.(nreg := apu.nreg)
        invariant NowRest() == AfterRest(c, p, v - start)
        invariant Wave[..] == Mixed(before, start, SamplesRest(c, p, table, v - start))
      {
        SumRestIs(c, NowRest());
        var totalout := wlookup2[tcout + (if apu.nreg / 0x4000 % 2 == 0 then c.amp else 0) + c.latch];
        MixedOne(before, start, SamplesRest(c, p, table, v - start), totalout);
        Wave[v / 16] := Wave[v / 16] + totalout;
        StepRest(c);
        v := v + 1;
      }
    }

    /** One sample of the triangle and the noise. */
    method StepRest(c: Rest)
      requires Valid() && c.Ok()
      modifies this`triacc, this`noiseacc, this`tristep, this`tcout, this`apu
      ensures Valid() && NowRest() == AdvanceRest(c, old(NowRest())) && apu == old(apu).(nreg := apu.nreg)
    {
      hide TriangleTurn, NoiseTurn, Triangle;
      if c.step0 != 0 {
        triacc := triacc - c.step0;
        if triacc <= 0 {
          triacc, tristep := RefillTriangle(triacc, c.period0, tristep);
          tcout := TriangleLevel(tristep);
        }
      }
      if c.step1 != 0 {
        noiseacc := noiseacc - c.step1;
        var n: nat;
        noiseacc, n := RefillNoise(noiseacc, c.period1, apu.nreg, c.short);
        apu := apu.(nreg := n);
      }
    }

    /** The level from the step, as the loops compute it. */
    static method TriangleLevel(step: nat) returns (level: nat)
      ensures level == Triangle(step)
    {
      level := step % 16;
      if step / 16 % 2 == 0 {
        level := 15 - level;
      }
      level := level * 3;
    }

    static method RefillTriangle(acc: int, period: nat, step: nat) returns (acc': int, step': nat)
      requires period > 0
      ensures (acc', step') == TriangleTurn(acc, period, step)
    {
      acc', step' := acc, step;
      while acc' <= 0
        invariant TriangleTurn(acc', period, step') == TriangleTurn(acc, period, step)
        decreases -acc'
      {
        acc', step' := acc' + period, (step' + 1) % 0x20;
      }
    }

    static method RefillNoise(acc: int, period: nat, n: nat, short: bool) returns (acc': int, n': nat)
      requires period > 0 && NoiseOk(n)
      ensures (acc', n') == NoiseTurn(acc, period, n, short)
    {
      acc', n' := acc, n;
      while acc' <= 0
        invariant NoiseOk(n') && NoiseTurn(acc', period, n', short) == NoiseTurn(acc, period, n, short)
        decreases -acc'
      {
        NoiseReversible(n', short);
        acc', n' := acc' + period, NoiseStep(n', short);
      }
    }
  }

  lemma MixedNothing(wave: seq<int>, start: nat)
    requires start <= 16 * |wave|
    ensures Mixed(wave, start, []) == wave
  {
  }

  lemma MixedOne(wave: seq<int>, start: nat, samples: seq<int>, x: int)
    requires start + |samples| < 16 * |wave|
    ensures var w, k := Mixed(wave, start, samples), (start + |samples|) / 16;
            k < |w| && Mixed(wave, start, samples + [x]) == w[k := w[k] + x]
  {
    assert (samples + [x])[..|samples|] == samples;
    EntryInside(start + |samples|, |wave|);
  }

  lemma EntryInside(n: nat, entries: nat)
    requires n < 16 * entries
    ensures n / 16 < entries
  {
  }

  lemma SumIs(c: Squares, p: Phase)
    requires c.Ok() && p.Ok()
    ensures Sum(c, p) == (if p.duty0 < c.on0 then c.amp0 else 0) + (if p.duty1 < c.on1 then c.amp1 else 0) <= 30
  {
  }

  lemma SumRestIs(c: Rest, p: RestPhase)
    requires c.Ok() && p.Ok()
    ensures SumRest(c, p) == p.tcout + (if p.nreg / 0x4000 % 2 == 0 then c.amp else 0) + c.latch < 203
  {
  }
}
