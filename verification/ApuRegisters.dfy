/**
 What the registers of the sound processor mean (fceux-am/src/sound.cpp, lines 182-348, 370-455 and
 640-736), for whole runs: the last byte written to a register decides, and between writes the channels
 move by their own rules.
 */
module ApuRegisters {
  import opened Bits
  import opened Apu

  // ----- the last byte written -----

  /** What register `k` holds after an event, if it held `b` before. */
  function WrittenTo(e: Event, k: nat, b: Byte): Byte {
    if e.PsgEvent? && e.k == k then (if e.swapDuty && (k == 0 || k == 4) then SwapDuty(e.v) else e.v) else b
  }

  /** The last byte written to register `k`, or `b` if there is none. */
  function LastWritten(es: seq<Event>, k: nat, b: Byte): Byte
    decreases |es|
  {
    if es == [] then b else LastWritten(es[1..], k, WrittenTo(es[0], k, b))
  }

  /** Exchanging the duty bits leaves the other six alone. */
  lemma DutySwapped(v: Byte)
    ensures SwapDuty(v) % 0x40 == v % 0x40 && SwapDuty(v) / 0x80 == v / 0x40 % 2 && SwapDuty(v) / 0x40 % 2 == v / 0x80
  {
    var low, b6, b7 := v % 0x40, v / 0x40 % 2, v / 0x80;
    DivModUnique(low + b7 * 0x40 + b6 * 0x80, 0x40, b7 + 2 * b6, low);
    DivModUnique(low + b7 * 0x40 + b6 * 0x80, 0x80, b6, low + b7 * 0x40);
    DivModUnique(b7 + 2 * b6, 2, b6, b7);
  }

  function Channel(a: Apu, p: nat): Square
    requires p < 2
  {
    if p == 0 then a.sq0 else a.sq1
  }

  /** The registers, and speed and mode of the envelopes, as far as they come from the registers. */
  ghost predicate Follows(a: Apu, psg: nat -> Byte) {
    && |a.psg| == 16 && (forall k: nat :: k < 16 ==> a.psg[k] == psg(k))
    && (forall p: nat :: p < 2 ==> Channel(a, p).env.speed == psg(4 * p) % 16 && Channel(a, p).env.mode == psg(4 * p) / 16 % 4)
    && a.noiseEnv.speed == psg(0xC) % 16 && a.noiseEnv.mode == psg(0xC) / 16 % 4
  }

  lemma StepFollows(s: Sound, e: Event, psg: nat -> Byte)
    requires s.Ok() && EventOk(e) && Follows(s.apu, psg)
    ensures Follows(Step(s, e).apu, k => WrittenTo(e, k, psg(k)))
  {
    match e {
      case PsgEvent(k, v, swapDuty) => PsgFollows(s.apu, k, v, swapDuty, psg);
      case FrameEvent(n) =>
        hide Frame;
        FrameFollows(s.apu, n, psg);
      case _ =>
        hide Step;
        OthersKeep(s, e);
    }
  }

  /** Nothing but a register write or a frame touches registers and envelopes. */
  lemma OthersKeep(s: Sound, e: Event)
    requires s.Ok() && EventOk(e) && !e.PsgEvent? && !e.FrameEvent?
    ensures var a, b := s.apu, Step(s, e).apu;
            b.psg == a.psg && b.sq0.env == a.sq0.env && b.sq1.env == a.sq1.env && b.noiseEnv == a.noiseEnv
  {
    hide Setup, SetupRest, After, AfterRest, Dmc.Catch, DmcPeriod, Phase.Ok, Square.Ok, Dmc.Ok;
  }

  lemma PsgFollows(a: Apu, k: nat, v: Byte, swapDuty: bool, psg: nat -> Byte)
    requires a.Ok() && k < 16 && Follows(a, psg)
    ensures Follows(WritePsg(a, k, v, swapDuty), j => WrittenTo(PsgEvent(k, v, swapDuty), j, psg(j)))
  {
    hide LengthOf, SwapDuty, Square.Ok;
    DutySwapped(v);
    LowSix(v);
    LowSix(SwapDuty(v));
  }

  /** Speed and mode are among the lower six bits. */
  lemma LowSix(v: Byte)
    ensures v % 16 == v % 0x40 % 16 && v / 16 % 4 == v % 0x40 / 16
  {
    var q, u := v / 0x40, v % 0x40;
    DivModUnique(v, 16, 4 * q + u / 16, u % 16);
    DivModUnique(4 * q + u / 16, 4, q, u / 16);
  }

  lemma FrameFollows(a: Apu, n: nat, psg: nat -> Byte)
    requires a.Ok() && Follows(a, psg)
    ensures Follows(Frame(a, n), psg)
  {
    hide Square.Sweep, Square.CountLength, Env.Clock;
    ClockKeeps(a.noiseEnv);
    ClockKeeps(a.sq0.env);
    ClockKeeps(a.sq1.env);
    SweepKeeps(a.sq0.CountLength(a.psg[0]), 0, a.psg[1]);
    SweepKeeps(a.sq1.CountLength(a.psg[4]), 1, a.psg[5]);
    CountKeeps(a.sq0, a.psg[0]);
    CountKeeps(a.sq1, a.psg[4]);
  }

  lemma ClockKeeps(e: Env)
    requires e.Ok()
    ensures e.Clock().speed == e.speed && e.Clock().mode == e.mode
  {
  }

  lemma SweepKeeps(s: Square, p: nat, r: Byte)
    requires s.Ok() && p < 2
    ensures s.Sweep(p, r).env == s.env && s.Sweep(p, r).length == s.length
  {
    hide Shr;
  }

  lemma CountKeeps(s: Square, r: Byte)
    requires s.Ok()
    ensures s.CountLength(r).env == s.env && s.CountLength(r).freq == s.freq
  {
  }

  lemma {:induction false} RunFollows(s: Sound, es: seq<Event>, psg: nat -> Byte)
    requires s.Ok() && EventsOk(es) && Follows(s.apu, psg)
    ensures Follows(Run(s, es).apu, k => LastWritten(es, k, psg(k)))
    decreases |es|
  {
    hide Step, EventOk, Sound.Ok, WrittenTo;
    if es != [] {
      StepFollows(s, es[0], psg);
      RunFollows(Step(s, es[0]), es[1..], k => WrittenTo(es[0], k, psg(k)));
      hide Channel;
    }
  }

  /**
   From power-on, whatever happens: a register holds what was last written to it, and volume, speed and
   loop of each envelope are those of the last byte written to its register.
   */
  lemma RegistersHold(duty0: nat, duty1: nat, pal: bool, acc: int, es: seq<Event>, k: nat)
    requires duty0 < 8 && duty1 < 8 && EventsOk(es) && k < 16
    ensures var a, w := Run(Start(duty0, duty1, pal, acc), es).apu, LastWritten(es, k, 0);
            && a.psg[k] == w
            && (k == 0 ==> a.sq0.env.speed == w % 16 && a.sq0.env.mode == w / 16 % 4)
            && (k == 4 ==> a.sq1.env.speed == w % 16 && a.sq1.env.mode == w / 16 % 4)
            && (k == 0xC ==> a.noiseEnv.speed == w % 16 && a.noiseEnv.mode == w / 16 % 4)
  {
    hide Run, LastWritten;
    var s := Start(duty0, duty1, pal, acc);
    RunFollows(s, es, j => 0);
    var a := Run(s, es).apu;
    assert Channel(a, 0) == a.sq0 && Channel(a, 1) == a.sq1;
  }

  // ----- frequencies -----

  /** Nothing that sweeps or clears frequencies. */
  predicate Steady(es: seq<Event>) {
    forall i :: 0 <= i < |es| ==> !es[i].FrameEvent? && !es[i].ResetEvent?
  }

  predicate HasFrequency(a: Apu, p: nat, sweep: Byte, low: Byte, high: Byte)
    requires p < 2
  {
    Channel(a, p).freq == low + 0x100 * (high % 8) && (Channel(a, p).sweepOn <==> sweep >= 0x80)
  }

  lemma StepFrequency(s: Sound, e: Event, p: nat, sweep: Byte, low: Byte, high: Byte)
    requires s.Ok() && EventOk(e) && p < 2 && !e.FrameEvent? && !e.ResetEvent? && HasFrequency(s.apu, p, sweep, low, high)
    ensures HasFrequency(Step(s, e).apu, p, WrittenTo(e, 4 * p + 1, sweep), WrittenTo(e, 4 * p + 2, low), WrittenTo(e, 4 * p + 3, high))
  {
    hide SetupRest, Setup, After, AfterRest, Dmc.Catch, DmcPeriod, LengthOf, SwapDuty;
    SplitFrequency(low, high);
  }

  lemma SplitFrequency(low: Byte, high: Byte)
    ensures (low + 0x100 * (high % 8)) % 0x100 == low && (low + 0x100 * (high % 8)) / 0x100 % 0x100 == high % 8
  {
    DivModUnique(low + 0x100 * (high % 8), 0x100, high % 8, low);
  }

  lemma {:induction false} RunFrequency(s: Sound, es: seq<Event>, p: nat, sweep: Byte, low: Byte, high: Byte)
    requires s.Ok() && EventsOk(es) && Steady(es) && p < 2 && HasFrequency(s.apu, p, sweep, low, high)
    ensures HasFrequency(Run(s, es).apu, p,
                         LastWritten(es, 4 * p + 1, sweep), LastWritten(es, 4 * p + 2, low), LastWritten(es, 4 * p + 3, high))
    decreases |es|
  {
    hide Step, EventOk, Sound.Ok, WrittenTo, HasFrequency;
    if es != [] {
      StepFrequency(s, es[0], p, sweep, low, high);
      RunFrequency(Step(s, es[0]), es[1..], p,
                   WrittenTo(es[0], 4 * p + 1, sweep), WrittenTo(es[0], 4 * p + 2, low), WrittenTo(es[0], 4 * p + 3, high));
    }
  }

  /**
   From power-on, as long as nothing sweeps, the frequency of a square channel is the last byte written to
   its low register plus 0x100 times the last three bits written to its high one, and its sweep is on as
   the last byte written to its sweep register says.
   */
  lemma FrequencyWritten(duty0: nat, duty1: nat, pal: bool, acc: int, es: seq<Event>, p: nat)
    requires duty0 < 8 && duty1 < 8 && EventsOk(es) && Steady(es) && p < 2
    ensures var s := Run(Start(duty0, duty1, pal, acc), es);
            && Channel(s.apu, p).freq == LastWritten(es, 4 * p + 2, 0) + 0x100 * (LastWritten(es, 4 * p + 3, 0) % 8)
            && (Channel(s.apu, p).sweepOn <==> LastWritten(es, 4 * p + 1, 0) >= 0x80)
  {
    hide Run, LastWritten;
    RunFrequency(Start(duty0, duty1, pal, acc), es, p, 0, 0, 0);
  }

  /**
   A sweep that is due moves the frequency down or up by its `r % 8` times halved value, the first channel
   down by one more, and not above 0x7FF.  It is due when its count has run out, and then starts it again.
   */
  lemma SweepMoves(s: Square, p: nat, r: Byte)
    requires s.Ok() && p < 2
    ensures var q, d := s.Sweep(p, r), s.freq / Pow2(r % 8);
            && q.freq == (if s.sweepCount > 1 || !s.sweepOn || r % 8 == 0 || s.freq < 8 then s.freq
                          else if r / 8 % 2 == 1 then s.freq - d - (if p == 0 then 1 else 0)
                          else if s.freq + d <= 0x7FF then s.freq + d else s.freq)
            && q.sweepCount == (if s.sweepCount <= 1 || s.sweepReload then r / 16 % 8 + 1 else s.sweepCount - 1)
            && !q.sweepReload
  {
    hide Shr, Pow2;
    ShrIsDiv(s.freq, r % 8);
    SweepBy(s, p, r);
    hide Square.Sweep;
  }

  lemma SweepBy(s: Square, p: nat, r: Byte)
    requires s.Ok() && p < 2
    ensures var q, d := s.Sweep(p, r), Shr(s.freq, r % 8);
            && q.freq == (if s.sweepCount > 1 || !s.sweepOn || r % 8 == 0 || s.freq < 8 then s.freq
                          else if r / 8 % 2 == 1 then s.freq - d - (if p == 0 then 1 else 0)
                          else if s.freq + d <= 0x7FF then s.freq + d else s.freq)
            && q.sweepCount == (if s.sweepCount <= 1 || s.sweepReload then r / 16 % 8 + 1 else s.sweepCount - 1)
            && !q.sweepReload
  {
    hide Shr, Env.Ok;
  }

  // ----- channels that are off -----

  /** The bits of `StatusWrite`: squares, triangle and noise. */
  predicate Enabled(a: Apu, channel: nat) {
    Bit(a.enabled, channel) == 1
  }

  predicate OffIsSilent(a: Apu) {
    && (!Enabled(a, 0) ==> a.sq0.length == 0) && (!Enabled(a, 1) ==> a.sq1.length == 0)
    && (!Enabled(a, 2) ==> a.triLength == 0) && (!Enabled(a, 3) ==> a.noiseLength == 0)
  }

  lemma LowBits(v: Byte)
    ensures Bit(v, 0) == v % 2 && Bit(v, 1) == v / 2 % 2 && Bit(v, 2) == v / 4 % 2 && Bit(v, 3) == v / 8 % 2
  {
    hide Shr, Pow2;
    SmallPowers();
    ShrIsDiv(v, 0);
    ShrIsDiv(v, 1);
    ShrIsDiv(v, 2);
    ShrIsDiv(v, 3);
  }

  lemma SmallPowers()
    ensures Pow2(0) == 1 && Pow2(1) == 2 && Pow2(2) == 4 && Pow2(3) == 8
  {
    assert Pow2(3) == 2 * Pow2(2) && Pow2(2) == 2 * Pow2(1) && Pow2(1) == 2 * Pow2(0);
  }

  /** Dropping the bits above the fifth. */
  lemma FiveBits(v: Byte)
    ensures v % 0x20 % 2 == v % 2 && v % 0x20 / 2 % 2 == v / 2 % 2 && v % 0x20 / 4 % 2 == v / 4 % 2 && v % 0x20 / 8 % 2 == v / 8 % 2
  {
    var q, u := v / 0x20, v % 0x20;
    DivModUnique(v, 2, 16 * q + u / 2, u % 2);
    DivModUnique(v, 4, 8 * q + u / 4, u % 4);
    DivModUnique(v, 8, 4 * q + u / 8, u % 8);
    DivModUnique(16 * q + u / 2, 2, 8 * q + u / 2 / 2, u / 2 % 2);
    DivModUnique(8 * q + u / 4, 2, 4 * q + u / 4 / 2, u / 4 % 2);
    DivModUnique(4 * q + u / 8, 2, 2 * q + u / 8 / 2, u / 8 % 2);
  }

  lemma StepSilent(s: Sound, e: Event)
    requires s.Ok() && EventOk(e) && OffIsSilent(s.apu)
    ensures OffIsSilent(Step(s, e).apu)
  {
    LowBits(s.apu.enabled);
    hide Bit;
    match e {
      case StatusEvent(v) =>
        hide Square.Ok;
        LowBits(v);
        FiveBits(v);
        LowBits(v % 0x20);
      case PsgEvent(k, v, swapDuty) => PsgSilent(s.apu, k, v, swapDuty);
      case FrameEvent(n) =>
        hide Frame;
        FrameSilent(s.apu, n);
      case _ =>
        hide SetupRest, Setup, After, AfterRest, Dmc.Catch, DmcPeriod;
    }
  }

  lemma PsgSilent(a: Apu, k: nat, v: Byte, swapDuty: bool)
    requires a.Ok() && k < 16 && OffIsSilent(a)
    ensures OffIsSilent(WritePsg(a, k, v, swapDuty))
  {
    LowBits(a.enabled);
    hide Bit, LengthOf, SwapDuty, Square.Ok;
  }

  lemma FrameSilent(a: Apu, n: nat)
    requires a.Ok() && OffIsSilent(a)
    ensures OffIsSilent(Frame(a, n))
  {
    hide Square.Sweep, Env.Clock, Bit;
    SweepKeeps(a.sq0.CountLength(a.psg[0]), 0, a.psg[1]);
    SweepKeeps(a.sq1.CountLength(a.psg[4]), 1, a.psg[5]);
  }

  lemma {:induction false} RunSilent(s: Sound, es: seq<Event>)
    requires s.Ok() && EventsOk(es) && OffIsSilent(s.apu)
    ensures OffIsSilent(Run(s, es).apu)
    decreases |es|
  {
    hide Step, EventOk, Sound.Ok, OffIsSilent;
    if es != [] {
      StepSilent(s, es[0]);
      RunSilent(Step(s, es[0]), es[1..]);
    }
  }

  /**
   From power-on, a channel that is not enabled has no length left, whatever is written to it, and its
   steps are zero, so that it stands still and the square channels add nothing.
   */
  lemma DisabledIsSilent(duty0: nat, duty1: nat, pal: bool, acc: int, es: seq<Event>, size: nat, volume: nat)
    requires duty0 < 8 && duty1 < 8 && EventsOk(es) && volume <= 256
    ensures var a := Run(Start(duty0, duty1, pal, acc), es).apu;
            var c, d := Setup(a, size, volume, volume), SetupRest(a, size, volume, pal);
            && (!Enabled(a, 0) ==> a.sq0.length == 0 && c.step0 == 0 && c.amp0 == 0)
            && (!Enabled(a, 1) ==> a.sq1.length == 0 && c.step1 == 0 && c.amp1 == 0)
            && (!Enabled(a, 2) ==> a.triLength == 0 && d.step0 == 0)
            && (!Enabled(a, 3) ==> a.noiseLength == 0 && d.step1 == 0 && d.amp == 0)
  {
    hide Run, Enabled, FreqOk, NoisePeriod, Threshold, Sound.Ok, Env.Volume;
    var s := Start(duty0, duty1, pal, acc);
    LowBits(0);
    RunSilent(s, es);
  }

  // ----- lengths -----

  /** What the status register holds: the last five bits written to it, and nothing after a reset. */
  function LastStatus(es: seq<Event>, b: Byte): Byte
    decreases |es|
  {
    if es == [] then b
    else LastStatus(es[1..], if es[0].StatusEvent? then es[0].v % 0x20 else if es[0].ResetEvent? then 0 else b)
  }

  lemma {:induction false} EnabledWritten(s: Sound, es: seq<Event>)
    requires s.Ok() && EventsOk(es)
    ensures Run(s, es).apu.enabled == LastStatus(es, s.apu.enabled)
    decreases |es|
  {
    hide EventOk, Sound.Ok, Step;
    if es != [] {
      StepEnabled(s, es[0]);
      EnabledWritten(Step(s, es[0]), es[1..]);
    }
  }

  lemma StepEnabled(s: Sound, e: Event)
    requires s.Ok() && EventOk(e)
    ensures Step(s, e).apu.enabled
            == if e.StatusEvent? then e.v % 0x20 else if e.ResetEvent? then 0 else s.apu.enabled
  {
    hide SetupRest, Setup, After, AfterRest, Dmc.Catch, DmcPeriod, LengthOf, SwapDuty, Env.Clock, Square.Sweep, Square.CountLength;
  }

  /** Register and halt bit of the four lengths. */
  function Length(a: Apu, channel: nat): int
    requires channel < 4
  {
    match channel
    case 0 => a.sq0.length
    case 1 => a.sq1.length
    case 2 => a.triLength
    case _ => a.noiseLength
  }

  predicate Halted(a: Apu, channel: nat)
    requires |a.psg| == 16 && channel < 4
  {
    if channel == 2 then a.psg[8] >= 0x80 else a.psg[4 * channel] / 0x20 % 2 == 1
  }

  /** A write to the last register of an enabled channel loads its length from the table, and otherwise does not touch it. */
  lemma LengthLoaded(a: Apu, channel: nat, v: Byte)
    requires a.Ok() && channel < 4
    ensures var b := WritePsg(a, 4 * channel + 3, v, false);
            Length(b, channel) == if Enabled(a, channel) then LENGTHS[v / 8] else Length(a, channel)
    ensures forall c: nat :: c < 4 && c != channel ==> Length(WritePsg(a, 4 * channel + 3, v, false), c) == Length(a, c)
  {
    LowBits(a.enabled);
    hide Bit, Square.Ok;
    assert v / 8 % 32 == v / 8;
  }

  /** Frames of the kind that counts lengths, one after the other. */
  function Frames(a: Apu, k: nat): (r: Apu)
    requires a.Ok()
    ensures r.Ok()
  {
    if k == 0 then a else Frame(Frames(a, k - 1), 0)
  }

  /** With nothing written in between, a length falls by one with each such frame, down to zero, unless it is halted. */
  lemma {:induction false} LengthsFall(a: Apu, k: nat, channel: nat)
    requires a.Ok() && channel < 4
    ensures var r := Frames(a, k);
            && r.psg == a.psg
            && Length(r, channel) == if Halted(a, channel) then Length(a, channel)
                                     else if Length(a, channel) >= k then Length(a, channel) - k else 0
  {
    hide Frame;
    if k > 0 {
      LengthsFall(a, k - 1, channel);
      FrameCounts(Frames(a, k - 1), channel);
    }
  }

  lemma FrameCounts(a: Apu, channel: nat)
    requires a.Ok() && channel < 4
    ensures var r := Frame(a, 0);
            && r.psg == a.psg
            && Length(r, channel) == if Halted(a, channel) || Length(a, channel) == 0 then Length(a, channel) else Length(a, channel) - 1
  {
    hide Square.Sweep, Env.Clock;
    SweepKeeps(a.sq0.CountLength(a.psg[0]), 0, a.psg[1]);
    SweepKeeps(a.sq1.CountLength(a.psg[4]), 1, a.psg[5]);
  }

  // ----- the square channels -----

  /** A channel with these settings is heard at all: its frequency and the target of its sweep are in range. */
  predicate Audible(s: Square, r: Byte)
    requires s.Ok()
  {
    8 <= s.freq && s.length > 0 && (r / 8 % 2 == 1 || s.freq + s.freq / Pow2(r % 8) <= 0x7FF)
  }

  /** In how many of the eight positions the level is high. */
  function HighPositions(r: Byte): nat {
    [1, 2, 4, 6][r / 0x40]
  }

  /** What a square channel adds at position `duty`. */
  function Level(s: Square, control: Byte, sweep: Byte, duty: nat, size: nat, volume: nat): nat
    requires s.Ok()
  {
    if size > 0 && Audible(s, sweep) && duty < HighPositions(control) then s.env.Volume() * volume / 256 else 0
  }

  lemma SquareLevels(a: Apu, p: Phase, size: nat, volume1: nat, volume2: nat)
    requires a.Ok() && p.Ok() && volume1 <= 256 && volume2 <= 256
    ensures Sum(Setup(a, size, volume1, volume2), p)
            == Level(a.sq0, a.psg[0], a.psg[1], p.duty0, size, volume2) + Level(a.sq1, a.psg[4], a.psg[5], p.duty1, size, volume1)
  {
    OneLevel(a.sq0, a.psg[0], a.psg[1], p.duty0, size, volume2);
    OneLevel(a.sq1, a.psg[4], a.psg[5], p.duty1, size, volume1);
    hide SquareStep, SquareAmp, Threshold, Level, Square.Ok;
  }

  lemma OneLevel(s: Square, control: Byte, sweep: Byte, duty: nat, size: nat, volume: nat)
    requires s.Ok() && volume <= 256
    ensures (if duty < Threshold(control) then SquareAmp(s, SquareStep(s, sweep, size), volume) else 0)
            == Level(s, control, sweep, duty, size, volume)
  {
    hide Shr, Pow2, Env.Volume;
    TargetInRange(s.freq, sweep);
    FullVolume(s.env.Volume());
    hide FreqOk;
  }

  lemma FullVolume(x: nat)
    ensures x * 256 / 256 == x
  {
  }

  /** `CheckFreq` looks at one bit of the sweep's target, which has no higher ones. */
  lemma TargetInRange(f: nat, r: Byte)
    requires f <= 0x7FF
    ensures FreqOk(f, r) <==> r / 8 % 2 == 1 || f + f / Pow2(r % 8) <= 0x7FF
  {
    hide Shr, Pow2;
    ShrIsDiv(f, r % 8);
    ShrShrinks(f, r % 8);
    EleventhBit(Shr(f, r % 8) + f);
  }

  lemma EleventhBit(x: nat)
    requires x <= 0xFFE
    ensures x / 0x800 % 2 == 0 <==> x <= 0x7FF
  {
  }

  /** How long the channels take for one position, in units of the sample counter, and how loud the other two are. */
  lemma Periods(a: Apu, size: nat, volume: nat, pal: bool)
    requires a.Ok() && volume <= 256
    ensures var c, d := Setup(a, size, volume, volume), SetupRest(a, size, volume, pal);
            && c.period0 == 0x4_0000 * (a.sq0.freq + 1) && c.period1 == 0x4_0000 * (a.sq1.freq + 1)
            && d.period0 == 0x2_0000 * (a.psg[0xA] as nat + 0x100 * (a.psg[0xB] as nat % 8) + 1)
            && d.step0 == (if a.triLength > 0 && a.triCount > 0 && a.psg[0xA] as nat + 0x100 * (a.psg[0xB] as nat % 8) > 3 then size else 0)
            && d.step1 == (if a.noiseLength > 0 then size else 0)
            && d.amp == (if a.noiseLength > 0 then 2 * (a.noiseEnv.Volume() * volume / 256) else 0)
            && (d.short <==> a.psg[0xE] >= 0x80) && d.latch == a.dmc.latch
  {
    hide NoisePeriod, SquareStep, SquareAmp, Threshold, Square.Ok, Dmc.Ok;
    FullVolume(a.noiseEnv.Volume());
  }

  /** A counter that is filled up, and the position that moves on with it. */
  lemma {:induction false} TurnsOf(acc: int, period: nat, duty: nat) returns (turns: nat)
    requires period > 0 && acc <= period && duty < 8
    ensures var t := Turn(acc, period, duty);
            t.0 == acc + turns * period && 0 < t.0 <= period && t.1 == (duty + turns) % 8 && (acc > 0 <==> turns == 0)
    decreases -acc
  {
    if acc > 0 {
      turns := 0;
    } else {
      assert Turn(acc, period, duty) == Turn(acc + period, period, (duty + 1) % 8);
      hide *;
      var more := TurnsOf(acc + period, period, (duty + 1) % 8);
      turns := more + 1;
      OneMorePeriod(acc, period, more);
      EighthsAdd(duty, 1, more);
    }
  }

  lemma EighthsAdd(x: nat, k: nat, l: nat)
    ensures ((x + k) % 8 + l) % 8 == (x + (k + l)) % 8
  {
    ModPlusMultiple((x + k) % 8 + l, (x + k) / 8, 8);
  }

  ghost predicate RunsAt(period: nat, step: nat, acc: int, duty: nat, n: nat, turns: nat, acc': int, duty': nat) {
    acc' == acc - n * step + turns * period && acc' <= period && (n > 0 ==> acc' > 0) && duty' == (duty + turns) % 8
  }

  /**
   Over any number of samples while one of the two is heard, a square channel moves to its next position
   once every period: the time since then is what is missing from its counter.
   */
  lemma {:induction false} SquaresRun(c: Squares, p: Phase, n: nat) returns (turns0: nat, turns1: nat)
    requires c.Ok() && p.Ok() && c.step0 + c.step1 > 0 && p.acc0 <= c.period0 && p.acc1 <= c.period1
    ensures var r := After(c, p, n);
            && RunsAt(c.period0, c.step0, p.acc0, p.duty0, n, turns0, r.acc0, r.duty0)
            && RunsAt(c.period1, c.step1, p.acc1, p.duty1, n, turns1, r.acc1, r.duty1)
  {
    if n == 0 {
      turns0, turns1 := 0, 0;
    } else {
      var before0, before1 := SquaresRun(c, p, n - 1);
      var q := After(c, p, n - 1);
      assert After(c, p, n) == Advance(c, q);
      hide After, Turn;
      var more0 := RunsOn(c.period0, c.step0, p.acc0, p.duty0, n - 1, before0, q.acc0, q.duty0);
      var more1 := RunsOn(c.period1, c.step1, p.acc1, p.duty1, n - 1, before1, q.acc1, q.duty1);
      turns0, turns1 := before0 + more0, before1 + more1;
    }
  }

  lemma RunsOn(period: nat, step: nat, acc: int, duty: nat, n: nat, turns: nat, a: int, d: nat) returns (more: nat)
    requires period > 0 && d < 8 && RunsAt(period, step, acc, duty, n, turns, a, d)
    ensures var t := Turn(a - step, period, d);
            RunsAt(period, step, acc, duty, n + 1, turns + more, t.0, t.1)
  {
    hide Turn;
    more := TurnsOf(a - step, period, d);
    EighthsAdd(duty, turns, more);
    assert (turns + more) * period == turns * period + more * period;
    QuotientBefore(n + 1, step);
  }

  // ----- the other channels -----

  /** The triangle goes from 45 down to 0 in steps of 3, and from 0 up to 45 again. */
  lemma TriangleShape(k: nat)
    requires k < 16
    ensures Triangle(k) == 45 - 3 * k && Triangle(16 + k) == 3 * k
  {
    assert k / 16 == 0 && (16 + k) / 16 == 1 && (16 + k) % 16 == k;
  }

  /** The noise register is shifted, and the new lowest bit is the sum of the top bit and the tap. */
  lemma NoiseBits(n: nat, short: bool, k: nat)
    requires NoiseOk(n) && k < 14
    ensures Bit(NoiseStep(n, short), k + 1) == Bit(n, k)
    ensures Bit(NoiseStep(n, short), 0) == 1 <==> Bit(n, 14) != Bit(n, if short then 8 else 13)
  {
    NoiseIsShift(n, short);
    var f := NoiseBit(n, short);
    hide NoiseStep, NoiseBit;
    var m := Low(n, 14);
    Halved(m, f);
    LowKeepsBit(n, k, 14);
    NoiseTaps(n, short);
  }

  lemma {:induction false} LowKeepsBit(x: nat, k: nat, w: nat)
    requires k < w
    ensures Bit(Low(x, w), k) == Bit(x, k)
  {
    Halved(Low(x / 2, w - 1), x % 2);
    if k > 0 {
      LowKeepsBit(x / 2, k - 1, w - 1);
    }
  }

  lemma NoiseTaps(n: nat, short: bool)
    requires NoiseOk(n)
    ensures NoiseBit(n, short) == 1 <==> Bit(n, 14) != Bit(n, if short then 8 else 13)
    ensures NoiseBit(n, short) < 2
  {
    TapBits(n);
    hide Bit;
    ParityOfSum(if short then n / 0x100 else n / 0x2000, n / 0x4000);
  }

  lemma TapBits(n: nat)
    ensures Bit(n, 8) == n / 0x100 % 2 && Bit(n, 13) == n / 0x2000 % 2 && Bit(n, 14) == n / 0x4000 % 2
  {
    NoisePowers();
    hide Shr, Pow2;
    ShrIsDiv(n, 14);
    ShrIsDiv(n, 13);
    ShrIsDiv(n, 8);
  }

  lemma ParityOfSum(x: nat, y: nat)
    ensures (x + y) % 2 == 1 <==> x % 2 != y % 2
  {
  }

  lemma NoisePowers()
    ensures Pow2(8) == 0x100 && Pow2(13) == 0x2000 && Pow2(14) == 0x4000
  {
    WidthPowers();
    hide Pow2;
    Pow2Add(8, 5);
    Pow2Add(8, 6);
    Pow2Four(1);
    Pow2Four(2);
    Pow2Double(0);
    Pow2Double(1);
  }

  lemma NoiseIsShift(n: nat, short: bool)
    requires NoiseOk(n)
    ensures NoiseStep(n, short) == 2 * Low(n, 14) + NoiseBit(n, short)
  {
    var f := NoiseBit(n, short);
    NoisePowers();
    ShrIsDiv(n, 14);
    hide Pow2, Low, Shr;
    ShiftedIn(n, n / 0x4000, n % 0x4000, f);
    hide NoiseBit;
    NoiseStepIs(n, short, n % 0x4000, f);
  }

  /** A bit of a sample moves the delta level up or down by two, unless that leaves 0 to 127. */
  lemma DeltaMoves(d: Dmc)
    requires d.Ok()
    ensures d.Bit().latch == (if !d.haveSample then d.latch
                              else if d.shift % 2 == 1 then (if d.latch <= 125 then d.latch + 2 else d.latch)
                              else if d.latch >= 2 then d.latch - 2 else d.latch)
  {
  }

  // ----- the wave -----

  function Total(s: seq<int>): int {
    if s == [] then 0 else Total(s[..|s| - 1]) + s[|s| - 1]
  }

  lemma {:induction false} TotalUpdate(s: seq<int>, k: nat, x: int)
    requires k < |s|
    ensures Total(s[k := s[k] + x]) == Total(s) + x
  {
    var n := |s| - 1;
    if k == n {
      assert s[k := s[k] + x][..n] == s[..n];
    } else {
      assert s[k := s[k] + x][..n] == s[..n][k := s[k] + x];
      TotalUpdate(s[..n], k, x);
    }
  }

  /** No sample is lost or counted twice. */
  lemma {:induction false} MixedTotal(wave: seq<int>, start: nat, samples: seq<int>)
    requires start + |samples| <= 16 * |wave|
    ensures Total(Mixed(wave, start, samples)) == Total(wave) + Total(samples)
  {
    if samples != [] {
      var n := |samples| - 1;
      MixedTotal(wave, start, samples[..n]);
      EntryInside(start + n, |wave|);
      TotalUpdate(Mixed(wave, start, samples[..n]), (start + n) / 16, samples[n]);
    }
  }
}
