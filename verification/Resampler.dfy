/**
 The high-quality sound path: a polyphase FIR resampler followed by two recursive filters
 (fceux-am/src/filter.cpp, lines 19-206), and the buffer shifting of its caller
 (fceux-am/src/sound.cpp, lines 1033-1086).

 Samples arrive in chunks, one for each emulated frame.  The main result is that the chunks do not
 show: what is played is what a single pass over the whole stream would give.

 Accumulators are unbounded here; filter.cpp lines 88-91 state the assumption that they do not overflow.
 */
module Resampler {
  import Bits
  import CpuTime

  // ----- configuration -----

  /** Ratios between the slowest and the fastest supported output rate; see `RatioRange`. */
  const RATIO_MIN: nat := 17 * 65536
  const RATIO_MAX: nat := 41 * 65536

  const W32: nat := 0x1_0000_0000
  const WAVE_HI: nat := 40000
  const WAVE_FINAL: nat := 2048 + 512

  /** One of the two recursive filters: `SexyFilter` with its gains, or `SexyFilter2`. */
  datatype Stage = Equalizer(mul1: int, mul2: int, vmul: int) | LowPass

  datatype Config = Config(coeffs: seq<int>, ratio: nat, equalizer: Stage, lowpass: bool) {
    function Taps(): nat {
      |coeffs|
    }

    /** 484 coefficients for `soundq` 1 and 1024 for `soundq` 2. */
    predicate Ok() {
      && Taps() in {484, 1024} && RATIO_MIN <= ratio <= RATIO_MAX && equalizer.Equalizer?
    }

    /** Where `MakeFilters` sets the index. */
    function Start(): nat {
      (Taps() + 1) * 65536
    }
  }

  datatype Region = Ntsc | Dendy | Pal

  /** Clock cycles per second times 65536, truncated. */
  function Clock(r: Region): nat {
    match r
    case Ntsc => (1789772.7272727272727272 * 65536.0).Floor
    case Dendy => (1773447.467 * 65536.0).Floor
    case Pal => (1662607.125 * 65536.0).Floor
  }

  /** The step `mrratio` that `MakeFilters` computes lies in the range assumed by `Config.Ok`. */
  lemma RatioRange(r: Region, rate: nat)
    requires rate in {44100, 48000, 96000}
    ensures RATIO_MIN <= Clock(r) / rate <= RATIO_MAX
  {
  }

  // ----- the specification: one pass over a stream -----

  /** Sum of `d` taps, going back from `last`. */
  function Dot(coeffs: seq<int>, s: seq<int>, last: int, d: nat): int
    requires d <= |coeffs| && d - 1 <= last < |s|
  {
    if d == 0 then 0 else Dot(coeffs, s, last, d - 1) + s[last - (d - 1)] * coeffs[d - 1] / 64
  }

  /** The output at the 16.16 position `x`: an interpolation between two neighbouring filter outputs. */
  function Output(c: Config, s: seq<int>, x: nat): int
    requires c.Taps() <= x / 65536 + 1 && x / 65536 + 1 < |s|
  {
    var a, a2, f := Dot(c.coeffs, s, x / 65536, c.Taps()), Dot(c.coeffs, s, x / 65536 + 1, c.Taps()), x % 65536;
    (a * (65536 - f) + a2 * f) / 0x800_0000
  }

  /** The end of the positions whose windows lie in `n` samples. */
  function Limit(n: nat): int {
    (n - 1) * 65536
  }

  /** All outputs from position `x` on. */
  function Outputs(c: Config, s: seq<int>, x: nat): seq<int>
    requires c.Ok() && x >= c.Taps() * 65536
    decreases Limit(|s|) - x
  {
    if x >= Limit(|s|) then [] else [Output(c, s, x)] + Outputs(c, s, x + c.ratio)
  }

  /** The first position from `x` on that has to wait for more samples. */
  function Next(c: Config, n: nat, x: nat): (y: nat)
    requires c.Ok()
    ensures x <= y && Limit(n) <= y && (y == x || y < Limit(n) + c.ratio)
    decreases Limit(n) - x
  {
    if x >= Limit(n) then x else Next(c, n, x + c.ratio)
  }

  datatype Acc = Acc(acc1: int, acc2: int)

  function Clamp(t: int): int {
    if t > 32767 then 32767 else if t < -32768 then -32768 else t
  }

  /** One sample through a recursive filter. */
  function StageStep(g: Stage, a: Acc, v: int): (Acc, int) {
    match g
    case Equalizer(mul1, mul2, vmul) =>
      var ino := v * vmul;
      var acc1 := a.acc1 + (ino - a.acc1) * mul1 / 65536;
      var acc2 := a.acc2 + (ino - acc1 - a.acc2) * mul2 / 65536;
      (Acc(acc1, acc2), Clamp((acc1 - ino + acc2) / 65536))
    case LowPass =>
      var acc := a.acc1 + (v * 65536 - a.acc1) / 8;
      (a.(acc1 := acc), acc / 65536)
  }

  /** A whole stream through a recursive filter. */
  function Through(g: Stage, a: Acc, vs: seq<int>): (r: (Acc, seq<int>))
    ensures |r.1| == |vs|
  {
    if vs == [] then (a, [])
    else
      var before := Through(g, a, vs[..|vs| - 1]);
      var last := StageStep(g, before.0, vs[|vs| - 1]);
      (last.0, before.1 + [last.1])
  }

  /** The filters together; the accumulators are the C statics, zero at first. */
  datatype Tone = Tone(eq: Acc, lp: Acc)

  const SILENT := Tone(Acc(0, 0), Acc(0, 0))

  function Filtered(c: Config, t: Tone, vs: seq<int>): (r: (Tone, seq<int>))
    ensures |r.1| == |vs|
  {
    var e := Through(c.equalizer, t.eq, vs);
    if c.lowpass then
      var l := Through(LowPass, t.lp, e.1);
      (Tone(e.0, l.0), l.1)
    else
      (Tone(e.0, t.lp), e.1)
  }

  /** What a single pass over the stream `s` plays. */
  function OnePass(c: Config, s: seq<int>): seq<int>
    requires c.Ok()
  {
    Filtered(c, SILENT, Outputs(c, s, c.Start())).1
  }

  // ----- chunk by chunk -----

  /** What is carried from one chunk to the next. */
  datatype Carry = Carry(tail: seq<int>, index: nat, tone: Tone)

  function Fresh(c: Config): Carry {
    Carry([], c.Start(), SILENT)
  }

  predicate CarryOk(c: Config, k: Carry) {
    c.Ok() && k.index >= c.Taps() * 65536
  }

  /** One call of `FlushEmulateSound` with the new samples `chunk`. */
  function Feed(c: Config, k: Carry, chunk: seq<int>): (r: (Carry, seq<int>))
    requires CarryOk(c, k) && (chunk == [] || |k.tail| + |chunk| > c.Taps())
    ensures CarryOk(c, r.0)
  {
    if chunk == [] then (k, [])
    else
      var buffer := k.tail + chunk;
      var played := Filtered(c, k.tone, Outputs(c, buffer, k.index));
      var index := Next(c, |buffer|, k.index) - Limit(|buffer|) + c.Taps() * 65536;
      (Carry(buffer[|buffer| - (c.Taps() + 1)..], index, played.0), played.1)
  }

  /** Every chunk leaves enough samples to carry on, when `left` samples are there at first. */
  predicate Carries(c: Config, left: nat, chunks: seq<seq<int>>)
    decreases |chunks|
  {
    if chunks == [] then true
    else if chunks[0] == [] then Carries(c, left, chunks[1..])
    else left + |chunks[0]| > c.Taps() && Carries(c, c.Taps() + 1, chunks[1..])
  }

  function Flatten(chunks: seq<seq<int>>): seq<int> {
    if chunks == [] then [] else chunks[0] + Flatten(chunks[1..])
  }

  /** Everything that is played for a sequence of chunks. */
  function Played(c: Config, k: Carry, chunks: seq<seq<int>>): seq<int>
    requires CarryOk(c, k) && Carries(c, |k.tail|, chunks)
    decreases |chunks|
  {
    if chunks == [] then []
    else
      var r := Feed(c, k, chunks[0]);
      r.1 + Played(c, r.0, chunks[1..])
  }

  // ----- what is played -----

  /** At a whole position the output is the filter sum that ends at that sample, over 2048. */
  lemma OutputAtSample(c: Config, s: seq<int>, x: nat)
    requires c.Taps() <= x / 65536 + 1 && x / 65536 + 1 < |s| && x % 65536 == 0
    ensures Output(c, s, x) == Dot(c.coeffs, s, x / 65536, c.Taps()) / 2048
  {
    hide Dot;
    WholeShare(Dot(c.coeffs, s, x / 65536, c.Taps()), Dot(c.coeffs, s, x / 65536 + 1, c.Taps()));
  }

  lemma WholeShare(d: int, e: int)
    ensures (d * 65536 + e * 0) / 0x800_0000 == d / 2048
  {
    assert d == 2048 * (d / 2048) + d % 2048;
    Bits.DivModUnique(d * 65536, 0x800_0000, d / 2048, d % 2048 * 65536);
  }

  /** Between two samples the output moves from the one filter sum to the next, without going back. */
  lemma OutputMoves(c: Config, s: seq<int>, x: nat, y: nat)
    requires c.Taps() <= x / 65536 + 1 && x / 65536 + 1 < |s|
    requires x <= y && y / 65536 == x / 65536
    ensures var d, e := Dot(c.coeffs, s, x / 65536, c.Taps()), Dot(c.coeffs, s, x / 65536 + 1, c.Taps());
            && (d <= e ==> d / 2048 <= Output(c, s, x) <= Output(c, s, y) <= e / 2048)
            && (d >= e ==> d / 2048 >= Output(c, s, x) >= Output(c, s, y) >= e / 2048)
  {
    hide Dot;
    var d, e := Dot(c.coeffs, s, x / 65536, c.Taps()), Dot(c.coeffs, s, x / 65536 + 1, c.Taps());
    MixMoves(d, e, x % 65536, y % 65536);
    MixMoves(e, d, 65536 - y % 65536, 65536 - x % 65536);
  }

  lemma MixMoves(d: int, e: int, f: nat, g: nat)
    requires f <= g <= 65536
    ensures d <= e ==> d / 2048 <= (d * (65536 - f) + e * f) / 0x800_0000 <= (d * (65536 - g) + e * g) / 0x800_0000 <= e / 2048
  {
    if d <= e {
      var u, v := d * (65536 - f) + e * f, d * (65536 - g) + e * g;
      assert u == d * 65536 + (e - d) * f && v == d * 65536 + (e - d) * g;
      assert e * 65536 == d * 65536 + (e - d) * 65536;
      Bits.MulMonotone(0, f, e - d);
      Bits.MulMonotone(f, g, e - d);
      Bits.MulMonotone(g, 65536, e - d);
      assert d * 65536 <= u <= v <= e * 65536;
    }
  }

  /**
   Which coefficient meets which sample: a single sample of height `h` at place `m` contributes with
   coefficient number `last - m` to the sum that ends at `last`, and not at all if there is no such coefficient.
   */
  lemma {:induction false} UnitSample(coeffs: seq<int>, s: seq<int>, m: nat, h: int, last: int, d: nat)
    requires d <= |coeffs| && d - 1 <= last < |s| && m < |s|
    requires forall i :: 0 <= i < |s| ==> s[i] == if i == m then h else 0
    ensures Dot(coeffs, s, last, d) == if 0 <= last - m < d then h * coeffs[last - m] / 64 else 0
  {
    if d > 0 {
      UnitSample(coeffs, s, m, h, last, d - 1);
    }
  }

  /** The positions that are played: every `ratio` from the first one on, as long as there are samples. */
  lemma {:induction false} OutputsAt(c: Config, s: seq<int>, x: nat, k: nat)
    requires c.Ok() && x >= c.Taps() * 65536
    ensures k < |Outputs(c, s, x)| <==> x + k * c.ratio < Limit(|s|)
    ensures k < |Outputs(c, s, x)| ==> Outputs(c, s, x)[k] == Output(c, s, x + k * c.ratio)
    decreases k
  {
    hide Output;
    if k == 0 {
    } else {
      assert k * c.ratio == (k - 1) * c.ratio + c.ratio;
      Bits.MulNonNegative(k - 1, c.ratio);
      if x < Limit(|s|) {
        OutputsAt(c, s, x + c.ratio, k - 1);
      }
    }
  }

  /** The first thing a pass puts into the filters is the sum that ends at sample number `Taps() + 1`. */
  lemma FirstOutput(c: Config, s: seq<int>)
    requires c.Ok() && |s| > c.Taps() + 2
    ensures var vs := Outputs(c, s, c.Start());
            && |vs| > 0 && vs[0] == Dot(c.coeffs, s, c.Taps() + 1, c.Taps()) / 2048
            && OnePass(c, s) == Filtered(c, SILENT, vs).1
  {
    hide Dot, Filtered, Output;
    WholeSamples(0, c.Taps() + 1);
    OutputAtSample(c, s, c.Start());
  }

  /** At rest, the equalizer lets nothing of a constant level through, and the low-pass filter all of it. */
  lemma StagesAtRest(g: Stage, v: int, acc2: int)
    ensures g.Equalizer? ==> StageStep(g, Acc(v * g.vmul, 0), v) == (Acc(v * g.vmul, 0), 0)
    ensures StageStep(LowPass, Acc(v * 65536, acc2), v) == (Acc(v * 65536, acc2), v)
  {
  }

  /**
   From anywhere else, the low-pass filter goes an eighth of the way to the new level, and the equalizer's
   accumulators go `mul1` and `mul2` parts in 65536 of the way to the level and to what the first one lacks;
   what it puts out, the excess of the two over the level, fits into 16 bits.
   */
  lemma StagesMove(g: Stage, a: Acc, v: int)
    ensures var r := StageStep(LowPass, a, v);
            && 8 * (r.0.acc1 - a.acc1) <= v * 65536 - a.acc1 < 8 * (r.0.acc1 - a.acc1) + 8
            && 65536 * r.1 <= r.0.acc1 < 65536 * (r.1 + 1) && r.0.acc2 == a.acc2
    ensures g.Equalizer? ==>
              var r, t := StageStep(g, a, v), v * g.vmul;
              && 65536 * (r.0.acc1 - a.acc1) <= (t - a.acc1) * g.mul1 < 65536 * (r.0.acc1 - a.acc1) + 65536
              && 65536 * (r.0.acc2 - a.acc2) <= (t - r.0.acc1 - a.acc2) * g.mul2 < 65536 * (r.0.acc2 - a.acc2) + 65536
              && -32768 <= r.1 <= 32767
              && (-32768 < r.1 < 32767 ==> 65536 * r.1 <= r.0.acc1 + r.0.acc2 - t < 65536 * (r.1 + 1))
              && (r.1 == 32767 ==> r.0.acc1 + r.0.acc2 - t >= 32767 * 65536)
              && (r.1 == -32768 ==> r.0.acc1 + r.0.acc2 - t < -32767 * 65536)
  {
  }

  // ----- a window does not care where its samples are stored -----

  lemma {:induction false} DotShift(coeffs: seq<int>, s: seq<int>, k: nat, last: int, d: nat)
    requires k <= |s| && d <= |coeffs| && d - 1 <= last < |s| - k
    ensures Dot(coeffs, s[k..], last, d) == Dot(coeffs, s, last + k, d)
  {
    if d > 0 {
      DotShift(coeffs, s, k, last, d - 1);
    }
  }

  lemma OutputShift(c: Config, s: seq<int>, k: nat, x: nat)
    requires k <= |s| && c.Taps() <= x / 65536 + 1 && x / 65536 + 1 < |s| - k
    ensures Output(c, s[k..], x) == Output(c, s, x + k * 65536)
  {
    hide Dot;
    DotShift(c.coeffs, s, k, x / 65536, c.Taps());
    DotShift(c.coeffs, s, k, x / 65536 + 1, c.Taps());
    WholeSamples(x, k);
  }

  lemma WholeSamples(x: nat, k: nat)
    ensures (x + k * 65536) / 65536 == x / 65536 + k && (x + k * 65536) % 65536 == x % 65536
  {
  }

  lemma {:induction false} OutputsShift(c: Config, s: seq<int>, k: nat, x: nat)
    requires c.Ok() && x >= c.Taps() * 65536 && k <= |s|
    ensures Outputs(c, s[k..], x) == Outputs(c, s, x + k * 65536)
    ensures Next(c, |s| - k, x) + k * 65536 == Next(c, |s|, x + k * 65536)
    decreases Limit(|s|) - x
  {
    hide Output;
    if x < Limit(|s| - k) {
      OutputShift(c, s, k, x);
      OutputsShift(c, s, k, x + c.ratio);
    }
  }

  // ----- a pass can be interrupted -----

  lemma {:induction false} DotPrefix(coeffs: seq<int>, s: seq<int>, more: seq<int>, last: int, d: nat)
    requires d <= |coeffs| && d - 1 <= last < |s|
    ensures Dot(coeffs, s + more, last, d) == Dot(coeffs, s, last, d)
  {
    if d > 0 {
      DotPrefix(coeffs, s, more, last, d - 1);
    }
  }

  lemma OutputPrefix(c: Config, s: seq<int>, more: seq<int>, x: nat)
    requires c.Taps() <= x / 65536 + 1 && x / 65536 + 1 < |s|
    ensures Output(c, s + more, x) == Output(c, s, x)
  {
    hide Dot;
    DotPrefix(c.coeffs, s, more, x / 65536, c.Taps());
    DotPrefix(c.coeffs, s, more, x / 65536 + 1, c.Taps());
  }

  lemma {:induction false} OutputsSplit(c: Config, s: seq<int>, more: seq<int>, x: nat)
    requires c.Ok() && x >= c.Taps() * 65536
    ensures Outputs(c, s + more, x) == Outputs(c, s, x) + Outputs(c, s + more, Next(c, |s|, x))
    ensures Next(c, |s + more|, x) == Next(c, |s + more|, Next(c, |s|, x))
    decreases Limit(|s|) - x
  {
    hide Output;
    if x < Limit(|s|) {
      OutputPrefix(c, s, more, x);
      OutputsSplit(c, s, more, x + c.ratio);
      var rest, last := Outputs(c, s, x + c.ratio), Outputs(c, s + more, Next(c, |s|, x));
      assert [Output(c, s, x)] + rest + last == [Output(c, s, x)] + (rest + last);
    }
  }

  lemma ThroughNothing(g: Stage, a: Acc)
    ensures Through(g, a, []) == (a, [])
  {
  }

  lemma ThroughOne(g: Stage, a: Acc, vs: seq<int>, v: int)
    ensures var before := Through(g, a, vs);
            var last := StageStep(g, before.0, v);
            Through(g, a, vs + [v]) == (last.0, before.1 + [last.1])
  {
    hide StageStep;
    assert (vs + [v])[..|vs + [v]| - 1] == vs;
  }

  lemma {:induction false} ThroughSplit(g: Stage, a: Acc, vs: seq<int>, ws: seq<int>)
    ensures var first := Through(g, a, vs);
            var second := Through(g, first.0, ws);
            Through(g, a, vs + ws) == (second.0, first.1 + second.1)
    decreases |ws|
  {
    hide StageStep;
    hide Through;
    if ws == [] {
      assert vs + ws == vs;
      ThroughNothing(g, Through(g, a, vs).0);
      assert Through(g, a, vs).1 + [] == Through(g, a, vs).1;
    } else {
      var init, v := ws[..|ws| - 1], ws[|ws| - 1];
      assert ws == init + [v] && vs + ws == (vs + init) + [v];
      ThroughSplit(g, a, vs, init);
      ThroughOne(g, a, vs + init, v);
      ThroughOne(g, Through(g, a, vs).0, init, v);
      var first := Through(g, a, vs);
      var second := Through(g, first.0, init);
      var last := StageStep(g, second.0, v);
      assert first.1 + second.1 + [last.1] == first.1 + (second.1 + [last.1]);
    }
  }

  lemma FilteredSplit(c: Config, t: Tone, vs: seq<int>, ws: seq<int>)
    ensures var first := Filtered(c, t, vs);
            var second := Filtered(c, first.0, ws);
            Filtered(c, t, vs + ws) == (second.0, first.1 + second.1)
  {
    hide Through;
    ThroughSplit(c.equalizer, t.eq, vs, ws);
    if c.lowpass {
      var first := Through(c.equalizer, t.eq, vs);
      ThroughSplit(LowPass, t.lp, first.1, Through(c.equalizer, first.0, ws).1);
    }
  }

  // ----- chunks do not show -----

  /** `k` is what one pass over `s` would carry: the samples it will look at again, and how far it got. */
  ghost predicate Tracks(c: Config, k: Carry, s: seq<int>) {
    && CarryOk(c, k)
    && |k.tail| <= |s| && k.tail == s[|s| - |k.tail|..]
    && k.index + (|s| - |k.tail|) * 65536 == Next(c, |s|, c.Start())
    && k.tone == Filtered(c, SILENT, Outputs(c, s, c.Start())).0
  }

  lemma FeedTracks(c: Config, k: Carry, s: seq<int>, chunk: seq<int>)
    requires Tracks(c, k, s) && (chunk == [] || |k.tail| + |chunk| > c.Taps())
    ensures Tracks(c, Feed(c, k, chunk).0, s + chunk)
    ensures OnePass(c, s + chunk) == OnePass(c, s) + Feed(c, k, chunk).1
  {
    hide Outputs, Filtered, Next;
    if chunk == [] {
      assert s + chunk == s;
    } else {
      var base := |s| - |k.tail|;
      var buffer := k.tail + chunk;
      assert (s + chunk)[base..] == buffer;
      OutputsShift(c, s + chunk, base, k.index);
      OutputsSplit(c, s, chunk, c.Start());
      FilteredSplit(c, SILENT, Outputs(c, s, c.Start()), Outputs(c, s + chunk, Next(c, |s|, c.Start())));
      assert buffer[|buffer| - (c.Taps() + 1)..] == (s + chunk)[|s + chunk| - (c.Taps() + 1)..];
    }
  }

  lemma {:induction false} PlayedContinues(c: Config, k: Carry, s: seq<int>, chunks: seq<seq<int>>)
    requires Tracks(c, k, s) && Carries(c, |k.tail|, chunks)
    ensures OnePass(c, s + Flatten(chunks)) == OnePass(c, s) + Played(c, k, chunks)
    decreases |chunks|
  {
    hide OnePass, Tracks, Feed;
    TracksOk(c, k, s);
    if chunks == [] {
      assert s + Flatten(chunks) == s;
    } else {
      FeedTail(c, k, chunks[0]);
      FeedTracks(c, k, s, chunks[0]);
      PlayedContinues(c, Feed(c, k, chunks[0]).0, s + chunks[0], chunks[1..]);
      assert s + chunks[0] + Flatten(chunks[1..]) == s + Flatten(chunks);
    }
  }

  lemma FeedTail(c: Config, k: Carry, chunk: seq<int>)
    requires CarryOk(c, k) && (chunk == [] || |k.tail| + |chunk| > c.Taps())
    ensures |Feed(c, k, chunk).0.tail| == if chunk == [] then |k.tail| else c.Taps() + 1
  {
    hide Outputs, Filtered, Next;
  }

  lemma TracksOk(c: Config, k: Carry, s: seq<int>)
    requires Tracks(c, k, s)
    ensures CarryOk(c, k)
  {
  }

  lemma FreshTracks(c: Config)
    requires c.Ok()
    ensures Tracks(c, Fresh(c), []) && OnePass(c, []) == []
  {
  }

  /** Any division of a stream into chunks plays what one pass over the stream plays. */
  lemma ChunksDoNotShow(c: Config, chunks: seq<seq<int>>)
    requires c.Ok() && Carries(c, 0, chunks)
    ensures Played(c, Fresh(c), chunks) == OnePass(c, Flatten(chunks))
  {
    hide OnePass, Tracks, Played;
    FreshTracks(c);
    PlayedContinues(c, Fresh(c), [], chunks);
    assert [] + Flatten(chunks) == Flatten(chunks);
  }

  /** The first chunk with samples in it. */
  function FirstChunk(chunks: seq<seq<int>>): seq<int> {
    if chunks == [] then [] else if chunks[0] != [] then chunks[0] else FirstChunk(chunks[1..])
  }

  /**
   `FlushEmulateSound` copies the last `Taps() + 1` samples without looking whether there are as many
   (sound.cpp line 1047).  They are there in the whole run exactly when the first frame that has samples has
   that many; with a shorter first frame the copy starts before the buffer.
   */
  lemma {:induction false} CarriesExactlyWhen(c: Config, chunks: seq<seq<int>>)
    ensures Carries(c, 0, chunks) <==> (FirstChunk(chunks) == [] || |FirstChunk(chunks)| > c.Taps())
  {
    if chunks != [] {
      if chunks[0] == [] {
        CarriesExactlyWhen(c, chunks[1..]);
      } else {
        CarriesOnce(c, c.Taps() + 1, chunks[1..]);
      }
    }
  }

  /** A first frame of 99 samples is copied from before the buffer; behind a full frame it is not. */
  lemma ShortFrame(c: Config, short: seq<int>, full: seq<int>)
    requires c.Ok() && |short| == 99 && |full| == 29780
    ensures !Carries(c, 0, [short, full]) && Carries(c, 0, [full, short])
  {
    CarriesExactlyWhen(c, [short, full]);
    CarriesExactlyWhen(c, [full, short]);
  }

  /** What the processor is given for a frame: at least 262 lines of 341 dots, at 15 units or more. */
  const FRAME: nat := 262 * 341 * 15

  /**
   The emulator does not produce a short first frame: however the runs that make up the first frame after
   power-on go, they last long enough, so that the copy stays inside in the whole run.
   */
  lemma EmulatorCarries(c: Config, rs: seq<CpuTime.Request>, t: CpuTime.Clock, frames: seq<seq<int>>)
    requires c.Ok() && t.count == 0 && frames != []
    requires forall j :: 0 <= j < |rs| ==> !rs[j].overclocking && forall k: nat :: CpuTime.TurnOk(rs[j].turns(k))
    requires CpuTime.Asked(rs) >= FRAME && |frames[0]| == CpuTime.RunAll(t, rs).soundtimestamp - t.soundtimestamp
    ensures Carries(c, 0, frames)
  {
    CpuTime.LongEnough(t, rs);
    CarriesExactlyWhen(c, frames);
    assert |frames[0]| > 1024;
  }

  lemma {:induction false} CarriesOnce(c: Config, left: nat, chunks: seq<seq<int>>)
    requires left > c.Taps()
    ensures Carries(c, left, chunks)
  {
    if chunks != [] {
      CarriesOnce(c, left, chunks[1..]);
      CarriesOnce(c, c.Taps() + 1, chunks[1..]);
    }
  }

  // ----- one turn of the loop -----

  lemma OutputsStep(c: Config, s: seq<int>, x: nat)
    requires c.Ok() && c.Taps() * 65536 <= x < Limit(|s|)
    ensures Outputs(c, s, x) == [Output(c, s, x)] + Outputs(c, s, x + c.ratio)
    ensures Next(c, |s|, x) == Next(c, |s|, x + c.ratio)
  {
    hide Output;
  }

  lemma OutputsEnd(c: Config, s: seq<int>, x: nat)
    requires c.Ok() && c.Taps() * 65536 <= x && Limit(|s|) <= x
    ensures Outputs(c, s, x) == [] && Next(c, |s|, x) == x
  {
  }

  // ----- sizes -----

  /** The arithmetic of the index stays inside 32 bits. */
  lemma IndexFits(c: Config, inlen: nat, from: nat, x: nat)
    requires c.Ok() && 0 < inlen <= WAVE_HI && from <= c.Taps() * 65536 + RATIO_MAX
    requires Limit(inlen) <= x && (x < Limit(inlen) + c.ratio || x == from)
    ensures (inlen - 1) * 65536 % W32 == Limit(inlen)
    ensures (x - Limit(inlen) + c.Taps() * 65536) % W32 == x - Limit(inlen) + c.Taps() * 65536
    ensures c.Taps() < inlen ==> x - Limit(inlen) <= RATIO_MAX
  {
  }

  lemma StepFits(c: Config, inlen: nat, x: nat)
    requires c.Ok() && 0 < inlen <= WAVE_HI
    ensures (inlen - 1) * 65536 % W32 == Limit(inlen)
    ensures x < Limit(inlen) ==> (x + c.ratio) % W32 == x + c.ratio
  {
  }

  /** `WaveFinal` holds the outputs of any buffer that `WaveHi` holds. */
  lemma {:induction false} OutputsFit(c: Config, s: seq<int>, x: nat)
    requires c.Ok() && x >= c.Taps() * 65536 && |s| <= WAVE_HI
    ensures x < Limit(|s|) ==> |Outputs(c, s, x)| * RATIO_MIN < Limit(|s|) - x + RATIO_MIN
    ensures |Outputs(c, s, x)| <= WAVE_FINAL
    decreases Limit(|s|) - x
  {
    hide Output;
    if x < Limit(|s|) {
      OutputsFit(c, s, x + c.ratio);
    }
  }

  /** How far the main loop is: at `x`, with the outputs so far. */
  ghost predicate Progress(c: Config, buffer: seq<int>, from: nat, x: nat, done: seq<int>) {
    && c.Ok() && c.Taps() * 65536 <= from && c.Taps() * 65536 <= x && (x < Limit(|buffer|) + c.ratio || x == from)
    && done + Outputs(c, buffer, x) == Outputs(c, buffer, from) && Next(c, |buffer|, x) == Next(c, |buffer|, from)
    && |Outputs(c, buffer, from)| <= WAVE_FINAL
  }

  lemma ProgressStart(c: Config, buffer: seq<int>, from: nat)
    requires c.Ok() && c.Taps() * 65536 <= from && |buffer| <= WAVE_HI
    ensures Progress(c, buffer, from, from, [])
  {
    hide Outputs, Next;
    OutputsFit(c, buffer, from);
    assert [] + Outputs(c, buffer, from) == Outputs(c, buffer, from);
  }

  lemma ProgressStep(c: Config, buffer: seq<int>, from: nat, x: nat, done: seq<int>)
    requires Progress(c, buffer, from, x, done) && x < Limit(|buffer|)
    ensures |done| < WAVE_FINAL && c.Taps() <= x / 65536 + 1 && x / 65536 + 1 < |buffer|
    ensures Progress(c, buffer, from, x + c.ratio, done + [Output(c, buffer, x)])
  {
    hide Outputs, Next, Output;
    OutputsStep(c, buffer, x);
    var rest := Outputs(c, buffer, x + c.ratio);
    assert done + [Output(c, buffer, x)] + rest == done + ([Output(c, buffer, x)] + rest);
  }

  lemma ProgressEnd(c: Config, buffer: seq<int>, from: nat, x: nat, done: seq<int>)
    requires Progress(c, buffer, from, x, done) && x >= Limit(|buffer|)
    ensures done == Outputs(c, buffer, from) && x == Next(c, |buffer|, from)
    ensures c.Ok() && c.Taps() * 65536 <= x && (x < Limit(|buffer|) + c.ratio || x == from)
  {
    hide Outputs, Next;
    OutputsEnd(c, buffer, x);
    assert done + [] == done;
  }

  // ----- the program -----

  /** The statics of filter.cpp and sound.cpp that take part. */
  class Player {
    const c: Config
    const WaveHi: array<int>
    const WaveFinal: array<int>
    var mrindex: nat
    var soundtsoffs: nat
    var eq: Acc
    var lp: Acc

    /** What the object carries from frame to frame. */
    ghost function Held(): Carry
      reads this, WaveHi
      requires soundtsoffs <= WaveHi.Length
    {
      Carry(WaveHi[..soundtsoffs], mrindex, Tone(eq, lp))
    }

    ghost predicate Valid()
      reads this, WaveHi
    {
      && WaveHi.Length == WAVE_HI && WaveFinal.Length == WAVE_FINAL && WaveHi != WaveFinal
      && soundtsoffs <= WAVE_HI && CarryOk(c, Held()) && mrindex <= c.Taps() * 65536 + RATIO_MAX
    }

    constructor (c: Config)
      requires c.Ok()
      ensures Valid() && Held() == Fresh(c) && this.c == c && fresh(WaveHi) && fresh(WaveFinal)
    {
      this.c := c;
      WaveHi := new int[WAVE_HI](_ => 0);
      WaveFinal := new int[WAVE_FINAL](_ => 0);
      mrindex := (c.Taps() + 1) * 65536;
      soundtsoffs := 0;
      eq, lp := Acc(0, 0), Acc(0, 0);
    }

    /** The loop over the coefficients at one position. */
    method FilterAt(x: nat, inlen: nat) returns (v: int)
      requires inlen <= WaveHi.Length && c.Taps() <= x / 65536 + 1 && x / 65536 + 1 < inlen
      ensures v == Output(c, WaveHi[..inlen], x)
    {
      var acc, acc2, p := 0, 0, x / 65536;
      var k, d := c.Taps(), 0;
      ghost var buffer := WaveHi[..inlen];
      while k > 0
        invariant k + d == c.Taps()
        invariant acc == Dot(c.coeffs, buffer, p, d) && acc2 == Dot(c.coeffs, buffer, p + 1, d)
      {
        assert buffer[p - d] == WaveHi[p - d] && buffer[p + 1 - d] == WaveHi[p + 1 - d];
        acc := acc + WaveHi[p - c.Taps() + k] * c.coeffs[d] / 64;
        acc2 := acc2 + WaveHi[p - c.Taps() + 1 + k] * c.coeffs[d] / 64;
        k, d := k - 1, d + 1;
      }
      v := (acc * (65536 - x % 65536) + acc2 * (x % 65536)) / 0x800_0000;
    }

    /** `SexyFilter`, in place as its caller uses it. */
    method SexyFilter(count: nat)
      requires count <= WaveFinal.Length && c.equalizer.Equalizer?
      modifies WaveFinal, this`eq
      ensures (eq, WaveFinal[..count]) == Through(c.equalizer, old(eq), old(WaveFinal[..count]))
    {
      hide Through;
      ghost var was := WaveFinal[..];
      ThroughNothing(c.equalizer, eq);
      var i := 0;
      while i < count
        invariant i <= count
        invariant forall j :: i <= j < WaveFinal.Length ==> WaveFinal[j] == was[j]
        invariant (eq, WaveFinal[..i]) == Through(c.equalizer, old(eq), was[..i])
      {
        assert was[..i + 1] == was[..i] + [was[i]];
        ThroughOne(c.equalizer, old(eq), was[..i], was[i]);
        var ino := WaveFinal[i] * c.equalizer.vmul;
        var acc1 := eq.acc1 + (ino - eq.acc1) * c.equalizer.mul1 / 65536;
        var acc2 := eq.acc2 + (ino - acc1 - eq.acc2) * c.equalizer.mul2 / 65536;
        var t := (acc1 - ino + acc2) / 65536;
        if t > 32767 { t := 32767; }
        if t < -32768 { t := -32768; }
        ghost var done := WaveFinal[..i];
        eq := Acc(acc1, acc2);
        WaveFinal[i] := t;
        assert WaveFinal[..i + 1] == done + [t];
        i := i + 1;
      }
      assert was[..count] == old(WaveFinal[..count]);
    }

    /** `SexyFilter2`. */
    method SexyFilter2(count: nat)
      requires count <= WaveFinal.Length
      modifies WaveFinal, this`lp
      ensures (lp, WaveFinal[..count]) == Through(LowPass, old(lp), old(WaveFinal[..count]))
    {
      hide Through;
      ghost var was := WaveFinal[..];
      ThroughNothing(LowPass, lp);
      var i := 0;
      while i < count
        invariant i <= count
        invariant forall j :: i <= j < WaveFinal.Length ==> WaveFinal[j] == was[j]
        invariant (lp, WaveFinal[..i]) == Through(LowPass, old(lp), was[..i])
      {
        assert was[..i + 1] == was[..i] + [was[i]];
        ThroughOne(LowPass, old(lp), was[..i], was[i]);
        var dropcurrent := (WaveFinal[i] * 65536 - lp.acc1) / 8;
        ghost var done := WaveFinal[..i];
        lp := lp.(acc1 := lp.acc1 + dropcurrent);
        WaveFinal[i] := lp.acc1 / 65536;
        assert WaveFinal[..i + 1] == done + [lp.acc1 / 65536];
        i := i + 1;
      }
      assert was[..count] == old(WaveFinal[..count]);
    }

    /** The main loop: the index is a 32-bit unsigned number, and it does not wrap. */
    method Resample(inlen: nat) returns (count: nat)
      requires Valid() && 0 < inlen <= WAVE_HI
      modifies WaveFinal, this`mrindex
      ensures count <= WAVE_FINAL && WaveFinal[..count] == Outputs(c, WaveHi[..inlen], old(mrindex))
      ensures mrindex == Next(c, inlen, old(mrindex)) - Limit(inlen) + c.Taps() * 65536
      ensures c.Taps() < inlen ==> mrindex <= c.Taps() * 65536 + RATIO_MAX
    {
      hide Outputs, Next, Output, Progress;
      StepFits(c, inlen, 0);
      var max := (inlen - 1) * 65536 % W32;
      var x := mrindex;
      count := 0;
      ghost var buffer, from := WaveHi[..inlen], mrindex;
      ProgressStart(c, buffer, from);
      assert WaveFinal[..0] == [];
      while x < max
        invariant c.Taps() * 65536 <= x && mrindex == from && count <= WAVE_FINAL
        invariant WaveHi[..inlen] == buffer && Progress(c, buffer, from, x, WaveFinal[..count])
        decreases max - x
      {
        ProgressStep(c, buffer, from, x, WaveFinal[..count]);
        StepFits(c, inlen, x);
        var v := FilterAt(x, inlen);
        ghost var done := WaveFinal[..count];
        WaveFinal[count] := v;
        assert WaveFinal[..count + 1] == done + [v];
        count := count + 1;
        x := (x + c.ratio) % W32;
      }
      ProgressEnd(c, buffer, from, x, WaveFinal[..count]);
      IndexFits(c, inlen, from, x);
      mrindex := (x - max + c.Taps() * 65536) % W32;
    }

    /** `NeoFilterSound`, without the hook for expansion sound. */
    method NeoFilterSound(inlen: nat) returns (count: nat, leftover: nat)
      requires Valid() && 0 < inlen <= WAVE_HI
      modifies WaveFinal, this`mrindex, this`eq, this`lp
      ensures count <= WAVE_FINAL && leftover == c.Taps() + 1
      ensures c.Taps() < inlen ==> Valid()
      ensures mrindex == Next(c, inlen, old(mrindex)) - Limit(inlen) + c.Taps() * 65536
      ensures (Tone(eq, lp), WaveFinal[..count]) == Filtered(c, old(Tone(eq, lp)), Outputs(c, WaveHi[..inlen], old(mrindex)))
    {
      hide Outputs, Next, Through, Limit;
      count := Resample(inlen);
      leftover := c.Taps() + 1;
      SexyFilter(count);
      if c.lowpass {
        SexyFilter2(count);
      }
    }

    /** The `memmove` and the `memset` of `FlushEmulateSound`. */
    method ShiftDown(total: nat, left: nat)
      requires left <= total <= WaveHi.Length
      modifies WaveHi
      ensures WaveHi[..left] == old(WaveHi[..total])[total - left..]
      ensures forall k :: left <= k < WaveHi.Length ==> WaveHi[k] == 0
    {
      forall k | 0 <= k < left {
        WaveHi[k] := WaveHi[total - left + k];
      }
      forall k | left <= k < WaveHi.Length {
        WaveHi[k] := 0;
      }
    }

    /**
     `FlushEmulateSound` at high quality: the samples of the frame lie behind the `soundtsoffs` samples
     that were left over.  Without enough samples the copy to the front would start before the buffer.
     */
    method FlushEmulateSound(soundtimestamp: nat) returns (ok: bool, end: nat)
      requires Valid() && soundtsoffs + soundtimestamp <= WAVE_HI
      modifies this, WaveHi, WaveFinal
      ensures ok <==> soundtimestamp == 0 || old(soundtsoffs) + soundtimestamp > c.Taps()
      ensures ok ==> Valid() && end <= WAVE_FINAL
      ensures ok ==> var r := Feed(c, old(Held()), old(WaveHi[soundtsoffs..soundtsoffs + soundtimestamp]));
                     Held() == r.0 && WaveFinal[..end] == r.1
      ensures ok && soundtimestamp > 0 ==> forall k :: soundtsoffs <= k < WAVE_HI ==> WaveHi[k] == 0
    {
      hide Outputs, Next, Filtered, Limit;
      if soundtimestamp == 0 {
        assert old(WaveHi[soundtsoffs..soundtsoffs + soundtimestamp]) == [];
        return true, 0;
      }
      var total := soundtsoffs + soundtimestamp;
      ghost var buffer := WaveHi[..total];
      assert buffer == old(WaveHi[..soundtsoffs]) + old(WaveHi[soundtsoffs..soundtsoffs + soundtimestamp]);
      var left: nat;
      end, left := NeoFilterSound(total);
      if left > total {
        return false, end;
      }
      ok := true;
      ShiftDown(total, left);
      soundtsoffs := left;
    }
  }
}
