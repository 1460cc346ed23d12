/**
 Whole transactions with the EEPROM (fceux-am/src/boards/bandai.cpp, lines 69-161): what a master
 writes with one transaction it reads back with the next.
 */
module EepromTransfer {
  import opened Bits
  import opened Eeprom

  // ----- what the master puts on the wires -----

  /** A write to the port that sets the two lines. */
  function Line(sda: Bit, scl: Bit): Byte {
    64 * sda + 32 * scl
  }

  /** What a master does with the wires: START, STOP, and one clock with the data line at `v`. */
  datatype Signal = Begin | End | Send(v: Bit)

  function Lines(x: Signal): seq<Byte> {
    match x
    case Begin => [Line(1, 0), Line(1, 1), Line(0, 1), Line(0, 0)]
    case End => [Line(0, 0), Line(0, 1), Line(1, 1)]
    case Send(v) => [Line(v, 0), Line(v, 1), Line(v, 0)]
  }

  /** The port writes of a sequence of signals. */
  function Writes(xs: seq<Signal>): seq<Byte> {
    if xs == [] then [] else Lines(xs[0]) + Writes(xs[1..])
  }

  function Sends(bits: seq<Bit>): (xs: seq<Signal>)
    ensures |xs| == |bits|
  {
    if bits == [] then [] else [Send(bits[0])] + Sends(bits[1..])
  }

  /** The bits of a byte, the highest first. */
  function ByteBits(v: Byte): (bits: seq<Bit>)
    ensures |bits| == 8
  {
    [v / 128, v / 64 % 2, v / 32 % 2, v / 16 % 2, v / 8 % 2, v / 4 % 2, v / 2 % 2, v % 2]
  }

  /** A byte and the clock of its acknowledge, for which the master lets the line go high. */
  function Framed(v: Byte): (bits: seq<Bit>)
    ensures |bits| == 9
  {
    ByteBits(v) + [1]
  }

  function AllFramed(bytes: seq<Byte>): (bits: seq<Bit>)
    ensures |bits| == 9 * |bytes|
  {
    if bytes == [] then [] else AllFramed(bytes[..|bytes| - 1]) + Framed(bytes[|bytes| - 1])
  }

  /** An X24C02 is given its device number and then the word address, an X24C01 only the latter. */
  function Header(m: Model, device: nat, word: Byte, read: Bit): (bits: seq<Bit>)
    requires device < 128 && (m.X24C01? ==> word < 128)
    ensures |bits| == if m.X24C02? && read == 0 then 18 else 9
  {
    var first := if m.X24C02? then device else word;
    if m.X24C02? && read == 0 then Framed(2 * first) + Framed(word) else Framed(2 * first + read)
  }

  function WriteTransaction(header: seq<Bit>, bytes: seq<Byte>): seq<Signal> {
    [Begin] + Sends(header + AllFramed(bytes)) + [End]
  }

  /** An X24C02 gets the word address by a write that is broken off. */
  function ReadCommand(m: Model, write: seq<Bit>, read: seq<Bit>): seq<Signal> {
    if m.X24C02? then [Begin] + Sends(write) + [Begin] + Sends(read) else [Begin] + Sends(read)
  }

  /** Clocks `k` bits out of the chip; the line is sampled while the clock is high. */
  function TakeBits(m: Model, c: Chip, k: nat): (r: (Chip, seq<Bit>))
    requires Sized(c)
    ensures Sized(r.0) && |r.1| == k
  {
    if k == 0 then (c, [])
    else
      var before := TakeBits(m, c, k - 1);
      var high := Run(m, before.0, [Line(1, 0), Line(1, 1)]);
      (Run(m, high, [Line(1, 0)]), before.1 + [high.out])
  }

  function TakeBytes(m: Model, c: Chip, n: nat): (r: (Chip, seq<Byte>))
    requires Sized(c)
    ensures Sized(r.0) && |r.1| == n
  {
    if n == 0 then (c, [])
    else
      var before := TakeBytes(m, c, n - 1);
      var byte := TakeBits(m, before.0, 8);
      (Run(m, byte.0, Lines(Send(0))), before.1 + [Short(byte.1)])
  }

  // ----- what the chip should do with it -----

  /** The memory with `bytes` put in from `base` on, around the end. */
  function Poke(data: seq<Byte>, base: Byte, bytes: seq<Byte>): (d: seq<Byte>)
    requires |data| == 256
    ensures |d| == 256
  {
    if bytes == [] then data
    else Poke(data, base, bytes[..|bytes| - 1])[(base + |bytes| - 1) % 256 := bytes[|bytes| - 1]]
  }

  lemma WrapIndex(base: Byte, i: nat)
    requires i < 256
    ensures (base + i) % 256 == if base + i < 256 then base + i else base + i - 256
  {
  }

  lemma DistanceIs(base: Byte, a: Byte)
    ensures (a - base) % 256 == if a >= base then a - base else a - base + 256
  {
  }

  /** Up to 256 bytes do not get into each other's way, and nothing else changes. */
  lemma {:induction false} PokeCells(data: seq<Byte>, base: Byte, bytes: seq<Byte>)
    requires |data| == 256 && |bytes| <= 256
    ensures forall i :: 0 <= i < |bytes| ==> Poke(data, base, bytes)[(base + i) % 256] == bytes[i]
    ensures forall a :: 0 <= a < 256 && |bytes| <= (a - base) % 256 ==> Poke(data, base, bytes)[a] == data[a]
  {
    if bytes != [] {
      var n := |bytes| - 1;
      PokeCells(data, base, bytes[..n]);
      var before, after := Poke(data, base, bytes[..n]), Poke(data, base, bytes);
      WrapIndex(base, n);
      hide Poke;
      forall i | 0 <= i < |bytes|
        ensures after[(base + i) % 256] == bytes[i]
      {
        WrapIndex(base, i);
        if i < n {
          assert before[(base + i) % 256] == bytes[i];
        }
      }
      forall a | 0 <= a < 256 && |bytes| <= (a - base) % 256
        ensures after[a] == data[a]
      {
        DistanceIs(base, a);
        assert before[a] == data[a];
      }
    }
  }

  // ----- sequences of port writes -----

  lemma {:induction false} RunAppend(m: Model, c: Chip, ws: seq<Byte>, vs: seq<Byte>)
    requires Sized(c)
    ensures Run(m, c, ws + vs) == Run(m, Run(m, c, ws), vs)
    decreases |ws|
  {
    hide Step;
    if ws == [] {
      assert ws + vs == vs;
    } else {
      assert (ws + vs)[1..] == ws[1..] + vs;
      RunAppend(m, Step(m, c, ws[0]), ws[1..], vs);
    }
  }

  lemma LineLevels(sda: Bit, scl: Bit)
    ensures SdaOf(Line(sda, scl)) == sda && SclOf(Line(sda, scl)) == scl
  {
    assert SdaOf(0) == 0 && SclOf(0) == 0 && SdaOf(32) == 0 && SclOf(32) == 1;
    assert SdaOf(64) == 1 && SclOf(64) == 0 && SdaOf(96) == 1 && SclOf(96) == 1;
    hide SdaOf, SclOf;
    assert Line(sda, scl) in {0, 32, 64, 96};
  }

  /** One write to the port: what it means, and the lines after it. */
  lemma OneWrite(m: Model, c: Chip, b: Bus, sda: Bit, scl: Bit)
    requires Matches(m, c, b)
    ensures var r := Run(m, c, [Line(sda, scl)]);
            Matches(m, r, b.On(m, EventOf(c.sda, c.scl, sda, scl))) && r.sda == sda && r.scl == scl
  {
    hide Matches, Bus.On, Line;
    MatchesOk(m, c, b);
    LineLevels(sda, scl);
    StepMatches(m, c, b, Line(sda, scl));
    assert [Line(sda, scl)][1..] == [];
    StepLines(m, c, Line(sda, scl));
    hide Step;
    assert Run(m, c, [Line(sda, scl)]) == Step(m, c, Line(sda, scl));
  }

  lemma StepLines(m: Model, c: Chip, w: Byte)
    requires Sized(c)
    ensures Step(m, c, w).sda == SdaOf(w) && Step(m, c, w).scl == SclOf(w)
  {
    hide OnEvent;
  }

  /** One clock, up to its high phase and to its end. */
  lemma SendMatches(m: Model, c: Chip, b: Bus, v: Bit)
    requires Matches(m, c, b)
    ensures var high := Run(m, c, [Line(v, 0), Line(v, 1)]);
            && Matches(m, high, b.On(m, Clock(v))) && high.sda == v && high.scl == 1
            && Matches(m, Run(m, high, [Line(v, 0)]), b.On(m, Clock(v)))
            && Run(m, c, Lines(Send(v))) == Run(m, high, [Line(v, 0)])
  {
    hide Matches, Run, Line, Bus.On;
    MatchesOk(m, c, b);
    QuietIsNothing(m, b);
    OneWrite(m, c, b, v, 0);
    OneWrite(m, Run(m, c, [Line(v, 0)]), b, v, 1);
    assert [Line(v, 0)] + [Line(v, 1)] == [Line(v, 0), Line(v, 1)];
    RunAppend(m, c, [Line(v, 0)], [Line(v, 1)]);
    var high := Run(m, c, [Line(v, 0), Line(v, 1)]);
    QuietIsNothing(m, b.On(m, Clock(v)));
    OneWrite(m, high, b.On(m, Clock(v)), v, 0);
    assert [Line(v, 0), Line(v, 1)] + [Line(v, 0)] == Lines(Send(v));
    RunAppend(m, c, [Line(v, 0), Line(v, 1)], [Line(v, 0)]);
  }

  lemma QuietIsNothing(m: Model, b: Bus)
    requires b.Ok()
    ensures b.On(m, Quiet) == b
  {
  }

  /** What a signal means: the clock that precedes a START or STOP still belongs to what went before. */
  function After(m: Model, b: Bus, x: Signal): (r: Bus)
    requires b.Ok()
    ensures r.Ok()
  {
    match x
    case Begin => b.On(m, Clock(1)).On(m, Start)
    case End => b.On(m, Clock(0)).On(m, Stop)
    case Send(v) => b.On(m, Clock(v))
  }

  function AfterAll(m: Model, b: Bus, xs: seq<Signal>): (r: Bus)
    requires b.Ok()
    ensures r.Ok()
    decreases |xs|
  {
    if xs == [] then b else AfterAll(m, After(m, b, xs[0]), xs[1..])
  }

  lemma BeginMatches(m: Model, c: Chip, b: Bus, x: Signal)
    requires Matches(m, c, b) && x.Begin?
    ensures Matches(m, Run(m, c, Lines(x)), After(m, b, x))
  {
    hide Matches, Run, Line, Bus.On;
    MatchesOk(m, c, b);
    SendMatches(m, c, b, 1);
    var c2, b1 := Run(m, c, [Line(1, 0), Line(1, 1)]), b.On(m, Clock(1));
    OneWrite(m, c2, b1, 0, 1);
    OneWrite(m, Run(m, c2, [Line(0, 1)]), b1.On(m, Start), 0, 0);
    QuietIsNothing(m, b1.On(m, Start));
    assert Lines(x) == ([Line(1, 0), Line(1, 1)] + [Line(0, 1)]) + [Line(0, 0)];
    RunAppend(m, c, [Line(1, 0), Line(1, 1)], [Line(0, 1)]);
    RunAppend(m, c, [Line(1, 0), Line(1, 1)] + [Line(0, 1)], [Line(0, 0)]);
  }

  lemma EndMatches(m: Model, c: Chip, b: Bus, x: Signal)
    requires Matches(m, c, b) && x.End?
    ensures Matches(m, Run(m, c, Lines(x)), After(m, b, x))
  {
    hide Matches, Run, Line, Bus.On;
    MatchesOk(m, c, b);
    SendMatches(m, c, b, 0);
    OneWrite(m, Run(m, c, [Line(0, 0), Line(0, 1)]), b.On(m, Clock(0)), 1, 1);
    assert Lines(x) == [Line(0, 0), Line(0, 1)] + [Line(1, 1)];
    RunAppend(m, c, [Line(0, 0), Line(0, 1)], [Line(1, 1)]);
  }

  lemma {:induction false} SignalsMatch(m: Model, c: Chip, b: Bus, xs: seq<Signal>)
    requires Matches(m, c, b)
    ensures Matches(m, Run(m, c, Writes(xs)), AfterAll(m, b, xs))
    decreases |xs|
  {
    hide Matches, Run, Lines, After;
    MatchesOk(m, c, b);
    if xs == [] {
      RunNothing(m, c);
    } else {
      SignalMatches(m, c, b, xs[0]);
      SignalsMatch(m, Run(m, c, Lines(xs[0])), After(m, b, xs[0]), xs[1..]);
      RunAppend(m, c, Lines(xs[0]), Writes(xs[1..]));
    }
  }

  lemma SignalMatches(m: Model, c: Chip, b: Bus, x: Signal)
    requires Matches(m, c, b)
    ensures Matches(m, Run(m, c, Lines(x)), After(m, b, x))
  {
    hide Matches, Run, Lines;
    MatchesOk(m, c, b);
    match x {
      case Begin => BeginMatches(m, c, b, x);
      case End => EndMatches(m, c, b, x);
      case Send(v) => SendMatches(m, c, b, v);
    }
  }

  lemma RunNothing(m: Model, c: Chip)
    requires Sized(c)
    ensures Run(m, c, []) == c
  {
  }

  lemma {:induction false} AfterAppend(m: Model, b: Bus, xs: seq<Signal>, ys: seq<Signal>)
    requires b.Ok()
    ensures AfterAll(m, b, xs + ys) == AfterAll(m, AfterAll(m, b, xs), ys)
    decreases |xs|
  {
    hide After;
    if xs == [] {
      assert xs + ys == ys;
    } else {
      assert (xs + ys)[1..] == xs[1..] + ys;
      AfterAppend(m, After(m, b, xs[0]), xs[1..], ys);
    }
  }

  lemma {:induction false} AfterSends(m: Model, b: Bus, bits: seq<Bit>)
    requires b.Ok() && b.listening
    ensures AfterAll(m, b, Sends(bits)) == b.(bits := b.bits + bits)
    decreases |bits|
  {
    if bits == [] {
      assert b.bits + bits == b.bits;
    } else {
      OneMore(m, b, bits[0]);
      AfterOne(m, b, bits[0], Sends(bits[1..]));
      AfterSends(m, b.(bits := b.bits + [bits[0]]), bits[1..]);
      assert b.bits + [bits[0]] + bits[1..] == b.bits + bits;
    }
  }

  lemma AfterOne(m: Model, b: Bus, v: Bit, xs: seq<Signal>)
    requires b.Ok() && b.listening
    ensures AfterAll(m, b, [Send(v)] + xs) == AfterAll(m, b.(bits := b.bits + [v]), xs)
  {
    assert ([Send(v)] + xs)[1..] == xs;
  }

  // ----- what the bits mean -----

  lemma Append1(bits: seq<Bit>, v: Bit)
    ensures Val(bits + [v]) == 2 * Val(bits) + v
  {
    assert (bits + [v])[..|bits|] == bits;
  }

  /** The bits of a byte spell the byte, and the first seven its half. */
  lemma ByteBitsValue(v: Byte)
    ensures Short(ByteBits(v)) == v && Short(ByteBits(v)[..7]) == v / 2
  {
    hide Val;
    var b7, b6, b5, b4, b3, b2, b1, b0 := v / 128, v / 64 % 2, v / 32 % 2, v / 16 % 2, v / 8 % 2, v / 4 % 2, v / 2 % 2, v % 2;
    Append1([], b7);
    Append1([b7], b6);
    Append1([b7, b6], b5);
    Append1([b7, b6, b5], b4);
    Append1([b7, b6, b5, b4], b3);
    Append1([b7, b6, b5, b4, b3], b2);
    Append1([b7, b6, b5, b4, b3, b2], b1);
    Append1([b7, b6, b5, b4, b3, b2, b1], b0);
    ValNone();
    assert [] + [b7] == [b7] && [b7] + [b6] == [b7, b6] && [b7, b6] + [b5] == [b7, b6, b5];
    assert [b7, b6, b5] + [b4] == [b7, b6, b5, b4] && [b7, b6, b5, b4] + [b3] == [b7, b6, b5, b4, b3];
    assert [b7, b6, b5, b4, b3] + [b2] == [b7, b6, b5, b4, b3, b2] && [b7, b6, b5, b4, b3, b2] + [b1] == [b7, b6, b5, b4, b3, b2, b1];
    assert [b7, b6, b5, b4, b3, b2, b1] + [b0] == ByteBits(v);
    assert ByteBits(v)[..7] == [b7, b6, b5, b4, b3, b2, b1];
    Halves(v);
  }

  lemma ValNone()
    ensures Val([]) == 0
  {
  }

  lemma Halves(v: Byte)
    ensures v / 2 == 64 * (v / 128) + 32 * (v / 64 % 2) + 16 * (v / 32 % 2) + 8 * (v / 16 % 2) + 4 * (v / 8 % 2) + 2 * (v / 4 % 2) + v / 2 % 2
    ensures v == 2 * (v / 2) + v % 2
  {
    assert v / 2 / 2 == v / 4;
    assert v / 4 / 2 == v / 8;
    assert v / 8 / 2 == v / 16;
    assert v / 16 / 2 == v / 32;
    assert v / 32 / 2 == v / 64;
    assert v / 64 / 2 == v / 128;
  }

  /** The bytes that follow a header are what is stored. */
  lemma {:induction false} StoredIsPoke(data: seq<Byte>, base: Byte, header: seq<Bit>, bytes: seq<Byte>, tail: seq<Bit>)
    requires |data| == 256
    ensures Stored(data, base, header + AllFramed(bytes) + tail, |header|, |bytes|) == Poke(data, base, bytes)
    decreases |bytes|
  {
    hide Short, Framed;
    if bytes != [] {
      var n := |bytes| - 1;
      var init, last := bytes[..n], bytes[n];
      StoredIsPoke(data, base, header, init, Framed(last) + tail);
      var bits := header + AllFramed(bytes) + tail;
      assert bits == header + AllFramed(init) + (Framed(last) + tail);
      var i := |header| + 9 * n;
      assert bits[i..i + 9] == Framed(last);
      assert bits[i..i + 8] == Framed(last)[..8];
      FramedByte(last);
    }
  }

  lemma FramedByte(v: Byte)
    ensures Framed(v)[..8] == ByteBits(v) && Short(Framed(v)[..8]) == v && Framed(v)[7] == v % 2
    ensures Framed(v)[..7] == ByteBits(v)[..7] && Short(Framed(v)[..7]) == v / 2
  {
    hide Short;
    ByteBitsValue(v);
    assert Framed(v)[..8] == ByteBits(v);
    assert Framed(v)[..7] == ByteBits(v)[..7];
  }

  /** What a header announces. */
  lemma HeaderMeaning(m: Model, device: nat, word: Byte, read: Bit, data: seq<Byte>, at: Byte, more: seq<Bit>)
    requires |data| == 256 && device < 128 && (m.X24C01? ==> word < 128)
    ensures var header := Header(m, device, word, read);
            var b := Bus(data, at, true, header + more);
            && b.IsRead() == (read == 1) && b.IsWrite() == (read == 0) && (read == 0 ==> b.FirstData(m) == |header|)
            && b.Base(m) == (if m.X24C02? && read == 1 then at else word)
  {
    hide Short, Framed;
    var first := if m.X24C02? then device else word;
    var header := Header(m, device, word, read);
    var bits := header + more;
    FramedByte(2 * first + read);
    FramedByte(word);
    assert bits[7] == Framed(2 * first + read)[7];
    assert bits[..7] == Framed(2 * first + read)[..7];
    if m.X24C02? && read == 0 {
      assert bits[9..17] == Framed(word)[..8];
    }
  }

  // ----- the write transaction -----

  lemma AfterBegin(m: Model, b: Bus)
    requires b.Ok() && !b.listening
    ensures After(m, b, Begin) == Bus(b.data, b.word, true, [])
  {
    hide Short, Stored;
  }

  lemma {:induction false} AfterFrame(m: Model, b: Bus, bits: seq<Bit>)
    requires b.Ok() && !b.listening
    ensures AfterAll(m, b, [Begin] + Sends(bits)) == Bus(b.data, b.word, true, bits)
  {
    hide After, Sends;
    AfterBegin(m, b);
    assert ([Begin] + Sends(bits))[1..] == Sends(bits);
    AfterSends(m, Bus(b.data, b.word, true, []), bits);
    assert [] + bits == bits;
  }

  lemma AfterLast(m: Model, b: Bus, x: Signal)
    requires b.Ok()
    ensures AfterAll(m, b, [x]) == After(m, b, x)
  {
    hide After;
    assert [x][1..] == [];
  }

  /** The memory and the word address after a write transaction. */
  lemma WriteStores(m: Model, b: Bus, device: nat, word: Byte, bytes: seq<Byte>)
    requires b.Ok() && !b.listening && device < 128 && (m.X24C01? ==> word < 128)
    ensures AfterAll(m, b, WriteTransaction(Header(m, device, word, 0), bytes))
            == Bus(Poke(b.data, word, bytes), (word + |bytes|) % 256, false, [])
  {
    hide *;
    WriteMeaning(m, b, device, word, bytes);
    AfterWrite(m, b, Header(m, device, word, 0), bytes);
  }

  lemma WriteMeaning(m: Model, b: Bus, device: nat, word: Byte, bytes: seq<Byte>)
    requires b.Ok() && device < 128 && (m.X24C01? ==> word < 128)
    ensures var b' := Bus(b.data, b.word, true, Header(m, device, word, 0) + AllFramed(bytes) + [0]);
            b'.Ok() && b'.Data(m) == Poke(b.data, word, bytes) && b'.Word(m) == (word + |bytes|) % 256
  {
    hide Short, AllFramed, Header, Stored, Poke, Bus.Data, Bus.Word, Bus.Base, Bus.FirstData, Bus.IsWrite, Bus.IsRead;
    var header := Header(m, device, word, 0);
    HeaderMeaning(m, device, word, 0, b.data, b.word, AllFramed(bytes) + [0]);
    StoredIsPoke(b.data, word, header, bytes, [0]);
    assert header + (AllFramed(bytes) + [0]) == header + AllFramed(bytes) + [0];
    StopsWith(m, Bus(b.data, b.word, true, header + AllFramed(bytes) + [0]), |header|, |bytes|);
  }

  lemma AfterWrite(m: Model, b: Bus, header: seq<Bit>, bytes: seq<Byte>)
    requires b.Ok() && !b.listening
    ensures var b' := Bus(b.data, b.word, true, header + AllFramed(bytes) + [0]);
            AfterAll(m, b, WriteTransaction(header, bytes)) == Bus(b'.Data(m), b'.Word(m), false, [])
  {
    hide AfterAll, After, AllFramed, Sends, Bus.Data, Bus.Word, Bus.On;
    var bits := header + AllFramed(bytes);
    var b1 := Bus(b.data, b.word, true, bits);
    AfterFrame(m, b, bits);
    AfterAppend(m, b, [Begin] + Sends(bits), [End]);
    AfterLast(m, b1, End);
    AfterEnd(m, b1);
  }

  lemma AfterEnd(m: Model, b: Bus)
    requires b.Ok() && b.listening
    ensures var b' := b.(bits := b.bits + [0]);
            After(m, b, End) == Bus(b'.Data(m), b'.Word(m), false, [])
  {
    hide Bus.Data, Bus.Word;
  }

  lemma StopsWith(m: Model, b: Bus, f: nat, k: nat)
    requires b.Ok() && b.IsWrite() && b.FirstData(m) == f && |b.bits| == f + 9 * k + 1
    ensures b.Data(m) == Stored(b.data, b.Base(m), b.bits, f, k) && b.Word(m) == (b.Base(m) + k) % 256
  {
    hide Short, Stored, Bus.Base, Bus.FirstData;
    CompleteWhole(f, k);
  }

  lemma CompleteWhole(f: nat, k: nat)
    ensures Complete(f + 9 * k + 1, f) == k
  {
  }

  // ----- the read transaction -----

  /** The state of the bus when the chip is about to send the cell at `word`. */
  ghost predicate ReadyToSend(m: Model, b: Bus, data: seq<Byte>, word: Byte) {
    && b.Ok() && b.listening && b.IsRead() && b.data == data && b.Base(m) == word && |b.bits| == 9
  }

  lemma ReadPrepares(m: Model, b: Bus, device: nat, word: Byte)
    requires b.Ok() && !b.listening && device < 128 && (m.X24C01? ==> word < 128)
    ensures ReadyToSend(m, AfterAll(m, b, ReadCommand(m, Header(m, device, word, 0), Header(m, device, word, 1))), b.data, word)
  {
    var write, read := Header(m, device, word, 0), Header(m, device, word, 1);
    HeaderMeaning(m, device, word, 1, b.data, b.word, []);
    HeaderMeaning(m, device, word, 1, b.data, word, []);
    HeaderMeaning(m, device, word, 0, b.data, b.word, [1]);
    hide Short, Header, Sends, AfterAll, Stored, Bus.Base;
    assert read + [] == read;
    if m.X24C02? {
      AfterFrame(m, b, write);
      var b1 := Bus(b.data, b.word, true, write);
      var b2 := Bus(b.data, word, true, []);
      Restarts(m, b1, word);
      assert [Begin] + Sends(write) + [Begin] + Sends(read) == ([Begin] + Sends(write)) + ([Begin] + Sends(read));
      AfterAppend(m, b, [Begin] + Sends(write), [Begin] + Sends(read));
      AfterAppend(m, b1, [Begin], Sends(read));
      AfterLast(m, b1, Begin);
      AfterSends(m, b2, read);
      assert [] + read == read;
    } else {
      AfterFrame(m, b, read);
    }
  }

  lemma Restarts(m: Model, b: Bus, word: Byte)
    requires b.Ok() && b.listening && m.X24C02? && |b.bits| == 18
    requires var b' := b.(bits := b.bits + [1]);
             b'.IsWrite() && b'.Base(m) == word
    ensures After(m, b, Begin) == Bus(b.data, word, true, [])
  {
    hide Short, Bus.Base;
    assert b.On(m, Clock(1)) == b.(bits := b.bits + [1]);
    assert Complete(19, 18) == 0;
  }

  // ----- reading -----

  /** One more clock while reading. */
  lemma ReadClock(m: Model, b: Bus, v: Bit)
    requires b.Ok() && b.listening && b.IsRead() && |b.bits| >= 9 && |b.bits| % 9 != 8
    ensures var b' := b.(bits := b.bits + [v]);
            b.On(m, Clock(v)) == b' && b'.IsRead() && b'.Base(m) == b.Base(m) && Cell(m, b') == Cell(m, b)
  {
    hide Short, Cell, Bus.Base;
    SettledBase(m, b, v);
    SameCell(m, b, b.On(m, Clock(v)));
  }

  lemma SentBit(m: Model, c: Chip, b: Bus)
    requires Matches(m, c, b) && b.listening && b.IsRead() && |b.bits| >= 9 && |b.bits| % 9 > 0
    ensures c.out == Cell(m, b) * Pow2(|b.bits| % 9 - 1) % 256 / 128
  {
    hide Short, Cell, Pow2, Bus.Base, Bus.Data, Bus.Word;
  }

  function Ones(k: nat): (bits: seq<Bit>)
    ensures |bits| == k
  {
    if k == 0 then [] else Ones(k - 1) + [1]
  }

  lemma AppendValue(x: nat, outs: seq<Bit>, out: Bit)
    requires Val(outs) == x / 256 && out == x % 256 / 128
    ensures Val(outs + [out]) == 2 * x / 256
  {
    hide Val;
    Append1(outs, out);
  }

  lemma {:induction false} TakeBitsMatch(m: Model, c: Chip, b: Bus, k: nat)
    requires Matches(m, c, b) && b.listening && b.IsRead() && |b.bits| >= 9 && |b.bits| % 9 == 0 && k <= 8
    ensures var r := TakeBits(m, c, k);
            var b' := b.(bits := b.bits + Ones(k));
            && Matches(m, r.0, b') && b'.IsRead() && b'.Base(m) == b.Base(m) && Cell(m, b') == Cell(m, b)
            && Val(r.1) == Cell(m, b) * Pow2(k) / 256
    decreases k
  {
    hide Matches, Run, Line, Short, Cell, Bus.Base, Bus.On, Val, TakeBits, Pow2, Ones;
    MatchesOk(m, c, b);
    if k == 0 {
      TakeNone(m, c);
      assert b.bits + [] == b.bits;
      ValNone();
      NoBits(Cell(m, b));
    } else {
      TakeBitsMatch(m, c, b, k - 1);
      var before := TakeBits(m, c, k - 1);
      var b1 := b.(bits := b.bits + Ones(k - 1));
      MatchesOk(m, before.0, b1);
      PositionIs(|b.bits|, k - 1);
      PositionIs(|b.bits|, k);
      SendMatches(m, before.0, b1, 1);
      ReadClock(m, b1, 1);
      TakeOne(m, c, k);
      var b2 := b.(bits := b.bits + Ones(k));
      assert b1.bits + [1] == b2.bits;
      var high := Run(m, before.0, [Line(1, 0), Line(1, 1)]);
      SentBit(m, high, b2);
      AppendValue(Cell(m, b) * Pow2(k - 1), before.1, high.out);
      TwicePower(Cell(m, b), k);
    }
  }

  lemma TakeNone(m: Model, c: Chip)
    requires Sized(c)
    ensures TakeBits(m, c, 0) == (c, []) && Ones(0) == []
  {
  }

  lemma TakeOne(m: Model, c: Chip, k: nat)
    requires Sized(c) && k > 0
    ensures var before := TakeBits(m, c, k - 1);
            var high := Run(m, before.0, [Line(1, 0), Line(1, 1)]);
            TakeBits(m, c, k) == (Run(m, high, [Line(1, 0)]), before.1 + [high.out])
    ensures Ones(k) == Ones(k - 1) + [1]
  {
    hide Run, Line;
  }

  lemma TwicePower(x: nat, k: nat)
    requires k > 0
    ensures 2 * (x * Pow2(k - 1)) == x * Pow2(k)
  {
  }

  lemma PositionIs(n: nat, k: nat)
    requires n % 9 == 0 && k <= 8
    ensures (n + k) % 9 == k
  {
  }

  lemma NoBits(x: Byte)
    ensures x * Pow2(0) / 256 == 0
  {
  }

  /** Nine clocks read the byte and move on to the next one. */
  lemma TakeByteMatches(m: Model, c: Chip, b: Bus)
    requires Matches(m, c, b) && b.listening && b.IsRead() && |b.bits| >= 9 && |b.bits| % 9 == 0
    ensures var byte := TakeBits(m, c, 8);
            var b' := b.(bits := b.bits + Ones(8) + [0]);
            && Matches(m, Run(m, byte.0, Lines(Send(0))), b') && b'.IsRead() && b'.Base(m) == b.Base(m)
            && Short(byte.1) == Cell(m, b)
  {
    hide Matches, Run, Lines, Cell, Bus.Base, Bus.On, Val, TakeBits, Pow2, Ones, Short;
    MatchesOk(m, c, b);
    TakeBitsMatch(m, c, b, 8);
    EightBits(Cell(m, b));
    var b1 := b.(bits := b.bits + Ones(8));
    MatchesOk(m, TakeBits(m, c, 8).0, b1);
    AckClock(m, b1, 0);
    SendMatches(m, TakeBits(m, c, 8).0, b1, 0);
    ShortIsVal(TakeBits(m, c, 8).1);
  }

  lemma AckClock(m: Model, b: Bus, v: Bit)
    requires b.Ok() && b.listening && b.IsRead()
    ensures var b' := b.(bits := b.bits + [v]);
            b.On(m, Clock(v)) == b' && b'.IsRead() && b'.Base(m) == b.Base(m)
  {
    hide Short, Bus.Base;
    SettledBase(m, b, v);
  }

  lemma ShortIsVal(bits: seq<Bit>)
    requires |bits| <= 8
    ensures Short(bits) == Val(bits)
  {
  }

  lemma EightBits(x: Byte)
    ensures x * Pow2(8) / 256 == x
  {
    WidthPowers();
    assert x * 256 / 256 == x;
  }

  lemma {:induction false} TakeBytesMatch(m: Model, c: Chip, b: Bus, word: Byte, n: nat) returns (b': Bus)
    requires Matches(m, c, b) && ReadyToSend(m, b, b.data, word)
    ensures var r := TakeBytes(m, c, n);
            && Matches(m, r.0, b') && b'.data == b.data && b'.listening && b'.IsRead() && b'.Base(m) == word
            && |b'.bits| == 9 + 9 * n
            && forall i :: 0 <= i < n ==> r.1[i] == b.data[(word + i) % 256]
    decreases n
  {
    hide Matches, Run, Lines, Bus.Base, Val, TakeBits, Pow2, Ones, Short, Cell;
    MatchesOk(m, c, b);
    if n == 0 {
      b' := b;
    } else {
      var b1 := TakeBytesMatch(m, c, b, word, n - 1);
      var c1 := TakeBytes(m, c, n - 1).0;
      MatchesOk(m, c1, b1);
      TakeByteMatches(m, c1, b1);
      CellIs(m, b1, n - 1);
      b' := b1.(bits := b1.bits + Ones(8) + [0]);
    }
  }

  lemma CellIs(m: Model, b: Bus, n: nat)
    requires b.Ok() && |b.bits| == 9 + 9 * n
    ensures Cell(m, b) == b.data[(b.Base(m) + n) % 256]
  {
    hide Short, Bus.Base;
  }

  // ----- together -----

  /** What a session of a write and a read of as many bytes does: the chip between and after, and what is read. */
  function Session(m: Model, c: Chip, device: nat, word: Byte, bytes: seq<Byte>): (Chip, Chip, seq<Byte>)
    requires Sized(c) && device < 128 && (m.X24C01? ==> word < 128)
  {
    var write, read := Header(m, device, word, 0), Header(m, device, word, 1);
    var written := Run(m, c, Writes(WriteTransaction(write, bytes)));
    var r := TakeBytes(m, Run(m, written, Writes(ReadCommand(m, write, read))), |bytes|);
    (written, r.0, r.1)
  }

  /**
   On an idle bus, a write of up to 256 bytes puts them into the cells from `word` on and touches no other
   cell, and a read from `word` on gives them back in order and changes nothing.
   */
  lemma WriteThenRead(m: Model, c: Chip, b: Bus, device: nat, word: Byte, bytes: seq<Byte>)
    requires Matches(m, c, b) && !b.listening && device < 128 && (m.X24C01? ==> word < 128) && |bytes| <= 256
    ensures var s := Session(m, c, device, word, bytes);
            && s.2 == bytes
            && s.0.data == s.1.data == Poke(c.data, word, bytes)
  {
    hide Matches, Run, Writes, TakeBytes, AfterAll, Header, WriteTransaction, ReadCommand, Poke, Short;
    MatchesOk(m, c, b);
    var write, read := Header(m, device, word, 0), Header(m, device, word, 1);
    SignalsMatch(m, c, b, WriteTransaction(write, bytes));
    WriteStores(m, b, device, word, bytes);
    var c1, b1 := Run(m, c, Writes(WriteTransaction(write, bytes))), Bus(Poke(b.data, word, bytes), (word + |bytes|) % 256, false, []);
    MatchesOk(m, c1, b1);
    SignalsMatch(m, c1, b1, ReadCommand(m, write, read));
    ReadPrepares(m, b1, device, word);
    var c2, b2 := Run(m, c1, Writes(ReadCommand(m, write, read))), AfterAll(m, b1, ReadCommand(m, write, read));
    MatchesOk(m, c2, b2);
    var b3 := TakeBytesMatch(m, c2, b2, word, |bytes|);
    var r := TakeBytes(m, c2, |bytes|);
    MatchesOk(m, r.0, b3);
    ReadLeavesData(m, b3);
    IdleData(m, b);
    IdleData(m, b1);
    PokeCells(b.data, word, bytes);
    assert r.1 == bytes;
  }

  lemma IdleData(m: Model, b: Bus)
    requires b.Ok() && !b.listening
    ensures b.Data(m) == b.data
  {
  }
}
