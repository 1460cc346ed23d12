/**
 The two-wire EEPROMs X24C01 and X24C02 of the Bandai boards (fceux-am/src/boards/bandai.cpp,
 lines 43-161).

 The chip is a state machine clocked by the levels of two wires.  The specification knows no states and
 no counters: it keeps the bits that were clocked since the last START and reads their meaning off their
 positions, in groups of eight data bits and one acknowledge.  The two agree on all bus traffic.
 */
module Eeprom {
  import opened Bits

  type Bit = b: nat | b < 2

  type Byte = b: nat | b < 256

  /** `ChipMode.X24C02` is the flag `x24c02`. */
  datatype Model = X24C01 | X24C02

  datatype Phase = Standby | Address | WordAddress | Reading | Writing

  datatype Chip = Chip(data: seq<Byte>, phase: Phase, addr: Byte, word: Byte, latch: Byte, bitcount: Byte,
                       sda: Bit, scl: Bit, out: Bit, oe: Bit)

  predicate Sized(c: Chip) {
    |c.data| == 256
  }

  // ----- the chip -----

  function ShiftIn(b: Byte, v: Bit): Byte {
    (2 * b + v) % 256
  }

  function Inc(b: Byte): Byte {
    (b + 1) % 256
  }

  lemma IncSmall(b: Byte)
    requires b < 255
    ensures Inc(b) == b + 1
  {
  }

  lemma ShiftSmall(b: Byte, v: Bit)
    requires b < 128
    ensures ShiftIn(b, v) == 2 * b + v
  {
  }

  /** Shifting first and taking the bit in then. */
  lemma ShiftTwice(b: Byte, v: Bit)
    ensures (2 * b % 256 + v) % 256 == ShiftIn(b, v)
  {
    if b < 128 {
      assert 2 * b % 256 == 2 * b;
    } else {
      assert 2 * b % 256 == 2 * b - 256 && 2 * b + v - 256 < 256;
      ModPlusMultiple(2 * b + v - 256, 1, 256);
    }
  }

  /** The rising edge of the clock with the data line at `v`. */
  function Edge(m: Model, c: Chip, v: Bit): Chip
    requires Sized(c)
  {
    match c.phase
    case Standby => c
    case Address =>
      if c.bitcount < 7 then
        c.(addr := ShiftIn(c.addr, v), bitcount := Inc(c.bitcount))
      else
        c.(word := if m.X24C01? then c.addr else c.word,
           phase := if v == 1 then Reading else if m.X24C02? then WordAddress else Writing,
           bitcount := Inc(c.bitcount))
    case WordAddress =>
      if c.bitcount == 8 then
        c.(word := 0, out := 0, bitcount := 9)
      else if c.bitcount == 16 then
        c.(word := ShiftIn(c.word, v), phase := Writing, bitcount := 8)
      else
        c.(word := ShiftIn(c.word, v), bitcount := Inc(c.bitcount))
    case Reading =>
      if c.bitcount == 8 then
        c.(out := 0, latch := c.data[c.word], bitcount := 0)
      else
        c.(out := c.latch / 128, latch := ShiftIn(c.latch, 0), bitcount := Inc(c.bitcount),
           word := if Inc(c.bitcount) == 8 then Inc(c.word) else c.word)
    case Writing =>
      if c.bitcount == 8 then
        c.(out := 0, latch := 0, bitcount := 0)
      else if Inc(c.bitcount) == 8 then
        c.(latch := ShiftIn(c.latch, v), bitcount := 8,
           data := c.data[c.word := ShiftIn(c.latch, v)], word := Inc(c.word))
      else
        c.(latch := ShiftIn(c.latch, v), bitcount := Inc(c.bitcount))
  }

  datatype Event = Start | Stop | Clock(v: Bit) | Quiet

  /** What a change of the two lines means. */
  function EventOf(sda0: Bit, scl0: Bit, sda: Bit, scl: Bit): Event {
    if scl0 == 1 && scl == 1 then
      if sda0 == 1 && sda == 0 then Start else if sda0 == 0 && sda == 1 then Stop else Quiet
    else if scl0 == 0 && scl == 1 then Clock(sda)
    else Quiet
  }

  function OnEvent(m: Model, c: Chip, e: Event): Chip
    requires Sized(c)
  {
    match e
    case Start => c.(phase := Address, bitcount := 0, addr := 0)
    case Stop => c.(phase := Standby)
    case Clock(v) => Edge(m, c, v)
    case Quiet => c
  }

  function SdaOf(b: Byte): Bit {
    b / 64 % 2
  }

  function SclOf(b: Byte): Bit {
    b / 32 % 2
  }

  /** One write to the port of the chip. */
  function Step(m: Model, c: Chip, b: Byte): (r: Chip)
    requires Sized(c)
    ensures Sized(r)
  {
    OnEvent(m, c, EventOf(c.sda, c.scl, SdaOf(b), SclOf(b))).(sda := SdaOf(b), scl := SclOf(b), oe := b / 128)
  }

  // ----- the specification -----

  /** The number written by the bits, the first one highest. */
  function Val(bits: seq<Bit>): nat {
    if bits == [] then 0 else 2 * Val(bits[..|bits| - 1]) + bits[|bits| - 1]
  }

  lemma {:induction false} ValBound(bits: seq<Bit>)
    ensures Val(bits) < Pow2(|bits|)
  {
    if bits != [] {
      ValBound(bits[..|bits| - 1]);
    }
  }

  /** Up to eight bits as a number. */
  function Short(bits: seq<Bit>): Byte
    requires |bits| <= 8
  {
    ValBound(bits);
    WidthPowers();
    Pow2Monotone(|bits|, 8);
    Val(bits)
  }

  /** How many of the bytes that start at bit `f` are complete after `n` bits. */
  function Complete(n: nat, f: nat): nat {
    if n < f then 0 else (n - f + 1) / 9
  }

  /** The memory after the first `k` bytes from bit `f` on have been stored, from `base` on and around the end. */
  function Stored(data: seq<Byte>, base: Byte, bits: seq<Bit>, f: nat, k: nat): (d: seq<Byte>)
    requires |data| == 256 && (k == 0 || f + 9 * k - 1 <= |bits|)
    ensures |d| == 256
  {
    if k == 0 then data
    else
      var i := f + 9 * (k - 1);
      Stored(data, base, bits, f, k - 1)[(base + k - 1) % 256 := Short(bits[i..i + 8])]
  }

  /**
   The bus as the protocol sees it: the memory and the word address at the last START or STOP, and the
   bits since then if the chip is listening.
   */
  datatype Bus = Bus(data: seq<Byte>, word: Byte, listening: bool, bits: seq<Bit>) {
    predicate Ok() {
      |data| == 256 && (listening || bits == [])
    }

    /** The command is known once the eighth bit is there. */
    predicate IsRead() {
      |bits| >= 8 && bits[7] == 1
    }

    predicate IsWrite() {
      |bits| >= 8 && bits[7] == 0
    }

    /** A write to an X24C02 sends the word address in a byte of its own. */
    function FirstData(m: Model): nat {
      if IsWrite() && m.X24C02? then 18 else 9
    }

    /** The word address that the transaction sets. */
    function Base(m: Model): Byte {
      if |bits| < 8 then word
      else if m.X24C01? then Short(bits[..7])
      else if IsRead() || |bits| == 8 then word
      else Short(bits[9..if |bits| < 17 then |bits| else 17])
    }

    function Word(m: Model): Byte {
      (Base(m) + Complete(|bits|, FirstData(m))) % 256
    }

    function Data(m: Model): (d: seq<Byte>)
      requires Ok()
      ensures |d| == 256
    {
      if IsWrite() then Stored(data, Base(m), bits, FirstData(m), Complete(|bits|, FirstData(m))) else data
    }

    /** What happens on the bus. */
    function On(m: Model, e: Event): (b: Bus)
      requires Ok()
      ensures b.Ok()
    {
      match e
      case Start => Bus(Data(m), Word(m), true, [])
      case Stop => Bus(Data(m), Word(m), false, [])
      case Clock(v) => if listening then this.(bits := bits + [v]) else this
      case Quiet => this
    }
  }

  // ----- the two agree -----

  /** The bits since the last acknowledge, as a number. */
  function Recent(bits: seq<Bit>): Byte {
    Short(bits[|bits| - |bits| % 9..])
  }

  /** Where the chip is in the transaction. */
  ghost predicate InPhase(m: Model, c: Chip, b: Bus)
    requires Sized(c) && b.Ok()
  {
    var n := |b.bits|;
    if !b.listening then c.phase.Standby?
    else if n < 8 then c.phase.Address? && c.bitcount == n && c.addr == Short(b.bits)
    else if b.IsRead() then c.phase.Reading? && c.bitcount == n % 9 && (n >= 9 ==> Shifted(c, Cell(m, b), n % 9))
    else if m.X24C02? && n < 17 then c.phase.WordAddress? && c.bitcount == n && (n >= 9 ==> c.out == 0)
    else
      c.phase.Writing? && c.bitcount == n % 9 && (n >= 9 ==> c.out == 0)
      && (n >= b.FirstData(m) ==> c.latch == Recent(b.bits))
  }

  /** The cell that is being read. */
  function Cell(m: Model, b: Bus): Byte
    requires b.Ok() && |b.bits| >= 9
  {
    b.data[(b.Base(m) + (|b.bits| - 9) / 9) % 256]
  }

  /**
   The output register while reading: `p` bits of the cell are gone, and the last one is on the wire, or the
   acknowledge if there is none.
   */
  predicate Shifted(c: Chip, cell: Byte, p: nat) {
    c.latch == cell * Pow2(p) % 256 && c.out == if p > 0 then cell * Pow2(p - 1) % 256 / 128 else 0
  }

  ghost predicate Matches(m: Model, c: Chip, b: Bus) {
    && Sized(c) && b.Ok()
    && c.data == b.Data(m) && c.word == b.Word(m) && InPhase(m, c, b)
  }

  lemma {:induction false} StoredPrefix(data: seq<Byte>, base: Byte, bits: seq<Bit>, v: Bit, f: nat, k: nat)
    requires |data| == 256 && (k == 0 || f + 9 * k - 1 <= |bits|)
    ensures Stored(data, base, bits + [v], f, k) == Stored(data, base, bits, f, k)
  {
    hide Val;
    if k > 0 {
      StoredPrefix(data, base, bits, v, f, k - 1);
      var i := f + 9 * (k - 1);
      assert (bits + [v])[i..i + 8] == bits[i..i + 8];
    }
  }

  /** Appending a bit to a short number. */
  lemma ShortAppend(bits: seq<Bit>, v: Bit)
    requires |bits| <= 7
    ensures Short(bits + [v]) == ShiftIn(Short(bits), v)
  {
    hide Pow2;
    assert (bits + [v])[..|bits|] == bits;
    ValBound(bits);
    Pow2Monotone(|bits|, 7);
    assert Pow2(7) == 128 by { SevenBits(); }
    ShiftSmall(Short(bits), v);
    hide ShiftIn;
  }

  lemma CompleteStep(n: nat, f: nat)
    requires f % 9 == 0
    ensures Complete(n + 1, f) == if n >= f && n % 9 == 7 then Complete(n, f) + 1 else Complete(n, f)
    ensures n >= f && n % 9 == 7 ==> f + 9 * Complete(n, f) == n - 7
  {
  }

  lemma ClockAddress(m: Model, c: Chip, b: Bus, v: Bit)
    requires Matches(m, c, b) && b.listening && |b.bits| < 7
    ensures Matches(m, Edge(m, c, v), b.On(m, Clock(v)))
  {
    hide Short, ShiftIn, Inc;
    ShortAppend(b.bits, v);
    IncSmall(|b.bits|);
  }

  lemma ClockCommand(m: Model, c: Chip, b: Bus, v: Bit)
    requires Matches(m, c, b) && b.listening && |b.bits| == 7
    ensures Matches(m, Edge(m, c, v), b.On(m, Clock(v)))
  {
    hide Short, ShiftIn, Inc;
    IncSmall(|b.bits|);
    assert (b.bits + [v])[..7] == b.bits;
  }

  /** A command and a complete word address do not change any more. */
  lemma SettledBase(m: Model, b: Bus, v: Bit)
    requires b.Ok() && b.listening && |b.bits| >= 8 && (b.IsRead() || m.X24C01? || |b.bits| >= 17)
    ensures var b' := b.On(m, Clock(v));
            b'.Base(m) == b.Base(m) && b'.FirstData(m) == b.FirstData(m) && b'.IsRead() == b.IsRead() && b'.IsWrite() == b.IsWrite()
  {
    hide Short;
    assert (b.bits + [v])[..7] == b.bits[..7];
    if |b.bits| >= 17 {
      assert (b.bits + [v])[9..17] == b.bits[9..17];
    }
  }

  lemma ModDouble(x: nat)
    ensures 2 * (x % 256) % 256 == 2 * x % 256
  {
    ModPlusMultiple(2 * (x % 256), 2 * (x / 256), 256);
  }

  lemma IncWraps(base: Byte, k: nat)
    ensures (base + (k + 1)) % 256 == Inc((base + k) % 256)
  {
    ModPlusMultiple((base + k) % 256 + 1, (base + k) / 256, 256);
  }

  /** The word address moves on with every complete byte. */
  lemma WordStep(m: Model, b: Bus, v: Bit)
    requires b.Ok() && b.listening && |b.bits| >= 8 && (b.IsRead() || m.X24C01? || |b.bits| >= 17)
    ensures b.On(m, Clock(v)).Word(m)
            == if |b.bits| >= b.FirstData(m) && |b.bits| % 9 == 7 then Inc(b.Word(m)) else b.Word(m)
  {
    hide Complete, Inc;
    SettledBase(m, b, v);
    hide *;
    var b' := b.On(m, Clock(v));
    WordIs(m, b);
    WordIs(m, b');
    OneMore(m, b, v);
    CompleteStep(|b.bits|, b.FirstData(m));
    IncWraps(b.Base(m), Complete(|b.bits|, b.FirstData(m)));
  }

  lemma WordIs(m: Model, b: Bus)
    ensures b.Word(m) == (b.Base(m) + Complete(|b.bits|, b.FirstData(m))) % 256
    ensures b.FirstData(m) in {9, 18} && b.FirstData(m) % 9 == 0
  {
    hide Complete, Short;
  }

  lemma OneMore(m: Model, b: Bus, v: Bit)
    requires b.Ok() && b.listening
    ensures b.On(m, Clock(v)).bits == b.bits + [v] && |b.On(m, Clock(v)).bits| == |b.bits| + 1
    ensures b.On(m, Clock(v)).data == b.data && b.On(m, Clock(v)).listening
  {
    hide Short, Complete, Stored;
  }

  lemma ClockRead(m: Model, c: Chip, b: Bus, v: Bit)
    requires Matches(m, c, b) && b.listening && b.IsRead()
    ensures Matches(m, Edge(m, c, v), b.On(m, Clock(v)))
  {
    hide Short, Complete, Stored, Cell, Bus.Base, Bus.On, Pow2, Shifted, Edge;
    var n, b' := |b.bits|, b.On(m, Clock(v));
    SettledBase(m, b, v);
    WordStep(m, b, v);
    OneMore(m, b, v);
    ReadLeavesData(m, b);
    ReadLeavesData(m, b');
    hide Bus.Data, Bus.Word;
    Ninth(n);
    if n % 9 == 8 {
      ReadNext(m, b, b');
      ReadAck(m, c, v);
    } else {
      SameCell(m, b, b');
      ReadShift(m, c, v, Cell(m, b), n % 9);
    }
  }

  lemma Ninth(n: nat)
    ensures (n + 1) % 9 == if n % 9 == 8 then 0 else n % 9 + 1
  {
  }

  lemma ReadAck(m: Model, c: Chip, v: Bit)
    requires Sized(c) && c.phase.Reading? && c.bitcount == 8
    ensures var r := Edge(m, c, v);
            r.data == c.data && r.word == c.word && r.phase.Reading? && r.bitcount == 0 && Shifted(r, c.data[c.word], 0)
  {
    TimesOne(c.data[c.word]);
    hide Pow2;
  }

  lemma ReadShift(m: Model, c: Chip, v: Bit, cell: Byte, p: nat)
    requires Sized(c) && c.phase.Reading? && p < 8 && c.bitcount == p && Shifted(c, cell, p)
    ensures var r := Edge(m, c, v);
            r.data == c.data && r.word == (if p == 7 then Inc(c.word) else c.word) && r.phase.Reading?
            && r.bitcount == p + 1 && Shifted(r, cell, p + 1)
  {
    hide Pow2;
    DoublePower(cell, p);
  }

  lemma TimesOne(x: Byte)
    ensures x * Pow2(0) % 256 == x
  {
  }

  lemma ReadLeavesData(m: Model, b: Bus)
    requires b.Ok() && b.IsRead()
    ensures b.Data(m) == b.data && !b.IsWrite() && b.FirstData(m) == 9
  {
  }

  lemma DoublePower(cell: Byte, p: nat)
    ensures cell * Pow2(p + 1) % 256 == 2 * (cell * Pow2(p) % 256) % 256
  {
    assert cell * Pow2(p + 1) == 2 * (cell * Pow2(p));
    ModDouble(cell * Pow2(p));
  }

  lemma SameCell(m: Model, b: Bus, b': Bus)
    requires b.Ok() && b'.Ok() && b'.data == b.data && b'.Base(m) == b.Base(m)
    requires |b.bits| >= 9 && |b.bits| % 9 != 8 && |b'.bits| == |b.bits| + 1
    ensures Cell(m, b') == Cell(m, b)
  {
    hide Short;
    assert (|b.bits| + 1 - 9) / 9 == (|b.bits| - 9) / 9;
  }

  /** After an acknowledge, the next cell is on its way. */
  lemma ReadNext(m: Model, b: Bus, b': Bus)
    requires b.Ok() && b'.Ok() && b.IsRead() && b'.data == b.data && b'.Base(m) == b.Base(m)
    requires |b.bits| >= 8 && |b.bits| % 9 == 8 && |b'.bits| == |b.bits| + 1
    ensures Cell(m, b') == b.data[b.Word(m)] && Cell(m, b') * Pow2(0) % 256 == Cell(m, b')
  {
    hide Short;
  }

  lemma ClockWord(m: Model, c: Chip, b: Bus, v: Bit)
    requires Matches(m, c, b) && b.listening && b.IsWrite() && m.X24C02? && |b.bits| < 17
    ensures Matches(m, Edge(m, c, v), b.On(m, Clock(v)))
  {
    hide Short, Bus.Data, ShiftIn, Inc;
    EarlyData(m, b, v);
    var n, bits' := |b.bits|, b.bits + [v];
    IncSmall(n);
    if n == 8 {
      assert bits'[9..9] == [];
      ShortNone();
    } else {
      assert bits'[9..n + 1] == b.bits[9..n] + [v];
      ShortAppend(b.bits[9..n], v);
    }
  }

  lemma ShortNone()
    ensures Short([]) == 0
  {
  }

  /** The memory changes with the eighth bit of a data byte and not otherwise. */
  lemma DataStep(m: Model, b: Bus, v: Bit)
    requires b.Ok() && b.listening && b.IsWrite() && (m.X24C01? || |b.bits| >= 17)
    ensures var n := |b.bits|;
            b.On(m, Clock(v)).Data(m)
            == if n >= b.FirstData(m) && n % 9 == 7
               then b.Data(m)[b.Word(m) := Short((b.bits + [v])[n - 7..])] else b.Data(m)
  {
    hide Short, Complete, Stored;
    var n, f, b' := |b.bits|, b.FirstData(m), b.On(m, Clock(v));
    var k := Complete(n, f);
    SettledBase(m, b, v);
    CompleteStep(n, f);
    CompleteFits(n, f);
    StoredPrefix(b.data, b.Base(m), b.bits, v, f, k);
    if n >= f && n % 9 == 7 {
      StoredOne(b.data, b.Base(m), b'.bits, f, k);
      assert b'.bits[n - 7..n + 1] == b'.bits[n - 7..];
    }
  }

  lemma ClockWrite(m: Model, c: Chip, b: Bus, v: Bit)
    requires Matches(m, c, b) && b.listening && b.IsWrite() && (m.X24C01? || |b.bits| >= 17)
    ensures Matches(m, Edge(m, c, v), b.On(m, Clock(v)))
  {
    hide Short, Complete, Stored, Bus.Base, Edge;
    var n, p, b' := |b.bits|, |b.bits| % 9, b.On(m, Clock(v));
    SettledBase(m, b, v);
    WordStep(m, b, v);
    DataStep(m, b, v);
    OneMore(m, b, v);
    WordIs(m, b);
    DataPosition(m, b);
    Ninth(n);
    RecentStep(b.bits, v);
    hide Bus.Data, Bus.Word, Bus.On, Bus.FirstData, Recent, ShiftIn;
    if p == 8 {
      WriteAck(m, c, v);
    } else {
      WriteShift(m, c, v);
    }
  }

  lemma RecentStep(bits: seq<Bit>, v: Bit)
    ensures Recent(bits + [v]) == if |bits| % 9 == 8 then 0 else ShiftIn(Recent(bits), v)
    ensures |bits| % 9 == 7 ==> Recent(bits + [v]) == Short((bits + [v])[|bits| - 7..])
  {
    hide Short, ShiftIn;
    var n, p := |bits|, |bits| % 9;
    Ninth(n);
    if p == 8 {
      assert (bits + [v])[n + 1..] == [];
      ShortNone();
    } else {
      assert (bits + [v])[n - p..] == bits[n - p..] + [v];
      ShortAppend(bits[n - p..], v);
    }
  }

  lemma WriteAck(m: Model, c: Chip, v: Bit)
    requires Sized(c) && c.phase.Writing? && c.bitcount == 8
    ensures var r := Edge(m, c, v);
            r.data == c.data && r.word == c.word && r.phase.Writing? && r.bitcount == 0 && r.latch == 0 && r.out == 0
  {
  }

  lemma WriteShift(m: Model, c: Chip, v: Bit)
    requires Sized(c) && c.phase.Writing? && c.bitcount < 8
    ensures var r := Edge(m, c, v);
            && r.phase.Writing? && r.bitcount == c.bitcount + 1 && r.latch == ShiftIn(c.latch, v) && r.out == c.out
            && r.data == (if c.bitcount == 7 then c.data[c.word := ShiftIn(c.latch, v)] else c.data)
            && r.word == (if c.bitcount == 7 then Inc(c.word) else c.word)
  {
  }

  /** In a write, only an acknowledge can lie between the command and the data. */
  lemma DataPosition(m: Model, b: Bus)
    requires b.IsWrite() && (m.X24C01? || |b.bits| >= 17)
    ensures |b.bits| >= b.FirstData(m) || |b.bits| % 9 == 8
    ensures |b.bits| + 1 >= b.FirstData(m)
  {
  }

  lemma CompleteFits(n: nat, f: nat)
    ensures Complete(n, f) == 0 || f + 9 * Complete(n, f) - 1 <= n
  {
  }

  lemma StoredOne(data: seq<Byte>, base: Byte, bits: seq<Bit>, f: nat, k: nat)
    requires |data| == 256 && f + 9 * k + 8 <= |bits|
    ensures Stored(data, base, bits, f, k + 1)
            == Stored(data, base, bits, f, k)[(base + k) % 256 := Short(bits[f + 9 * k..f + 9 * k + 8])]
  {
    hide Short;
  }

  /** Every event means to the chip what it means to the protocol. */
  lemma EventMatches(m: Model, c: Chip, b: Bus, e: Event)
    requires Matches(m, c, b)
    ensures Matches(m, OnEvent(m, c, e), b.On(m, e))
  {
    match e {
      case Start => Restart(m, c, b, true);
      case Stop => Restart(m, c, b, false);
      case Quiet =>
      case Clock(v) =>
        if !b.listening {
        } else {
          hide Edge, Short, Complete, Stored;
          if |b.bits| < 7 {
            ClockAddress(m, c, b, v);
          } else if |b.bits| == 7 {
            ClockCommand(m, c, b, v);
          } else if b.IsRead() {
            ClockRead(m, c, b, v);
          } else if m.X24C02? && |b.bits| < 17 {
            ClockWord(m, c, b, v);
          } else {
            ClockWrite(m, c, b, v);
          }
        }
    }
  }

  lemma Restart(m: Model, c: Chip, b: Bus, listening: bool)
    requires Matches(m, c, b)
    ensures Matches(m, OnEvent(m, c, if listening then Start else Stop), b.On(m, if listening then Start else Stop))
  {
    hide Short, Stored, Bus.Data, Bus.Word;
    ShortNone();
    FreshBus(m, b.Data(m), b.Word(m), listening);
  }

  lemma FreshBus(m: Model, data: seq<Byte>, word: Byte, listening: bool)
    requires |data| == 256
    ensures var b := Bus(data, word, listening, []);
            b.Ok() && b.Data(m) == data && b.Word(m) == word
  {
  }

  // ----- all traffic -----

  lemma StepMatches(m: Model, c: Chip, b: Bus, w: Byte)
    requires Matches(m, c, b)
    ensures Matches(m, Step(m, c, w), b.On(m, EventOf(c.sda, c.scl, SdaOf(w), SclOf(w))))
  {
    var e := EventOf(c.sda, c.scl, SdaOf(w), SclOf(w));
    EventMatches(m, c, b, e);
    LinesDoNotMatter(m, OnEvent(m, c, e), b.On(m, e), SdaOf(w), SclOf(w), w / 128);
  }

  lemma LinesDoNotMatter(m: Model, c: Chip, b: Bus, sda: Bit, scl: Bit, oe: Bit)
    requires Matches(m, c, b)
    ensures Matches(m, c.(sda := sda, scl := scl, oe := oe), b)
  {
    hide Short, Stored, Complete;
  }

  /** The protocol over a whole trace of port writes, with the levels of the lines before it. */
  function Follow(m: Model, sda: Bit, scl: Bit, b: Bus, ws: seq<Byte>): (r: Bus)
    requires b.Ok()
    ensures r.Ok()
    decreases |ws|
  {
    if ws == [] then b
    else Follow(m, SdaOf(ws[0]), SclOf(ws[0]), b.On(m, EventOf(sda, scl, SdaOf(ws[0]), SclOf(ws[0]))), ws[1..])
  }

  /** The chip after a trace of port writes. */
  function Run(m: Model, c: Chip, ws: seq<Byte>): (r: Chip)
    requires Sized(c)
    ensures Sized(r)
    decreases |ws|
  {
    if ws == [] then c else Run(m, Step(m, c, ws[0]), ws[1..])
  }

  /** Whatever is written to the port, the chip does what the protocol says. */
  lemma {:induction false} AllTraffic(m: Model, c: Chip, b: Bus, ws: seq<Byte>)
    requires Matches(m, c, b)
    ensures Matches(m, Run(m, c, ws), Follow(m, c.sda, c.scl, b, ws))
    decreases |ws|
  {
    hide Matches, Bus.On;
    MatchesOk(m, c, b);
    if ws != [] {
      StepMatches(m, c, b, ws[0]);
      AllTraffic(m, Step(m, c, ws[0]), b.On(m, EventOf(c.sda, c.scl, SdaOf(ws[0]), SclOf(ws[0]))), ws[1..]);
    }
  }

  lemma MatchesOk(m: Model, c: Chip, b: Bus)
    requires Matches(m, c, b)
    ensures Sized(c) && b.Ok() && c.data == b.Data(m) && c.word == b.Word(m)
  {
  }

  /** What a read of the port returns: the output level as bit 4. */
  function Port(c: Chip): Byte {
    c.out * 16
  }

  /**
   After any traffic, from the first acknowledge of a transaction on, the port shows the acknowledge (0)
   after every ninth clock and all the time in a write.  In a read, when `p` bits of a cell have been
   clocked out, it shows the last of them: bit 8 - p of the cell, the highest one first.
   */
  lemma PortShows(m: Model, c: Chip, b: Bus, ws: seq<Byte>)
    requires Matches(m, c, b)
    ensures var f := Follow(m, c.sda, c.scl, b, ws);
            var p := |f.bits| % 9;
            f.listening && |f.bits| >= 9
            ==> Port(Run(m, c, ws)) == 16 * (if f.IsRead() && p > 0 then Bits.Bit(Cell(m, f), 8 - p) else 0)
  {
    AllTraffic(m, c, b, ws);
    hide Run, Follow, Complete, Stored, Short, Bits.Bit, Pow2;
    var f := Follow(m, c.sda, c.scl, b, ws);
    if f.listening && f.IsRead() && |f.bits| >= 9 && |f.bits| % 9 > 0 {
      TopBit(Cell(m, f), |f.bits| % 9);
    }
  }

  /** Up to its first acknowledge, and when it is not listening, the chip leaves the port as it is. */
  lemma PortKept(m: Model, c: Chip, b: Bus, w: Byte)
    requires Matches(m, c, b) && Port(Step(m, c, w)) != Port(c)
    ensures EventOf(c.sda, c.scl, SdaOf(w), SclOf(w)).Clock? && b.listening && |b.bits| >= 8
  {
    hide Short, Complete, Stored, Cell, Shifted;
  }

  /** The top bit of a cell that has been shifted `p - 1` times. */
  lemma TopBit(cell: Byte, p: nat)
    requires 0 < p <= 8
    ensures cell * Pow2(p - 1) % 256 / 128 == Bits.Bit(cell, 8 - p)
  {
    hide Pow2, Shr;
    Pow2Add(8 - p, p - 1);
    ShlIsMul(Pow2(8 - p), p - 1);
    assert Pow2(7) == 128 by { WidthPowers(); SevenBits(); }
    ShrIsDiv(cell, 8 - p);
    TopOf(cell, Pow2(p - 1), Pow2(8 - p));
  }

  lemma SevenBits()
    ensures Pow2(7) == 128
  {
    assert Pow2(7) == 8 * Pow2(4) && Pow2(4) == 16;
  }

  lemma TopOf(cell: nat, m: nat, d: nat)
    requires m > 0 && d > 0 && d * m == 128
    ensures cell * m % 256 / 128 == cell / d % 2
  {
    var h, low := cell / d, cell % d;
    var q, b := h / 2, h % 2;
    TimesBoth(cell, d, h, low, m);
    assert low * m <= 128 - m by { MulMonotone(low, d - 1, m); LessOne(d, m); }
    hide *;
    DivModUnique(cell * m, 256, q, 128 * b + low * m);
    DivModUnique(128 * b + low * m, 128, b, low * m);
  }

  lemma LessOne(d: int, m: int)
    ensures (d - 1) * m == d * m - m
  {
  }

  lemma TimesBoth(cell: int, d: int, h: int, low: int, m: int)
    requires cell == d * h + low && d * m == 128
    ensures cell * m == 128 * h + low * m
  {
    assert (d * h + low) * m == d * h * m + low * m;
    assert d * h * m == d * m * h;
  }

  /** The state `x24c0x_init` leaves. */
  function Init(data: seq<Byte>, out: Bit): Chip {
    Chip(data, Standby, 0, 0, 0, 0, 0, 0, out, 0)
  }

  lemma InitMatches(m: Model, data: seq<Byte>, out: Bit)
    requires |data| == 256
    ensures Matches(m, Init(data, out), Bus(data, 0, false, []))
  {
  }

  /** The bit that completes a data byte of a write. */
  ghost predicate CompletesByte(m: Model, b: Bus, e: Event) {
    b.listening && b.IsWrite() && |b.bits| >= b.FirstData(m) && |b.bits| % 9 == 7 && e.Clock?
  }

  /**
   A write to the port changes the memory only by completing a data byte, and then it changes the cell at
   the word address to that byte.
   */
  lemma OnlyCompleteBytes(m: Model, c: Chip, b: Bus, w: Byte)
    requires Matches(m, c, b)
    ensures var e := EventOf(c.sda, c.scl, SdaOf(w), SclOf(w));
            Step(m, c, w).data
            == if CompletesByte(m, b, e) then c.data[c.word := Short((b.bits + [e.v])[|b.bits| - 7..])] else c.data
  {
    var e := EventOf(c.sda, c.scl, SdaOf(w), SclOf(w));
    StepMatches(m, c, b, w);
    MatchesOk(m, Step(m, c, w), b.On(m, e));
    hide Short, Stored, Complete, Step;
    if e.Clock? && b.listening && b.IsWrite() && (m.X24C01? || |b.bits| >= 17) {
      DataStep(m, b, e.v);
    } else if e.Clock? && b.listening {
      EarlyData(m, b, e.v);
    } else {
      hide Bus.Data;
      NoNews(m, b, e);
    }
  }

  lemma EarlyData(m: Model, b: Bus, v: Bit)
    requires b.Ok() && b.listening && !(b.IsWrite() && (m.X24C01? || |b.bits| >= 17))
    ensures b.Data(m) == b.data && b.On(m, Clock(v)).Data(m) == b.data
  {
    hide Short;
  }

  lemma NoNews(m: Model, b: Bus, e: Event)
    requires b.Ok() && (!e.Clock? || !b.listening)
    ensures b.On(m, e).Data(m) == b.Data(m)
  {
    hide Short, Stored, Complete;
  }

  // ----- the program -----

  /** The statics of the interface and its three functions. */
  class Device {
    const model: Model
    const data: array<Byte>
    var state: Phase
    var addr: Byte
    var word: Byte
    var latch: Byte
    var bitcount: Byte
    var sda: Bit
    var scl: Bit
    var out: Bit
    var oe: Bit

    ghost predicate Valid() {
      data.Length == 256
    }

    ghost function View(): Chip
      reads this, data
    {
      Chip(data[..], state, addr, word, latch, bitcount, sda, scl, out, oe)
    }

    constructor (model: Model)
      ensures Valid() && this.model == model && fresh(data) && View() == Init(seq(256, _ => 0), 0)
    {
      this.model := model;
      data := new Byte[256](_ => 0);
      state := Standby;
      addr, word, latch, bitcount, sda, scl, out, oe := 0, 0, 0, 0, 0, 0, 0, 0;
      new;
      assert data[..] == seq(256, _ => 0);
    }

    /** `x24c0x_init` keeps the memory and the output level. */
    method Reset()
      requires Valid()
      modifies this
      ensures Valid() && View() == Init(old(data[..]), old(out))
    {
      addr, word, latch, bitcount, sda, scl, oe := 0, 0, 0, 0, 0, 0, 0;
      state := Standby;
    }

    /** The `switch` of `x24c0x_write`, case by case. */
    method RisingEdge(v: Bit)
      requires Valid()
      modifies this`state, this`addr, this`word, this`latch, this`bitcount, this`out, data
      ensures View() == Edge(model, old(View()), v)
    {
      match state {
        case Standby =>
        case Address => InAddress(v);
        case WordAddress => InWord(v);
        case Reading => InRead();
        case Writing => InWrite(v);
      }
    }

    method InAddress(v: Bit)
      requires Valid() && state == Address
      modifies this`state, this`addr, this`word, this`bitcount
      ensures View() == Edge(model, old(View()), v)
    {
      ShiftTwice(addr, v);
      hide ShiftIn;
      if bitcount < 7 {
        addr := 2 * addr % 256;
        addr := (addr + v) % 256;
      } else {
        if model.X24C01? {
          word := addr;
        }
        if v == 1 {
          state := Reading;
        } else {
          state := if model.X24C02? then WordAddress else Writing;
        }
      }
      bitcount := (bitcount + 1) % 256;
    }

    method InWord(v: Bit)
      requires Valid() && state == WordAddress
      modifies this`state, this`word, this`bitcount, this`out
      ensures View() == Edge(model, old(View()), v)
    {
      if bitcount == 8 {
        word, out := 0, 0;
      } else {
        word := (2 * word + v) % 256;
        if bitcount == 16 {
          bitcount := 7;
          state := Writing;
        }
      }
      bitcount := (bitcount + 1) % 256;
    }

    method InRead()
      requires Valid() && state == Reading
      modifies this`word, this`latch, this`bitcount, this`out
      ensures forall v: Bit :: View() == Edge(model, old(View()), v)
    {
      if bitcount == 8 {
        out := 0;
        latch := data[word];
        bitcount := 0;
      } else {
        out := latch / 128;
        latch := 2 * latch % 256;
        bitcount := (bitcount + 1) % 256;
        if bitcount == 8 {
          word := (word + 1) % 256;
        }
      }
    }

    method InWrite(v: Bit)
      requires Valid() && state == Writing
      modifies this`word, this`latch, this`bitcount, this`out, data
      ensures View() == Edge(model, old(View()), v)
    {
      if bitcount == 8 {
        out, latch, bitcount := 0, 0, 0;
      } else {
        latch := (2 * latch + v) % 256;
        bitcount := (bitcount + 1) % 256;
        if bitcount == 8 {
          data[word] := latch;
          word := (word + 1) % 256;
        }
      }
    }

    /** `x24c0x_write`. */
    method Write(b: Byte)
      requires Valid()
      modifies this, data
      ensures View() == Step(model, old(View()), b)
    {
      hide Edge;
      var newSda: Bit, newScl: Bit := b / 64 % 2, b / 32 % 2;
      oe := b / 128;
      if scl == 1 && newScl == 1 {
        if sda == 1 && newSda == 0 {
          state, bitcount, addr := Address, 0, 0;
        } else if sda == 0 && newSda == 1 {
          state := Standby;
        }
      } else if scl == 0 && newScl == 1 {
        EdgeIgnoresOe(model, old(View()), newSda, oe);
        RisingEdge(newSda);
      }
      sda, scl := newSda, newScl;
    }

    /** `x24c0x_read`. */
    method Read() returns (v: Byte)
      requires Valid()
      ensures v == Port(View())
    {
      v := out * 16;
    }
  }

  lemma EdgeIgnoresOe(m: Model, c: Chip, v: Bit, oe: Bit)
    requires Sized(c)
    ensures Edge(m, c.(oe := oe), v) == Edge(m, c, v).(oe := oe)
  {
  }
}
