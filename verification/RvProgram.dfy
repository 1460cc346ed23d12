/**
 Whole programs: every run of a program is simulated by its expansion.

 The original program is given meaning at the level of the assembler source: its program counter is
 the index of an instruction, and an instruction's address is the address its expansion has in the
 image, so that links and indirect jumps speak of the same addresses on both sides.
 */
module RvProgram {
  import opened Bits
  import opened RvMachine
  import opened RvScratch
  import opened RvLut
  import opened RvMacros
  import opened RvBasicMacros
  import opened RvEqual
  import opened RvRefine
  import opened RvKeepsSp
  import opened RvSpec
  import opened RvLift
  import opened RvInstr
  import opened RvMemory
  import opened RvCompare
  import opened RvBranch

  // ----- the machine -----

  datatype Machine = Machine(st: State, pc: Word)

  /** `jalr` clears the lowest bit of its target. */
  function JumpTarget(x: Word): Word {
    x - x % 2
  }

  /** One step of the machine on the code image; it stands still where there is no code. */
  function MachineStep(image: map<Word, Base>, m: Machine): Machine {
    if m.pc !in image then m
    else
      match image[m.pc]
      case Jalr(rd, rs1, off) => Machine(SetR(m.st, rd, Wrap(m.pc + 4)), JumpTarget(Ea(m.st, rs1, off)))
      case b => Machine(Step(b, m.st), Wrap(m.pc + 4))
  }

  function Run(image: map<Word, Base>, m: Machine, n: nat): Machine
    decreases n
  {
    if n == 0 then m else Run(image, MachineStep(image, m), n - 1)
  }

  lemma {:induction false} RunAppend(image: map<Word, Base>, m: Machine, n: nat, k: nat)
    ensures Run(image, m, n + k) == Run(image, Run(image, m, n), k)
    decreases n
  {
    hide MachineStep;
    if n > 0 {
      RunAppend(image, MachineStep(image, m), n - 1, k);
    }
  }

  /** The image holds `code` from `pc` on. */
  predicate CodeAt(image: map<Word, Base>, pc: int, code: seq<Base>) {
    && 0 <= pc && pc + 4 * |code| < 0x1_0000_0000
    && forall k: nat | k < |code| :: Holds(image, pc, k, code[k])
  }

  predicate Holds(image: map<Word, Base>, pc: int, k: nat, b: Base) {
    WordAt(pc, k) in image && image[WordAt(pc, k)] == b
  }

  function WordAt(pc: int, k: nat): Word {
    Wrap(pc + 4 * k)
  }

  lemma CodeAtTail(image: map<Word, Base>, pc: int, code: seq<Base>)
    requires CodeAt(image, pc, code) && code != []
    ensures CodeAt(image, pc + 4, code[1..])
  {
    forall k: nat | k < |code[1..]|
      ensures Holds(image, pc + 4, k, code[1..][k])
    {
      assert WordAt(pc + 4, k) == WordAt(pc, k + 1);
      assert code[1..][k] == code[k + 1] && Holds(image, pc, k + 1, code[k + 1]);
    }
  }

  lemma CodeAtSplit(image: map<Word, Base>, pc: int, c1: seq<Base>, c2: seq<Base>)
    requires CodeAt(image, pc, c1 + c2)
    ensures CodeAt(image, pc, c1) && CodeAt(image, pc + 4 * |c1|, c2)
  {
    forall k: nat | k < |c1|
      ensures Holds(image, pc, k, c1[k])
    {
      assert (c1 + c2)[k] == c1[k] && Holds(image, pc, k, (c1 + c2)[k]);
    }
    forall k: nat | k < |c2|
      ensures Holds(image, pc + 4 * |c1|, k, c2[k])
    {
      assert (c1 + c2)[|c1| + k] == c2[k] && Holds(image, pc, |c1| + k, (c1 + c2)[|c1| + k]);
      assert WordAt(pc + 4 * |c1|, k) == WordAt(pc, |c1| + k);
    }
  }

  lemma StepStraight(image: map<Word, Base>, pc: int, code: seq<Base>, s: State)
    requires CodeAt(image, pc, code) && code != [] && !code[0].Jalr?
    ensures 0 <= pc < 0x1_0000_0000 && 0 <= pc + 4 < 0x1_0000_0000
    ensures MachineStep(image, Machine(s, pc)) == Machine(Step(code[0], s), pc + 4)
  {
    hide Step;
    assert WordAt(pc, 0) == pc && Holds(image, pc, 0, code[0]);
  }

  lemma CodeAtRange(image: map<Word, Base>, pc: int, code: seq<Base>)
    requires CodeAt(image, pc, code)
    ensures 0 <= pc && pc + 4 * |code| < 0x1_0000_0000
  {
  }

  /** The machine runs straight-line code from one end to the other. */
  lemma {:induction false} RunStraight(image: map<Word, Base>, pc: int, code: seq<Base>, s: State)
    requires CodeAt(image, pc, code) && (forall k :: 0 <= k < |code| ==> !code[k].Jalr?)
    ensures 0 <= pc && pc + 4 * |code| < 0x1_0000_0000
    ensures Run(image, Machine(s, pc), |code|) == Machine(Exec(code, s), pc + 4 * |code|)
    decreases |code|
  {
    hide Step, MachineStep, CodeAt;
    CodeAtRange(image, pc, code);
    if code != [] {
      StepStraight(image, pc, code, s);
      CodeAtTail(image, pc, code);
      RunStraight(image, pc + 4, code[1..], Step(code[0], s));
    }
  }

  lemma RunJump(image: map<Word, Base>, pc: int, rd: nat, rs1: nat, off: int, s: State)
    requires CodeAt(image, pc, [Jalr(rd, rs1, off)])
    ensures Run(image, Machine(s, pc), 1) == Machine(SetR(s, rd, pc + 4), JumpTarget(Ea(s, rs1, off)))
  {
    assert WordAt(pc, 0) == pc;
    assert [Jalr(rd, rs1, off)][0] == Jalr(rd, rs1, off) && Holds(image, pc, 0, Jalr(rd, rs1, off));
    assert Run(image, Machine(s, pc), 1) == MachineStep(image, Machine(s, pc));
  }

  // ----- the image of a program -----

  function Size(at: Layout, i: Instr): nat {
    |Expand(at, i, 0, 0)|
  }

  /** The size of an expansion does not depend on the addresses in it. */
  lemma SizeFixed(at: Layout, i: Instr, next: Word, target: Word)
    ensures |Expand(at, i, next, target)| == Size(at, i)
  {
    hide BranchTest, Slli, Code;
  }

  /** The address of instruction `k`. */
  function Addr(at: Layout, p: seq<Instr>, start: int, k: nat): int
    requires k <= |p|
  {
    if k == 0 then start else Addr(at, p, start, k - 1) + 4 * Size(at, p[k - 1])
  }

  lemma {:induction false} AddrBounds(at: Layout, p: seq<Instr>, start: int, k: nat)
    requires k <= |p|
    ensures start <= Addr(at, p, start, k) <= Addr(at, p, start, |p|)
    ensures (Addr(at, p, start, k) - start) % 4 == 0
  {
    AddrStart(at, p, start, k);
    AddrEnd(at, p, start, k);
  }

  lemma {:induction false} AddrStart(at: Layout, p: seq<Instr>, start: int, k: nat)
    requires k <= |p|
    ensures start <= Addr(at, p, start, k) && (Addr(at, p, start, k) - start) % 4 == 0
  {
    hide Size;
    if k > 0 {
      AddrStart(at, p, start, k - 1);
      ModPlusMultiple(Addr(at, p, start, k - 1) - start, Size(at, p[k - 1]), 4);
    }
  }

  lemma {:induction false} AddrEnd(at: Layout, p: seq<Instr>, start: int, k: nat)
    requires k <= |p|
    ensures Addr(at, p, start, k) <= Addr(at, p, start, |p|)
    decreases |p| - k
  {
    if k < |p| {
      AddrEnd(at, p, start, k + 1);
    }
  }

  predicate HasTarget(i: Instr) {
    i.Branch? || i.Jump?
  }

  /** A program that fits in memory, whose jumps stay inside it. */
  predicate Linkable(at: Layout, p: seq<Instr>, start: int) {
    && start >= 0 && start % 2 == 0 && Addr(at, p, start, |p|) < 0x1_0000_0000
    && forall i :: i in p && HasTarget(i) ==> i.target <= |p|
  }

  function AddrWord(at: Layout, p: seq<Instr>, start: int, k: nat): Word
    requires k <= |p| && Linkable(at, p, start)
  {
    AddrBounds(at, p, start, k);
    Addr(at, p, start, k)
  }

  function TargetWord(at: Layout, p: seq<Instr>, start: int, k: nat): Word
    requires k < |p| && Linkable(at, p, start)
  {
    if HasTarget(p[k]) then AddrWord(at, p, start, p[k].target) else 0
  }

  /** The image holds the expansion of every instruction at its address. */
  ghost predicate Linked(at: Layout, p: seq<Instr>, start: int, image: map<Word, Base>) {
    && Linkable(at, p, start)
    && forall k: nat | k < |p| ::
         CodeAt(image, Addr(at, p, start, k),
                Expand(at, p[k], AddrWord(at, p, start, k + 1), TargetWord(at, p, start, k)))
  }

  // ----- the original program -----

  datatype Config = Config(st: State, k: nat)

  /** One instruction of the original program. */
  ghost predicate Next(at: Layout, p: seq<Instr>, start: int, c: Config, c': Config)
    requires Linkable(at, p, start)
  {
    c.k < |p| && c'.k <= |p| &&
    match p[c.k]
    case Branch(cond, rs1, rs2, target) =>
      c' == Config(c.st, if Taken(cond, R(c.st, rs1), R(c.st, rs2)) then target else c.k + 1)
    case Jump(rd, target) =>
      c' == Config(SetR(c.st, rd, AddrWord(at, p, start, c.k + 1)), target)
    case JumpReg(rd, rs1, off) =>
      && c'.st == SetR(c.st, rd, AddrWord(at, p, start, c.k + 1))
      && AddrWord(at, p, start, c'.k) == JumpTarget(Ea(c.st, rs1, off))
    case i =>
      c' == Config(Effect(i, c.st), c.k + 1)
  }

  // ----- what is compared -----

  predicate InTables(at: Layout, a: Word) {
    || at.lut <= a < at.lut + LUT_SIZE
    || at.sameResult <= a < at.sameResult + 8 || at.zero8 <= a < at.zero8 + 256
    || at.slt1 <= a < at.slt1 + 8 || at.sltu1 <= a < at.sltu1 + 8 || at.or1 <= a < at.or1 + 4
  }

  predicate InArea(sp: Word, a: Word) {
    sp - AREA <= a < sp
  }

  /** The bytes whose contents an instruction may leave different: what it uses below `sp`, and `seq`'s marks. */
  ghost function JunkAfter(at: Layout, i: Instr, s: State, junk: iset<Word>): iset<Word> {
    iset a: Word | (a in junk && !(IsStore(i) && Accesses(i, s, a))) || InArea(R(s, SP), a) || InCheck(at, a)
  }

  /**
   The assumptions on the program that inst-replace.h states (lines 5-7) and what they rest on, at one
   instruction: it is one the macros accept; the area below `sp` is free and not accessed; a byte is
   not read between being below `sp` and being written again; the tables are not written to.
   */
  ghost predicate Fair(at: Layout, i: Instr, s: State, junk: iset<Word>) {
    && Accepted(i) && Clear(at, R(s, SP)) && StaysAbove(i, s)
    && (forall a: Word :: Accesses(i, s, a) && !IsStore(i) ==> a !in junk)
    && (forall a: Word :: Accesses(i, s, a) && IsStore(i) ==> !InTables(at, a))
  }

  /** Both runs agree on the registers but `tp` and `gp`, and on the memory but the junk. */
  ghost predicate Agree(junk: iset<Word>, s: State, t: State) {
    && (forall r: nat :: r !in {TP, GP} ==> R(t, r) == R(s, r))
    && (forall a: Word :: a !in junk ==> MemByte(t.mem, a) == MemByte(s.mem, a))
  }

  ghost predicate TablesIn(at: Layout, t: State) {
    TablesAt(t.mem, at.lut) && SmallTablesAt(t.mem, at)
  }

  /** The tables survive whatever leaves their bytes alone. */
  lemma TablesKept(at: Layout, s: State, t: State)
    requires TablesIn(at, s) && Clear(at, R(s, SP))
    requires forall a: Word :: InTables(at, a) ==> MemByte(t.mem, a) == MemByte(s.mem, a)
    ensures TablesIn(at, t)
  {
    SmallKept(at, s, t);
    LutKept(at, s, t);
    hide *;
    TablesFrom(at, t);
  }

  lemma TablesFrom(at: Layout, t: State)
    requires TablesAt(t.mem, at.lut) && SmallTablesAt(t.mem, at)
    ensures TablesIn(at, t)
  {
    hide TablesAt, SmallTablesAt;
  }

  lemma LutKept(at: Layout, s: State, t: State)
    requires TablesAt(s.mem, at.lut) && Clear(at, R(s, SP))
    requires forall a: Word :: InTables(at, a) ==> MemByte(t.mem, a) == MemByte(s.mem, a)
    ensures TablesAt(t.mem, at.lut)
  {
    hide MemByte, Entry, ByteOf, InTables, Clear, Position, Wrap, R;
    forall tb: Table, j: nat, i: nat, b: nat | j < Rows(tb) && i < 256 && b < EntrySize(tb)
      ensures MemByte(t.mem, Wrap(at.lut + Position(tb, j, i, b))) == ByteOf(Entry(tb, j, i), b)
    {
      LutInside(at, R(s, SP), tb, j, i, b);
    }
  }

  lemma SmallKept(at: Layout, s: State, t: State)
    requires SmallTablesAt(s.mem, at)
    requires forall a: Word :: InTables(at, a) ==> MemByte(t.mem, a) == MemByte(s.mem, a)
    ensures SmallTablesAt(t.mem, at)
  {
    hide MemByte;
  }

  lemma LutInside(at: Layout, sp: Word, t: Table, j: nat, i: nat, b: nat)
    requires Clear(at, sp) && j < Rows(t) && i < 256 && b < EntrySize(t)
    ensures InTables(at, Wrap(at.lut + Position(t, j, i, b)))
  {
    PositionInside(t, j, i, b);
    hide Position, Rows, EntrySize, Wrap;
    InsideLut(at, sp, Position(t, j, i, b));
  }

  /** A store writes where it says it does. */
  lemma EffectMemory(i: Instr, s: State, a: Word)
    requires Accepted(i) && !(IsStore(i) && Accesses(i, s, a))
    ensures MemByte(Effect(i, s).mem, a) == MemByte(s.mem, a)
  {
    hide Value, Loaded, ByteOf, MemWord, BoolWord;
    if i.Plain? && i.b.Sw? {
      assert Nth(s, i.b.base, i.b.off, 0) == Ea(s, i.b.base, i.b.off);
      assert a != Nth(s, i.b.base, i.b.off, 0) && a != Nth(s, i.b.base, i.b.off, 1)
          && a != Nth(s, i.b.base, i.b.off, 2) && a != Nth(s, i.b.base, i.b.off, 3);
    }
  }

  /** The effect on registers and on the stored bytes is the same. */
  ghost predicate SameOutcome(i: Instr, s: State, t: State, a: Word)
    requires !IsControl(i)
  {
    && Accesses(i, t, a) == Accesses(i, s, a)
    && (forall r: nat :: r !in {TP, GP} ==> R(Effect(i, t), r) == R(Effect(i, s), r))
    && (IsStore(i) && Accesses(i, s, a) ==> MemByte(Effect(i, t).mem, a) == MemByte(Effect(i, s).mem, a))
  }

  /** Instructions cannot tell agreeing states apart, unless they read junk. */
  lemma SameEffect(i: Instr, junk: iset<Word>, s: State, t: State, a: Word)
    requires Agree(junk, s, t) && Accepted(i) && !IsControl(i)
    requires forall b: Word :: Accesses(i, s, b) && !IsStore(i) ==> b !in junk
    ensures Accesses(i, t, a) == Accesses(i, s, a)
    ensures forall r: nat :: r !in {TP, GP} ==> R(Effect(i, t), r) == R(Effect(i, s), r)
    ensures IsStore(i) && Accesses(i, s, a) ==> MemByte(Effect(i, t).mem, a) == MemByte(Effect(i, s).mem, a)
  {
    assert SameOutcome(i, s, t, a) by {
      hide SameOutcome, Accepted, Accesses, IsStore, Agree;
      match i {
        case Plain(_) => SameOutcomePlain(i, junk, s, t, a);
        case Load(_, _, _, _) => SameOutcomeLoad(i, junk, s, t, a);
        case StoreHalf(_, _, _) => SameOutcomeStore(i, junk, s, t, a);
        case _ => SameOutcomeSet(i, junk, s, t, a);
      }
    }
    hide Accesses, Effect, R, MemByte, IsStore, Accepted;
  }

  lemma SameOutcomePlain(i: Instr, junk: iset<Word>, s: State, t: State, a: Word)
    requires i.Plain? && Agree(junk, s, t) && Accepted(i)
    requires forall b: Word :: Accesses(i, s, b) && !IsStore(i) ==> b !in junk
    ensures SameOutcome(i, s, t, a)
  {
    SamePlain(i.b, junk, s, t, a);
    hide Step, R, MemByte;
  }

  lemma SameOutcomeLoad(i: Instr, junk: iset<Word>, s: State, t: State, a: Word)
    requires i.Load? && Agree(junk, s, t) && Accepted(i)
    requires forall b: Word :: Accesses(i, s, b) && !IsStore(i) ==> b !in junk
    ensures SameOutcome(i, s, t, a)
  {
    hide SignExtend8, SignExtend16, MemByte, Wrap;
    assert R(t, i.base) == R(s, i.base);
    assert Accesses(i, s, Ea(s, i.base, i.off));
    assert i.width != SignedByte ==> Accesses(i, s, Wrap(Ea(s, i.base, i.off) + 1));
    SameSet(junk, s, t, i.rd, Loaded(i.width, s.mem, Ea(s, i.base, i.off)));
  }

  lemma SameOutcomeStore(i: Instr, junk: iset<Word>, s: State, t: State, a: Word)
    requires i.StoreHalf? && Agree(junk, s, t) && Accepted(i)
    ensures SameOutcome(i, s, t, a)
  {
    assert R(t, i.base) == R(s, i.base) && R(t, i.rs) == R(s, i.rs);
    SameRegs(junk, s, t, Effect(i, s).mem, Effect(i, t).mem);
    hide R, Wrap, ByteOf;
  }

  /** Instructions that set one register from others. */
  lemma SameOutcomeSet(i: Instr, junk: iset<Word>, s: State, t: State, a: Word)
    requires i.RType? || i.IType? || i.ShiftImm? || i.NotOf? || i.IsZero? || i.IsNegative?
    requires Agree(junk, s, t) && Accepted(i)
    ensures SameOutcome(i, s, t, a)
  {
    hide Value, BoolWord, R, SetR, SignedWord;
    match i {
      case RType(op, rd, rs1, rs2) =>
        assert R(t, rs1) == R(s, rs1) && R(t, rs2) == R(s, rs2);
        SameSet(junk, s, t, rd, Value(op, R(s, rs1), R(s, rs2)));
      case IType(op, rd, rs1, imm) =>
        assert R(t, rs1) == R(s, rs1);
        SameSet(junk, s, t, rd, Value(op, R(s, rs1), Wrap(imm)));
      case ShiftImm(op, rd, rs1, shamt) =>
        assert R(t, rs1) == R(s, rs1);
        SameSet(junk, s, t, rd, Value(op, R(s, rs1), Wrap(shamt)));
      case NotOf(rd, rs) =>
        assert R(t, rs) == R(s, rs);
        SameSet(junk, s, t, rd, 0xFFFF_FFFF - R(s, rs));
      case IsZero(rd, rs) =>
        assert R(t, rs) == R(s, rs);
        SameSet(junk, s, t, rd, BoolWord(R(s, rs) == 0));
      case IsNegative(rd, rs) =>
        assert R(t, rs) == R(s, rs);
        SameSet(junk, s, t, rd, BoolWord(SignedWord(R(s, rs)) < 0));
    }
  }

  lemma SameRegs(junk: iset<Word>, s: State, t: State, ms: map<Word, Byte>, mt: map<Word, Byte>)
    requires Agree(junk, s, t)
    ensures forall r: nat :: r !in {TP, GP} ==> R(t.(mem := mt), r) == R(s.(mem := ms), r)
  {
    forall r: nat | r !in {TP, GP}
      ensures R(t.(mem := mt), r) == R(s.(mem := ms), r)
    {
      assert R(t, r) == R(s, r);
    }
  }

  lemma SameSet(junk: iset<Word>, s: State, t: State, rd: nat, v: Word)
    requires Agree(junk, s, t)
    ensures forall r: nat :: r !in {TP, GP} ==> R(SetR(t, rd, v), r) == R(SetR(s, rd, v), r)
  {
    forall r: nat | r !in {TP, GP}
      ensures R(SetR(t, rd, v), r) == R(SetR(s, rd, v), r)
    {
      assert R(t, r) == R(s, r);
    }
  }

  lemma SamePlain(b: Base, junk: iset<Word>, s: State, t: State, a: Word)
    requires Agree(junk, s, t) && PlainRegisters(b)
    requires forall x: Word :: Accesses(Plain(b), s, x) && !IsStore(Plain(b)) ==> x !in junk
    ensures Accesses(Plain(b), t, a) == Accesses(Plain(b), s, a)
    ensures forall r: nat :: r !in {TP, GP} ==> R(Step(b, t), r) == R(Step(b, s), r)
    ensures IsStore(Plain(b)) && Accesses(Plain(b), s, a) ==> MemByte(Step(b, t).mem, a) == MemByte(Step(b, s).mem, a)
  {
    hide ByteOf, WordOf, Wrap, SetR;
    match b {
      case Add(rd, rs1, rs2) =>
        assert R(t, rs1) == R(s, rs1) && R(t, rs2) == R(s, rs2);
        SameSet(junk, s, t, rd, Wrap(R(s, rs1) + R(s, rs2)));
      case Addi(rd, rs1, imm) =>
        assert R(t, rs1) == R(s, rs1);
        SameSet(junk, s, t, rd, Wrap(R(s, rs1) + imm));
      case Lui(rd, upper) =>
        SameSet(junk, s, t, rd, Wrap(upper * 0x1000));
      case Lw(rd, base, off) =>
        SameBase(junk, s, t, base, off);
        SameWordRead(b, junk, s, t);
        SameSet(junk, s, t, rd, MemWord(s.mem, Ea(s, base, off)));
      case Lbu(rd, base, off) =>
        SameBase(junk, s, t, base, off);
        assert Accesses(Plain(b), s, Ea(s, base, off));
        SameSet(junk, s, t, rd, MemByte(s.mem, Ea(s, base, off)));
      case Sw(rs, base, off) =>
        SameBase(junk, s, t, base, off);
        SameWordWrite(b, junk, s, t, a);
        SameRegs(junk, s, t, Step(b, s).mem, Step(b, t).mem);
      case Sb(rs, base, off) =>
        SameBase(junk, s, t, base, off);
        assert R(t, rs) == R(s, rs);
        SameRegs(junk, s, t, Step(b, s).mem, Step(b, t).mem);
    }
  }

  lemma SameBase(junk: iset<Word>, s: State, t: State, base: nat, off: int)
    requires Agree(junk, s, t) && !Reserved(base)
    ensures Ea(t, base, off) == Ea(s, base, off)
    ensures forall k: nat :: Nth(t, base, off, k) == Nth(s, base, off, k)
  {
    assert R(t, base) == R(s, base);
  }

  lemma SameWordWrite(b: Base, junk: iset<Word>, s: State, t: State, a: Word)
    requires Agree(junk, s, t) && b.Sw? && PlainRegisters(b)
    ensures Accesses(Plain(b), s, a) ==> MemByte(Step(b, t).mem, a) == MemByte(Step(b, s).mem, a)
  {
    hide ByteOf, R, StoreWord, MemByte, Wrap;
    assert R(t, b.base) == R(s, b.base) && R(t, b.rs) == R(s, b.rs);
    assert Nth(s, b.base, b.off, 0) == Ea(s, b.base, b.off) by { ZeroOffset(Ea(s, b.base, b.off)); }
    if Accesses(Plain(b), s, a) {
      var k: nat :| k < 4 && a == Nth(s, b.base, b.off, k);
      assert k == 0 || k == 1 || k == 2 || k == 3;
      StoredSame(s.mem, t.mem, Ea(s, b.base, b.off), R(s, b.rs), k);
    }
  }

  /** A word stored in two memories is the same in both. */
  lemma StoredSame(m: map<Word, Byte>, n: map<Word, Byte>, a: Word, w: Word, k: nat)
    requires k < 4
    ensures MemByte(StoreWord(n, a, w), Wrap(a + k)) == MemByte(StoreWord(m, a, w), Wrap(a + k))
  {
    hide ByteOf;
    ZeroOffset(a);
  }

  lemma SameWordRead(b: Base, junk: iset<Word>, s: State, t: State)
    requires Agree(junk, s, t) && b.Lw? && !Reserved(b.base)
    requires forall x: Word :: Accesses(Plain(b), s, x) ==> x !in junk
    ensures MemWord(t.mem, Ea(t, b.base, b.off)) == MemWord(s.mem, Ea(s, b.base, b.off))
  {
    hide MemByte, WordOf, R, Wrap;
    assert R(t, b.base) == R(s, b.base);
    ZeroOffset(Ea(s, b.base, b.off));
    assert Accesses(Plain(b), s, Nth(s, b.base, b.off, 0)) && Accesses(Plain(b), s, Nth(s, b.base, b.off, 1))
        && Accesses(Plain(b), s, Nth(s, b.base, b.off, 2)) && Accesses(Plain(b), s, Nth(s, b.base, b.off, 3));
  }

  // ----- the simulation -----

  lemma AgreePlacement(at: Layout, i: Instr, junk: iset<Word>, s: State, t: State)
    requires Fair(at, i, s, junk) && Agree(junk, s, t) && TablesIn(at, t)
    ensures Placement(at, t) && R(t, SP) == R(s, SP)
  {
    hide Clear, TablesAt, SmallTablesAt, Accepted, StaysAbove;
    assert R(t, SP) == R(s, SP);
  }

  /** Addresses outside the new junk: where both sides stored the same, or nothing. */
  lemma EffectsAgree(at: Layout, i: Instr, junk: iset<Word>, s: State, t: State)
    requires Fair(at, i, s, junk) && Agree(junk, s, t) && !IsControl(i)
    ensures Agree(JunkAfter(at, i, s, junk), Effect(i, s), Effect(i, t))
    ensures StaysAbove(i, t)
  {
    hide Accesses, Effect, Accepted, MemByte, R, IsStore;
    SameEffect(i, junk, s, t, 0);
    SameSp(junk, s, t);
    forall a: Word
      ensures Accesses(i, t, a) == Accesses(i, s, a)
      ensures a !in JunkAfter(at, i, s, junk) ==> MemByte(Effect(i, t).mem, a) == MemByte(Effect(i, s).mem, a)
    {
      SameEffect(i, junk, s, t, a);
      if a !in JunkAfter(at, i, s, junk) && !(IsStore(i) && Accesses(i, s, a)) {
        EffectMemory(i, s, a);
        EffectMemory(i, t, a);
      }
    }
  }

  lemma SameSp(junk: iset<Word>, s: State, t: State)
    requires Agree(junk, s, t)
    ensures R(t, SP) == R(s, SP)
  {
  }

  /** Close to the effect on the machine's own state is agreement with the original's. */
  lemma CloseAgrees(at: Layout, i: Instr, junk: iset<Word>, s: State, t: State, s': State, u: State, t': State)
    requires Agree(JunkAfter(at, i, s, junk), s', u) && Close(at, R(s, SP), u, t')
    ensures Agree(JunkAfter(at, i, s, junk), s', t')
  {
    hide R, MemByte, Accesses;
    forall r: nat | r !in {TP, GP}
      ensures R(t', r) == R(s', r)
    {
      assert R(u, r) == R(s', r);
    }
    forall a: Word | a !in JunkAfter(at, i, s, junk)
      ensures MemByte(t'.mem, a) == MemByte(s'.mem, a)
    {
      assert MemByte(u.mem, a) == MemByte(s'.mem, a);
    }
  }

  lemma TablesNotScratch(at: Layout, sp: Word, a: Word)
    requires Clear(at, sp) && InTables(at, a)
    ensures !InArea(sp, a) && !InCheck(at, a)
  {
  }

  /** The expansion of one instruction leaves the tables alone. */
  lemma TablesSurvive(at: Layout, i: Instr, t: State, u: State, t': State)
    requires TablesIn(at, t) && Clear(at, R(t, SP)) && Close(at, R(t, SP), u, t')
    requires forall a: Word :: InTables(at, a) ==> MemByte(u.mem, a) == MemByte(t.mem, a)
    ensures TablesIn(at, t')
  {
    hide R, MemByte, Clear, TablesIn, InTables;
    forall a: Word | InTables(at, a)
      ensures MemByte(t'.mem, a) == MemByte(t.mem, a)
    {
      TablesNotScratch(at, R(t, SP), a);
      assert MemByte(u.mem, a) == MemByte(t.mem, a);
    }
    TablesKept(at, t, t');
  }

  lemma TablesUnwritten(at: Layout, i: Instr, junk: iset<Word>, s: State, t: State)
    requires Fair(at, i, s, junk) && Agree(junk, s, t) && !IsControl(i)
    ensures forall a: Word :: InTables(at, a) ==> MemByte(Effect(i, t).mem, a) == MemByte(t.mem, a)
  {
    hide Accesses, Effect, Accepted, MemByte, R, IsStore, InTables, Clear;
    forall a: Word | InTables(at, a)
      ensures MemByte(Effect(i, t).mem, a) == MemByte(t.mem, a)
    {
      SameEffect(i, junk, s, t, a);
      EffectMemory(i, t, a);
    }
  }

  /** What one instruction of the original does, its expansion does: not a control transfer. */
  lemma StepStraightAgrees(at: Layout, i: Instr, junk: iset<Word>, s: State, t: State)
    requires Fair(at, i, s, junk) && Agree(junk, s, t) && TablesIn(at, t) && !IsControl(i)
    ensures var t' := Exec(Code(at, i), t);
            Agree(JunkAfter(at, i, s, junk), Effect(i, s), t') && TablesIn(at, t')
  {
    hide Close, Agree, Effect, Exec, Code, Placement, JunkAfter, TablesIn, InTables, R, Clear, MemByte, Accesses, IsStore, StaysAbove;
    AgreePlacement(at, i, junk, s, t);
    EffectsAgree(at, i, junk, s, t);
    InstrCorrect(at, i, t);
    TablesUnwritten(at, i, junk, s, t);
    CloseAgrees(at, i, junk, s, t, Effect(i, s), Effect(i, t), Exec(Code(at, i), t));
    TablesSurvive(at, i, t, Effect(i, t), Exec(Code(at, i), t));
  }
}
