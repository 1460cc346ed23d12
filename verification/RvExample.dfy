/**
 The assumptions of `RvSimulation` can be met: every program that fits has an image, and there are a
 layout, a memory with the tables, and a program of tables, shifts, comparisons, memory accesses and
 jumps all of whose runs are as the macros demand.  The four defective uses fail in that memory.
 */
module RvExample {
  import opened RvMachine
  import opened RvScratch
  import opened RvLut
  import opened RvMacros
  import opened RvBasicMacros
  import opened RvEqual
  import opened RvSpec
  import opened RvLift
  import opened RvInstr
  import opened RvProgram
  import opened RvSimulation
  import opened RvDefects

  function Place(): Layout {
    Layout(0x1000, 0x1100, 0x1200, 0x1300, 0x1308, 0x1310, 0x10_0000)
  }

  /** Read-only data at their places, and zero elsewhere. */
  function Content(file: seq<Byte>, a: Word): Byte
    requires |file| == LUT_SIZE
  {
    var at := Place();
    if at.lut <= a < at.lut + LUT_SIZE then file[a - at.lut]
    else if a == at.sameResult then 1
    else if at.zero8 < a < at.zero8 + 256 then 1
    else if at.slt1 <= a < at.slt1 + 8 then BoolWord(a - at.slt1 in {1, 4, 5, 7})
    else if at.sltu1 <= a < at.sltu1 + 8 then BoolWord(a - at.sltu1 in {1, 2, 3, 7})
    else if at.or1 < a < at.or1 + 4 then 1
    else 0
  }

  function Memory(file: seq<Byte>): map<Word, Byte>
    requires |file| == LUT_SIZE
  {
    map a: Word | 0 <= a < 0x20_0000 :: Content(file, a)
  }

  lemma MemoryIs(file: seq<Byte>, a: Word)
    requires |file| == LUT_SIZE
    ensures MemByte(Memory(file), a) == if a < 0x20_0000 then Content(file, a) else 0
  {
    hide Content;
  }

  lemma TablesThere(file: seq<Byte>)
    requires HoldsTables(file)
    ensures TablesAt(Memory(file), Place().lut) && SmallTablesAt(Memory(file), Place())
  {
    forall k: nat | k < |file|
      ensures MemByte(Memory(file), Wrap(Place().lut + k)) == file[k]
    {
      MemoryIs(file, Wrap(Place().lut + k));
    }
    IncludedTables(file, Memory(file), Place().lut);
    forall a: Word
      ensures MemByte(Memory(file), a) == if a < 0x20_0000 then Content(file, a) else 0
    {
      MemoryIs(file, a);
    }
    hide Memory, TablesAt, HoldsTables;
  }

  // ----- linking -----

  /** The expansions of the first `k` instructions, one behind the other. */
  function Assembled(at: Layout, p: seq<Instr>, start: int, k: nat): seq<Base>
    requires Linkable(at, p, start) && k <= |p|
  {
    if k == 0 then []
    else Assembled(at, p, start, k - 1) + Expand(at, p[k - 1], AddrWord(at, p, start, k), TargetWord(at, p, start, k - 1))
  }

  function Image(at: Layout, p: seq<Instr>, start: int): map<Word, Base>
    requires Linkable(at, p, start)
  {
    var code := Assembled(at, p, start, |p|);
    map a: Word | InImage(|code|, start, a) :: code[(a - start) / 4]
  }

  predicate InImage(size: nat, start: int, a: Word) {
    start <= a < start + 4 * size && (a - start) % 4 == 0
  }

  lemma {:induction false} AssembledSize(at: Layout, p: seq<Instr>, start: int, k: nat)
    requires Linkable(at, p, start) && k <= |p|
    ensures 4 * |Assembled(at, p, start, k)| == Addr(at, p, start, k) - start
  {
    hide Expand, Size, Linkable, AddrWord, TargetWord;
    if k > 0 {
      AssembledSize(at, p, start, k - 1);
      SizeFixed(at, p[k - 1], AddrWord(at, p, start, k), TargetWord(at, p, start, k - 1));
    }
  }

  lemma {:induction false} AssembledPrefix(at: Layout, p: seq<Instr>, start: int, k: nat, m: nat)
    requires Linkable(at, p, start) && k <= m <= |p|
    ensures Assembled(at, p, start, k) <= Assembled(at, p, start, m)
    decreases m - k
  {
    hide Expand, Linkable, AddrWord, TargetWord;
    if k < m {
      AssembledPrefix(at, p, start, k, m - 1);
    }
  }

  /** Every program that fits in memory has an image. */
  lemma ProgramHasImage(at: Layout, p: seq<Instr>, start: int)
    requires Linkable(at, p, start)
    ensures Linked(at, p, start, Image(at, p, start))
  {
    hide Expand, Linkable, AddrWord, TargetWord, Image, CodeAt, Addr;
    forall k: nat | k < |p|
      ensures CodeAt(Image(at, p, start), Addr(at, p, start, k),
                     Expand(at, p[k], AddrWord(at, p, start, k + 1), TargetWord(at, p, start, k)))
    {
      InstructionPlaced(at, p, start, k);
    }
  }

  lemma InstructionPlaced(at: Layout, p: seq<Instr>, start: int, k: nat)
    requires Linkable(at, p, start) && k < |p|
    ensures CodeAt(Image(at, p, start), Addr(at, p, start, k),
                   Expand(at, p[k], AddrWord(at, p, start, k + 1), TargetWord(at, p, start, k)))
  {
    hide Expand, AddrWord, TargetWord, Addr, Size;
    var e := Expand(at, p[k], AddrWord(at, p, start, k + 1), TargetWord(at, p, start, k));
    var code, n := Assembled(at, p, start, |p|), |Assembled(at, p, start, k)|;
    AssembledSize(at, p, start, k);
    AssembledSize(at, p, start, |p|);
    AssembledPrefix(at, p, start, k + 1, |p|);
    assert Assembled(at, p, start, k + 1) == Assembled(at, p, start, k) + e;
    hide Linkable, Assembled;
    var pc := Addr(at, p, start, k);
    LinkRange(at, p, start);
    ImageHolds(at, p, start, pc, n, e);
  }

  lemma LinkRange(at: Layout, p: seq<Instr>, start: int)
    requires Linkable(at, p, start)
    ensures start >= 0 && Addr(at, p, start, |p|) < 0x1_0000_0000
  {
  }

  lemma ImageHolds(at: Layout, p: seq<Instr>, start: int, pc: int, n: nat, e: seq<Base>)
    requires Linkable(at, p, start) && start >= 0 && pc == start + 4 * n
    requires var code := Assembled(at, p, start, |p|);
             && n + |e| <= |code| && code[n..n + |e|] == e && start + 4 * |code| < 0x1_0000_0000
    ensures CodeAt(Image(at, p, start), pc, e)
  {
    hide Linkable, Assembled;
    var code := Assembled(at, p, start, |p|);
    forall k: nat | k < |e|
      ensures Holds(Image(at, p, start), pc, k, e[k])
    {
      assert code[n..n + |e|][k] == code[n + k];
      assert WordAt(pc, k) == start + 4 * (n + k);
    }
  }

  // ----- a program -----

  /** An endless loop over a half word in memory, with most kinds of macro in it. */
  function Program(): seq<Instr> {
    [IType(OpXor, 10, 10, 0x155),
     RType(OpSll, 11, 10, 12),
     StoreHalf(11, X0, 0x400),
     Load(SignedByte, 12, X0, 0x401),
     RType(OpSub, 13, 12, 10),
     RType(OpSlt, 14, 13, 11),
     Branch(Ne, 14, 10, 8),
     IsZero(15, 14),
     Jump(1, 0)]
  }

  lemma DoublingSize(rd: nat, n: nat)
    ensures |Doubling(rd, n)| == n
  {
  }

  lemma SlliSize(rd: nat, rs1: nat, imm: nat)
    requires imm < 16
    ensures |Slli(rd, rs1, imm)| <= 16
  {
    if imm > 0 {
      DoublingSize(rd, imm - 1);
    }
  }

  lemma PieceSizes(at: Layout, rd: nat, rs1: nat, k: nat, addr: int)
    ensures |La(rd, addr)| == 2 && |GetByte(rd, rs1, k)| == 2 && |Msb(rd, rs1)| <= 20 && |ShiftByte(rd, k)| <= 19
    ensures |LogicByte(rd, k)| == 8 && |Check8Same(rd, rs1, k)| == 8 && |Not(at, rd, rs1)| == 22 && |NotByte(k)| == 4
  {
    hide Slli;
    SlliSize(rd, rd, 1);
    SlliSize(TP, TP, 2);
  }

  lemma SllSize(at: Layout, rd: nat, rs1: nat, rs2: nat)
    ensures |Sll(at, rd, rs1, rs2)| <= 500
  {
    hide Slli, La, ShiftByte;
    PieceSizes(at, S0, 0, 3, 0);
    PieceSizes(at, S0, 0, 2, 0);
    PieceSizes(at, S0, 0, 1, 0);
    PieceSizes(at, S0, 0, 0, 0);
    SlliSize(TP, TP, 8);
    SlliSize(S0, S0, 2);
    ShiftRowSize(at, SllTable, S0, rs2);
    hide ShiftRow;
    assert |SllByte3()| <= 40 && |SllByte2()| <= 40 && |SllByte1()| <= 40;
    hide SllByte3, SllByte2, SllByte1;
    assert |SllBody()| <= 200;
  }

  lemma ShiftRowSize(at: Layout, t: Table, base: nat, rs2: nat)
    ensures |ShiftRow(at, t, base, rs2)| <= 100
  {
    hide Slli, Position;
    SlliSize(base, base, 2);
  }

  lemma SltSize(at: Layout, table: Word, rd: nat, rs1: nat, rs2: nat)
    ensures |SltTemplate(at, table, rd, rs1, rs2)| <= 500
  {
    hide Slli, La, Msb, Not;
    PieceSizes(at, GP, S0, 0, 0);
    PieceSizes(at, TP, S1, 0, table);
    PieceSizes(at, TP, TP, 0, 0);
    SlliSize(GP, GP, 1);
    assert |Sub(at, TP, S0, S1)| <= 50;
    hide Sub;
    assert |SignIndex(at)| <= 300;
    hide SignIndex;
  }

  lemma LogicSize(at: Layout, t: Table, rd: nat, rs1: nat, rs2: nat)
    ensures |Logic(at, t, rd, rs1, rs2)| <= 500
  {
    hide LogicByte, La;
    PieceSizes(at, rd, 0, 3, at.lut + Offset(t));
    PieceSizes(at, rd, 0, 2, 0);
    PieceSizes(at, rd, 0, 1, 0);
    PieceSizes(at, rd, 0, 0, 0);
    assert |LogicBytes(rd)| <= 40;
    hide LogicBytes;
  }

  lemma EqualitySizes(at: Layout, rd: nat, rs1: nat, rs2: nat)
    ensures |Seq(at, rd, rs1, rs2)| <= 500 && |Seqz(at, rd, rs1)| <= 500
  {
    hide La, Check8Same;
    PieceSizes(at, S0, GP, 0, at.checkSame);
    PieceSizes(at, S0, S1, 1, at.zero8);
    PieceSizes(at, S0, S1, 2, 0);
    PieceSizes(at, S0, S1, 3, 0);
    PieceSizes(at, TP, 0, 0, at.sameResult);
    assert |CheckBytes(at)| <= 50 && |ZeroBytes(at)| <= 50;
    hide CheckBytes, ZeroBytes;
  }

  lemma BranchSelectSize(higher: Word, lower: Word)
    ensures |BranchResolve(higher, lower)| <= 100
  {
    hide Slli;
    SlliSize(TP, TP, 2);
  }

  lemma LbSize(at: Layout, rd: nat, base: nat, off: int)
    ensures |Lb(at, rd, base, off)| <= 500
  {
    hide Slli, Position;
    SlliSize(rd, rd, 2);
  }

  lemma ProgramSizes(at: Layout, k: nat)
    requires k < |Program()|
    ensures Size(at, Program()[k]) <= 1000
  {
    hide Lb, Seq, Seqz, Logic, Sll, SltTemplate, Not, BranchResolve, La, Program;
    ProgramIs();
    SllSize(at, 11, 10, 12);
    SltSize(at, at.slt1, 14, 13, 11);
    LogicSize(at, XorTable, 10, 10, TP);
    EqualitySizes(at, TP, 14, 10);
    EqualitySizes(at, 15, 14, 0);
    BranchSelectSize(0, 0);
    LbSize(at, 12, X0, 0x401);
    PieceSizes(at, TP, 10, 0, 0);
    PieceSizes(at, 1, 10, 0, 0);
  }

  lemma ProgramIs()
    ensures var p := Program();
            && |p| == 9 && p[0] == IType(OpXor, 10, 10, 0x155) && p[1] == RType(OpSll, 11, 10, 12) && p[2] == StoreHalf(11, X0, 0x400)
            && p[3] == Load(SignedByte, 12, X0, 0x401) && p[4] == RType(OpSub, 13, 12, 10) && p[5] == RType(OpSlt, 14, 13, 11)
            && p[6] == Branch(Ne, 14, 10, 8) && p[7] == IsZero(15, 14) && p[8] == Jump(1, 0)
  {
  }

  lemma {:induction false} ProgramFits(at: Layout, k: nat)
    requires k <= |Program()|
    ensures Addr(at, Program(), 0, k) <= 4000 * k
  {
    hide Size, Program;
    if k > 0 {
      ProgramFits(at, k - 1);
      ProgramSizes(at, k - 1);
    }
  }

  lemma ProgramLinkable()
    ensures Linkable(Place(), Program(), 0)
  {
    hide Size, Program, Addr;
    ProgramIs();
    ProgramFits(Place(), 9);
    forall i | i in Program() && HasTarget(i)
      ensures i.target <= 9
    {
    }
  }

  // ----- its runs -----

  /** Only the stack pointer, well above everything, is not zero. */
  function Start(file: seq<Byte>): State
    requires |file| == LUT_SIZE
  {
    State(map[SP := 0x80_0000], Memory(file))
  }

  /** The next configuration of a program without indirect jumps; at the end it stands still. */
  function After(at: Layout, p: seq<Instr>, start: int, c: Config): Config
    requires Linkable(at, p, start)
  {
    if c.k >= |p| then c else
    match p[c.k]
    case Branch(cond, rs1, rs2, target) => Config(c.st, if Taken(cond, R(c.st, rs1), R(c.st, rs2)) then target else c.k + 1)
    case Jump(rd, target) => Config(SetR(c.st, rd, AddrWord(at, p, start, c.k + 1)), target)
    case i => Config(Effect(i, c.st), c.k + 1)
  }

  /** What holds throughout: `sp` is where it was, and the program goes on. */
  predicate Inside(c: Config) {
    R(c.st, SP) == 0x80_0000 && c.k < 9
  }

  lemma AfterInside(c: Config)
    requires Inside(c) && Linkable(Place(), Program(), 0)
    ensures |Program()| == 9 && Inside(After(Place(), Program(), 0, c))
    ensures Next(Place(), Program(), 0, c, After(Place(), Program(), 0, c))
  {
    hide Program, Linkable, Value, Loaded, BoolWord, Taken, AddrWord, ByteOf;
    ProgramIs();
  }

  function Trace(file: seq<Byte>, n: nat): (cs: seq<Config>)
    requires |file| == LUT_SIZE && Linkable(Place(), Program(), 0)
    ensures |cs| == n + 1
  {
    if n == 0 then [Config(Start(file), 0)]
    else
      var cs := Trace(file, n - 1);
      cs + [After(Place(), Program(), 0, cs[n - 1])]
  }

  lemma {:induction false} TraceIsRun(file: seq<Byte>, n: nat)
    requires |file| == LUT_SIZE && Linkable(Place(), Program(), 0)
    ensures IsRun(Place(), Program(), 0, Trace(file, n)) && Trace(file, n)[0] == Config(Start(file), 0)
    ensures forall j: nat | j <= n :: Inside(Trace(file, n)[j])
  {
    hide Next, After, Program, Linkable, Start, Inside;
    ProgramIs();
    StartInside(file);
    if n > 0 {
      var cs := Trace(file, n - 1);
      TraceIsRun(file, n - 1);
      InsideProgram(cs[n - 1]);
      assert cs[n - 1].k <= |Program()|;
      AfterInside(cs[n - 1]);
      assert Trace(file, n) == cs + [After(Place(), Program(), 0, cs[n - 1])];
    }
  }

  lemma StartInside(file: seq<Byte>)
    requires |file| == LUT_SIZE
    ensures Inside(Config(Start(file), 0)) && Config(Start(file), 0).k <= 9
  {
    hide Memory;
  }

  lemma InsideProgram(c: Config)
    requires Inside(c)
    ensures c.k < 9
  {
  }

  lemma AllInside(cs: seq<Config>)
    requires forall j: nat | j < |cs| :: Inside(cs[j])
    ensures forall j: nat | j < |cs| :: cs[j].k < 9
  {
    forall j: nat | j < |cs|
      ensures cs[j].k < 9
    {
      InsideProgram(cs[j]);
    }
  }

  /** Bytes that may differ between the program and its expansion. */
  predicate MayDiffer(a: Word) {
    InArea(0x80_0000, a) || InCheck(Place(), a)
  }

  lemma {:induction false} JunkIsSmall(cs: seq<Config>, j: nat, a: Word)
    requires j < |cs| && |Program()| == 9 && forall i: nat | i < |cs| :: Inside(cs[i])
    requires forall i: nat | i < |cs| :: cs[i].k < 9
    requires a in JunkAt(Place(), Program(), cs, j)
    ensures MayDiffer(a)
  {
    hide Program, Accesses, IsStore;
    if j > 0 {
      assert Inside(cs[j - 1]);
      if a in JunkAt(Place(), Program(), cs, j - 1) {
        JunkIsSmall(cs, j - 1, a);
      }
    }
  }

  lemma PlaceClear()
    ensures Clear(Place(), 0x80_0000)
  {
  }

  lemma StepFair(c: Config, junk: iset<Word>)
    requires Inside(c) && |Program()| == 9 && forall a: Word :: a in junk ==> MayDiffer(a)
    ensures Fair(Place(), Program()[c.k], c.st, junk)
  {
    hide Program, Clear, Accesses, MayDiffer, InTables, Accepted;
    ProgramIs();
    PlaceClear();
    var i := Program()[c.k];
    StepAccepted(c);
    forall a: Word | Accesses(i, c.st, a)
      ensures a == 0x400 || a == 0x401
      ensures !MayDiffer(a) && !InTables(Place(), a) && !(0x80_0000 - AREA <= a < 0x80_0000)
    {
      StepAccesses(c, a);
      NotSpecial(a);
    }
  }

  lemma StepAccepted(c: Config)
    requires Inside(c) && |Program()| == 9
    ensures Accepted(Program()[c.k])
  {
    hide Program;
    ProgramIs();
  }

  lemma StepAccesses(c: Config, a: Word)
    requires Inside(c) && |Program()| == 9 && Accesses(Program()[c.k], c.st, a)
    ensures a == 0x400 || a == 0x401
  {
    hide Program;
    ProgramIs();
  }

  lemma NotSpecial(a: Word)
    requires a == 0x400 || a == 0x401
    ensures !MayDiffer(a) && !InTables(Place(), a)
  {
  }

  /** With the tables that `gen-lut.c` writes, every run of the program meets the assumptions of `ProgramSimulated`. */
  lemma AssumptionsMet(file: seq<Byte>, n: nat)
    requires HoldsTables(file)
    ensures var at, p := Place(), Program();
            && Linkable(at, p, 0) && Linked(at, p, 0, Image(at, p, 0))
            && var cs := Trace(file, n);
               && |cs| == n + 1 && IsRun(at, p, 0, cs) && FairRun(at, p, 0, cs)
               && Matches(at, iset{}, cs[0].st, Start(file))
  {
    hide Linkable, Linked, Program, Memory, Trace, Fair, Image, JunkAt, Inside, IsRun;
    var at, p := Place(), Program();
    ProgramLinkable();
    ProgramHasImage(at, p, 0);
    ProgramIs();
    TablesThere(file);
    var cs := Trace(file, n);
    TraceIsRun(file, n);
    forall j: nat | j + 1 < |cs|
      ensures FairStep(at, p, 0, cs, j)
    {
      RunBounds(at, p, 0, cs);
      forall a: Word | a in JunkAt(at, p, cs, j)
        ensures MayDiffer(a)
      {
        AllInside(cs);
        JunkIsSmall(cs, j, a);
      }
      StepFair(cs[j], JunkAt(at, p, cs, j));
    }
  }

  // ----- the defects are real -----

  function Bad(file: seq<Byte>): State
    requires |file| == LUT_SIZE
  {
    State(map[SP := 0x80_0000, S0 := 5, 11 := 0x1200_0000], Memory(file))
  }

  lemma BadPlacement(file: seq<Byte>)
    requires HoldsTables(file)
    ensures Placement(Place(), Bad(file))
    ensures R(Bad(file), SP) == 0x80_0000 && R(Bad(file), S0) == 5 && R(Bad(file), 10) == 0 && R(Bad(file), 11) == 0x1200_0000
  {
    hide Memory, TablesAt, SmallTablesAt;
    TablesThere(file);
    PlaceClear();
  }

  /** Outside the read-only data the memory is zero. */
  lemma BadMemory(file: seq<Byte>, a: Word)
    requires |file| == LUT_SIZE
    ensures a < 0x1000 || a >= 0x20_0000 ==> MemByte(Bad(file).mem, a) == 0
    ensures MemByte(Bad(file).mem, 0x1201) == 1
  {
    MemoryIs(file, a);
    MemoryIs(file, 0x1201);
  }

  /** `seqz s0, a0` with a0 = 0 leaves 5 in `s0`. */
  lemma SeqzToS0Fails(file: seq<Byte>)
    requires HoldsTables(file)
    ensures !Works(Place(), IsZero(S0, 10), Bad(file))
  {
    hide Works, Placement, Bad;
    BadPlacement(file);
    SeqzWorksExactlyWhen(Place(), S0, 10, Bad(file));
  }

  /** `sltz sp, a1` with a1 = 0x12000000 overwrites the byte at 12. */
  lemma SltzToSpFails(file: seq<Byte>)
    requires HoldsTables(file)
    ensures !Works(Place(), IsNegative(SP, 11), Bad(file))
  {
    hide Works, Placement, Bad;
    BadPlacement(file);
    SltzToSpWorksExactlyWhen(Place(), 11, Bad(file));
    BadMemory(file, 12);
    assert TwiceTop(0x1200_0000) == 0x24;
    assert !Harmless(Place(), Bad(file), 12, 0x24);
  }

  /** `seqz sp, a0` with a0 = 0 puts the word at address -3 in `s0`. */
  lemma SeqzToSpFails(file: seq<Byte>)
    requires HoldsTables(file)
    ensures !Works(Place(), IsZero(SP, 10), Bad(file))
  {
    hide Works, Placement, Bad, StoreWord, MemByte, SeqzRestored;
    var s := Bad(file);
    BadPlacement(file);
    SeqzWorksExactlyWhen(Place(), SP, 10, s);
    SeqzRestoresZero(file);
  }

  lemma SeqzRestoresZero(file: seq<Byte>)
    requires HoldsTables(file)
    ensures SeqzRestored(Bad(file), 10) == 0
  {
    hide Bad, StoreWord, MemByte, SeqzSaved, R;
    BadPlacement(file);
    SavedZero(file, 0xFFFF_FFFD);
    SavedZero(file, 0xFFFF_FFFE);
    SavedZero(file, 0xFFFF_FFFF);
    SavedZero(file, 0);
  }

  /** The slots are far away from the ends of memory. */
  lemma SlotsFar(file: seq<Byte>, a: Word)
    requires HoldsTables(file)
    ensures var s := Bad(file);
            Wrap(R(s, SP) + VAR_A) == 0x7F_FFF0 && Wrap(R(s, SP) + SAVE_1) == 0x7F_FFFC
    ensures a == 0 || a >= 0xFFFF_0000 ==> !InWord(0x7F_FFF0, a) && !InWord(0x7F_FFFC, a)
  {
    hide Bad;
    BadPlacement(file);
    WrapSmall(0x7F_FFF0);
    WrapSmall(0x7F_FFFC);
    WordFar(0x7F_FFF0, a);
    WordFar(0x7F_FFFC, a);
    hide Wrap, InWord;
  }

  lemma WordFar(b: Word, a: Word)
    requires 0 < b < 0x80_0000
    ensures a == 0 || a >= 0xFFFF_0000 ==> !InWord(b, a)
  {
    WrapSmall(b + 1);
    WrapSmall(b + 2);
    WrapSmall(b + 3);
    hide Wrap;
  }

  lemma SavedZero(file: seq<Byte>, a: Word)
    requires HoldsTables(file) && (a == 0 || a >= 0xFFFF_0000)
    ensures MemByte(SeqzSaved(Bad(file), 10), a) == 0
  {
    hide Bad, StoreWord, MemByte, Wrap, InWord, R;
    var s := Bad(file);
    SlotsFar(file, a);
    BadMemory(file, a);
    StoreWordAt(s.mem, 0x7F_FFF0, R(s, 10), a);
    StoreWordAt(StoreWord(s.mem, 0x7F_FFF0, R(s, 10)), 0x7F_FFFC, R(s, S0), a);
  }

  /** `lb sp, 0x1201(x0)`, a byte 1, writes to 0xFFFFFFF4. */
  lemma LbToSpFails(file: seq<Byte>)
    requires HoldsTables(file)
    ensures !Works(Place(), Load(SignedByte, SP, X0, 0x1201), Bad(file))
  {
    hide Works, Placement, Bad, MemByte, LbHarmless;
    var s := Bad(file);
    BadPlacement(file);
    BadMemory(file, 0);
    assert Ea(s, X0, 0x1201) == 0x1201;
    LbToSpWorksExactlyWhen(Place(), X0, 0x1201, s);
    LbHarms(file);
  }

  lemma LbHarms(file: seq<Byte>)
    requires HoldsTables(file)
    ensures !LbHarmless(Place(), Bad(file), 1)
  {
    hide Bad, MemByte, StoreWord, R, Misread, HarmlessWord;
    var s := Bad(file);
    BadPlacement(file);
    BadMemory(file, 0xFFFF_FFF4);
    LbMisreads(file);
    assert Wrap(1 + VAR_A + 3) == 0xFFFF_FFF4 && Wrap(0x100_0000 + VAR_A) == 0xFF_FFF0;
    assert !Harmless(Place(), s, 0xFFFF_FFF4, 1);
    assert !InWord(0xFF_FFF0, 0xFFFF_FFF4);
  }

  /** The word before the byte is zero. */
  lemma LbMisreads(file: seq<Byte>)
    requires HoldsTables(file)
    ensures Misread(Bad(file), 1) == 0x100_0000
  {
    hide Bad, MemByte, StoreWord, R, Spilled;
    var s := Bad(file);
    LbSpilled(file, 0xFFFF_FFF1);
    LbSpilled(file, 0xFFFF_FFF2);
    LbSpilled(file, 0xFFFF_FFF3);
    LbSpilled(file, 0xFFFF_FFF4);
    assert Wrap(1 + VAR_A) == 0xFFFF_FFF1;
    assert Wrap(0xFFFF_FFF1 + 1) == 0xFFFF_FFF2 && Wrap(0xFFFF_FFF1 + 2) == 0xFFFF_FFF3 && Wrap(0xFFFF_FFF1 + 3) == 0xFFFF_FFF4;
    hide Wrap;
    assert WordOf(0, 0, 0, 1) == 0x100_0000;
  }

  lemma LbSpilled(file: seq<Byte>, a: Word)
    requires HoldsTables(file) && 0xFFFF_0000 <= a
    ensures MemByte(Spilled(Bad(file), 1), a) == if a == 0xFFFF_FFF4 then 1 else 0
  {
    hide Bad, MemByte, StoreWord, R, InWord;
    var s := Bad(file);
    SlotsFar(file, a);
    BadMemory(file, a);
    var m := StoreWord(s.mem, 0x7F_FFF0, 0);
    StoreWordAt(s.mem, 0x7F_FFF0, 0, a);
    SetByteRead(m, 0xFFFF_FFF4, 1);
    assert Wrap(1 + VAR_A + 3) == 0xFFFF_FFF4;
    hide Wrap;
  }
}
