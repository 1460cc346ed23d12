/**
 One instruction: running its expansion does what the instruction does, except for `tp`, `gp`, the
 scratch slots and the marking array of `seq`.
 */
module RvInstr {
  import opened Bits
  import opened RvMachine
  import opened RvScratch
  import opened RvLut
  import opened RvMacros
  import opened RvBasicMacros
  import opened RvCompare
  import opened RvLogic
  import opened RvEqual
  import opened RvShiftRuns
  import opened RvShift
  import opened RvMemory
  import opened RvRefine
  import opened RvKeepsSp
  import opened RvShiftValues
  import opened RvSpec
  import opened RvLift

  // ----- inside the expansion -----

  /** The table-driven comparisons give the truth value. */
  lemma SltValue(at: Layout, l: Local, a: Word, b: Word)
    requires Ready(at, l)
    ensures MemByte(l.mem, Wrap(at.slt1 + SignsOf(a, b))) == Value(OpSlt, a, b)
    ensures MemByte(l.mem, Wrap(at.sltu1 + SignsOf(a, b))) == Value(OpSltu, a, b)
  {
    hide TablesAt, MemByte, SignsOf, Wrap, Clear, SignedWord;
    SignTables(a, b);
    FetchSymbol(at, l, at.slt1, SignsOf(a, b));
    FetchSymbol(at, l, at.sltu1, SignsOf(a, b));
  }

  /** The shifts of the tables are the shifts of the manual. */
  lemma ShiftValue(op: Op, a: Word, b: Word)
    requires op in {OpSll, OpSrl, OpSra}
    ensures Value(op, a, b) == if op == OpSll then Wrap(Shl(a, b % 32)) else if op == OpSrl then ShrWord(a, b % 32) else Sra(a, b % 32)
  {
    hide Shl, ShrWord, Sra, Pow2, SignedWord, Wrap;
    ShiftMeaning(a, b % 32);
  }

  lemma OpRuns(at: Layout, op: Op, rd: nat, rs1: nat, rs2: nat, l: Local)
    requires Ready(at, l) && OpAccepted(op, rd, rs1, rs2)
    ensures var t := LExec(OpCode(at, op, rd, rs1, rs2), l);
            Same(l, t, {rd, TP, GP}, AllCells())
            && (rd != X0 ==> LR(t, rd) == Value(op, LR(l, rs1), LR(l, rs2)))
  {
    hide LR, LExec, Sub, SltTemplate, Logic, Sll, ShiftRight, Same, AllCells, Cells, MemByte, Wrap, Sra, ShrWord, Shl, Pow2, Ready, And, Or, Xor;
    match op {
      case OpSub =>
        SubRuns(at, rd, rs1, rs2, l);
        ManyCells();
        SameWider(l, LExec(Sub(at, rd, rs1, rs2), l), {rd, TP}, Cells(SAVE_3) + Cells(VAR_C) + Cells(VAR_D), {rd, TP, GP}, AllCells());
      case OpSlt =>
        SltTemplateRuns(at, at.slt1, rd, rs1, rs2, l);
        SltValue(at, l, LR(l, rs1), LR(l, rs2));
      case OpSltu =>
        SltTemplateRuns(at, at.sltu1, rd, rs1, rs2, l);
        SltValue(at, l, LR(l, rs1), LR(l, rs2));
      case OpSll =>
        SllRuns(at, rd, rs1, rs2, l);
        ShiftValue(op, LR(l, rs1), LR(l, rs2));
      case OpSrl =>
        ShiftRightRuns(at, false, rd, rs1, rs2, l);
        ShiftValue(op, LR(l, rs1), LR(l, rs2));
      case OpSra =>
        ShiftRightRuns(at, true, rd, rs1, rs2, l);
        ShiftValue(op, LR(l, rs1), LR(l, rs2));
      case _ =>
        LogicOpRuns(at, op, rd, rs1, rs2, l);
    }
  }

  lemma ManyCells()
    ensures Cells(SAVE_3) + Cells(VAR_C) + Cells(VAR_D) <= AllCells()
    ensures Cells(VAR_A) + Cells(VAR_B) + Cells(VAR_C) + Cells(VAR_D) <= AllCells()
    ensures Cells(VAR_A) + Cells(VAR_C) <= AllCells() && Cells(VAR_A) + Cells(SAVE_1) <= AllCells()
    ensures Cells(VAR_A) <= AllCells() && Cells(VAR_C) <= AllCells() && {} <= AllCells()
  {
  }

  lemma LogicOpRuns(at: Layout, op: Op, rd: nat, rs1: nat, rs2: nat, l: Local)
    requires Ready(at, l) && IsLogic(op) && OpAccepted(op, rd, rs1, rs2)
    ensures var t := LExec(OpCode(at, op, rd, rs1, rs2), l);
            Same(l, t, {rd, TP, GP}, AllCells())
            && (rd != X0 ==> LR(t, rd) == Value(op, LR(l, rs1), LR(l, rs2)))
  {
    hide LR, LExec, Logic, Same, AllCells, Cells, TableWord, Value, Ready, OpCode, LogicTable;
    LogicCode(at, op, rd, rs1, rs2);
    ManyCells();
    if rd == X0 {
      NoCode(l);
    } else {
      LogicRuns(at, LogicTable(op), rd, rs1, rs2, l);
      LogicValue(op, LR(l, rs1), LR(l, rs2));
      SameWider(l, LExec(Logic(at, LogicTable(op), rd, rs1, rs2), l), {rd, TP},
                Cells(VAR_A) + Cells(VAR_B) + Cells(VAR_C) + Cells(VAR_D), {rd, TP, GP}, AllCells());
    }
  }

  lemma LogicCode(at: Layout, op: Op, rd: nat, rs1: nat, rs2: nat)
    requires IsLogic(op)
    ensures OpCode(at, op, rd, rs1, rs2) == if rd == X0 then [] else Logic(at, LogicTable(op), rd, rs1, rs2)
    ensures LogicTable(op) in {AndTable, OrTable, XorTable}
  {
    hide Logic;
  }

  lemma NoCode(l: Local)
    ensures LExec([], l) == l && forall regs, cells :: Same(l, l, regs, cells)
  {
  }

  lemma LogicValue(op: Op, a: Word, b: Word)
    requires IsLogic(op)
    ensures TableWord(LogicTable(op), a, b) == Value(op, a, b)
  {
    hide And, Or, Xor, TableWord;
    TableWordMeaning(a, b);
    WrapSmall(TableWord(LogicTable(op), a, b));
  }

  lemma Numbers()
    ensures X0 == 0 && SP == 2 && GP == 3 && TP == 4
  {
  }

  lemma ITypeCode(at: Layout, op: Op, rd: nat, rs1: nat, imm: int)
    requires Accepted(IType(op, rd, rs1, imm))
    ensures Code(at, IType(op, rd, rs1, imm)) == [Addi(TP, X0, imm)] + OpCode(at, op, rd, rs1, TP)
    ensures OpAccepted(op, rd, rs1, TP) && rs1 != TP
  {
    hide OpCode;
  }

  lemma ITypeRuns(at: Layout, op: Op, rd: nat, rs1: nat, imm: int, l: Local)
    requires Ready(at, l) && Accepted(IType(op, rd, rs1, imm))
    ensures var t := LExec(Code(at, IType(op, rd, rs1, imm)), l);
            Same(l, t, {rd, TP, GP}, AllCells())
            && (rd != X0 ==> LR(t, rd) == Value(op, LR(l, rs1), Wrap(imm)))
  {
    hide *;
    Numbers();
    ITypeCode(at, op, rd, rs1, imm);
    LExecAppend([Addi(TP, X0, imm)], OpCode(at, op, rd, rs1, TP), l);
    var t1 := LExec([Addi(TP, X0, imm)], l);
    AddImm(TP, X0, imm, l);
    XZero(l);
    SameReg(l, t1, {TP}, {}, rs1);
    ReadyFrame(at, l, t1, {TP}, {});
    OpRuns(at, op, rd, rs1, TP, t1);
    ManyCells();
    SameWider(l, t1, {TP}, {}, {rd, TP, GP}, AllCells());
    SameChain(l, t1, LExec(OpCode(at, op, rd, rs1, TP), t1), {rd, TP, GP}, AllCells());
  }

  lemma ShiftImmRuns(at: Layout, op: Op, rd: nat, rs1: nat, shamt: nat, l: Local)
    requires Ready(at, l) && Accepted(ShiftImm(op, rd, rs1, shamt)) && !TopByteToSp(ShiftImm(op, rd, rs1, shamt))
    ensures var t := LExec(Code(at, ShiftImm(op, rd, rs1, shamt)), l);
            Same(l, t, {rd, TP, GP}, AllCells())
            && (rd != X0 ==> LR(t, rd) == Value(op, LR(l, rs1), Wrap(shamt)))
  {
    hide LR, LExec, Same, AllCells, Cells, Ready, Slli, ShiftRightImm, ShrWord, Sra, Shl, Value, Wrap;
    WrapSmall(shamt);
    ShiftValue(op, LR(l, rs1), Wrap(shamt));
    if op == OpSll {
      SlliRuns(rd, rs1, shamt, l);
      ManyCells();
      SameWider(l, LExec(Slli(rd, rs1, shamt), l), {rd, TP}, Cells(VAR_A) + Cells(VAR_C), {rd, TP, GP}, AllCells());
    } else {
      ShiftRightImmRuns(at, op == OpSra, rd, rs1, shamt, l);
    }
  }

  lemma NextByte(l: Local, base: nat, off: int)
    ensures Wrap(LEa(l, base, off) + 1) == LEa(l, base, off + 1)
  {
  }

  lemma LoadRuns(at: Layout, width: Narrow, rd: nat, base: nat, off: int, l: Local)
    requires Ready(at, l) && Accepted(Load(width, rd, base, off))
    requires Outside(l, base, off, 1) && (width != SignedByte ==> Outside(l, base, off + 1, 1))
    ensures var t := LExec(Code(at, Load(width, rd, base, off)), l);
            Same(l, t, {rd, TP, GP}, AllCells())
            && (rd != X0 ==> LR(t, rd) == Loaded(width, l.mem, LEa(l, base, off)))
  {
    hide LR, LExec, Same, AllCells, Cells, Ready, Lb, Lh, Lhu, MemByte, Wrap;
    NextByte(l, base, off);
    match width {
      case SignedByte =>
        LbRuns(at, rd, base, off, l);
      case SignedHalf =>
        LhRuns(at, rd, base, off, l);
      case UnsignedHalf =>
        LhuRuns(rd, base, off, l);
        ManyCells();
        SameWider(l, LExec(Lhu(rd, base, off), l), {rd, TP}, Cells(VAR_A), {rd, TP, GP}, AllCells());
    }
  }

  // ----- on the machine -----

  /** The data accesses of an instruction. */
  predicate Accesses(i: Instr, s: State, a: Word) {
    match i
    case Plain(Lw(_, base, off)) => exists k: nat :: k < 4 && a == Nth(s, base, off, k)
    case Plain(Lbu(_, base, off)) => a == Ea(s, base, off)
    case Plain(Sw(_, base, off)) => exists k: nat :: k < 4 && a == Nth(s, base, off, k)
    case Plain(Sb(_, base, off)) => a == Ea(s, base, off)
    case Load(SignedByte, _, base, off) => a == Ea(s, base, off)
    case Load(_, _, base, off) => a == Ea(s, base, off) || a == Wrap(Ea(s, base, off) + 1)
    case StoreHalf(_, base, off) => a == Ea(s, base, off) || a == Wrap(Ea(s, base, off) + 1)
    case _ => false
  }

  function Nth(s: State, base: nat, off: int, k: nat): Word {
    Wrap(Ea(s, base, off) + k)
  }

  predicate IsStore(i: Instr) {
    (i.Plain? && (i.b.Sw? || i.b.Sb?)) || i.StoreHalf?
  }

  /** No data access goes to the scratch area below `sp` (line 7). */
  ghost predicate StaysAbove(i: Instr, s: State) {
    forall a: Word :: Accesses(i, s, a) ==> !(R(s, SP) - AREA <= a < R(s, SP))
  }

  lemma NarrowOutside(i: Instr, s: State)
    requires R(s, SP) >= AREA && StaysAbove(i, s) && (i.Load? || i.StoreHalf?)
    ensures Outside(Split(s), i.base, i.off, 1)
    ensures i.StoreHalf? || i.width != SignedByte ==> Outside(Split(s), i.base, i.off + 1, 1)
  {
    assert LEa(Split(s), i.base, i.off) == Ea(s, i.base, i.off);
    NextByte(Split(s), i.base, i.off);
    assert Accesses(i, s, Ea(s, i.base, i.off));
    assert i.StoreHalf? || i.width != SignedByte ==> Accesses(i, s, Wrap(Ea(s, i.base, i.off) + 1));
  }

  // ----- srai by 24 with the stack pointer as the target -----

  /** The code of `srai sp, rs1, 24` up to its last instruction, which reads the table. */
  function TopByteIndex(at: Layout, rs1: nat): (seq<Base>, seq<Base>) {
    ([Sw(rs1, SP, VAR_A)] + La(TP, at.lut + Position(SraTable, 24, 0, 0)),
     [Lbu(SP, SP, VAR_A + 3)] + Slli(SP, SP, 2) + [Add(TP, TP, SP)])
  }

  lemma TopByteCode(at: Layout, rs1: nat)
    ensures var (c1, c2) := TopByteIndex(at, rs1);
            && ShiftRightImm(at, true, SP, rs1, 24) == c1 + c2 + [Lw(SP, TP, 0)] && KeepsSp(c1) && Ending(c2)
  {
    hide Slli, La, Position;
    LaKeeps(TP, at.lut + Position(SraTable, 24, 0, 0));
    SaveKeeps(rs1);
    SlliArithmetic(SP, SP, 2);
    var (c1, c2) := TopByteIndex(at, rs1);
    assert c2[1..] == Slli(SP, SP, 2) + [Add(TP, TP, SP)];
    assert [Add(TP, TP, SP), Lw(SP, TP, 0)] == [Add(TP, TP, SP)] + [Lw(SP, TP, 0)];
    hide KeepsSp;
    KeepsSpAppend([Sw(rs1, SP, VAR_A)], La(TP, at.lut + Position(SraTable, 24, 0, 0)));
  }

  lemma SaveKeeps(rs1: nat)
    ensures KeepsSp([Sw(rs1, SP, VAR_A)])
  {
  }

  lemma TopByteAddress(at: Layout, rs1: nat, l: Local)
    requires Ready(at, l)
    ensures var (c1, c2) := TopByteIndex(at, rs1); var t := LExec(c1 + c2, l);
            && Same(l, t, {SP, TP, GP}, AllCells())
            && LR(t, TP) == Wrap(at.lut + Position(SraTable, 24, 0, 0) + ByteOf(LR(l, rs1), 3) * 4)
  {
    hide LExec, LR, AreaWord, Ready, Same, Wrap, Shl, Position, La, Slli, ByteOf, AllCells;
    var addr := at.lut + Position(SraTable, 24, 0, 0);
    var b := ByteOf(LR(l, rs1), 3);
    var (c1, c2) := TopByteIndex(at, rs1);
    LExecAppend(c1, c2, l);
    LExecAppend([Sw(rs1, SP, VAR_A)], La(TP, addr), l);
    var t1 := LExec([Sw(rs1, SP, VAR_A)], l);
    StoreOne(rs1, VAR_A, l);
    AreaWordBytes(t1, VAR_A);
    LutAddress(at, l, SraTable, 24) by { assert Rows(SraTable) == 32; }
    var t2 := LExec(La(TP, addr), t1);
    LaRuns(TP, addr, t1);
    SameCell(t1, t2, {TP}, {}, VAR_A + 3);
    Join3([Lbu(SP, SP, VAR_A + 3)], Slli(SP, SP, 2), [Add(TP, TP, SP)], t2);
    var t3 := LExec([Lbu(SP, SP, VAR_A + 3)], t2);
    LoadByteFrom(SP, VAR_A + 3, t2);
    SameReg(t2, t3, {SP}, {}, TP);
    var t4 := LExec(Slli(SP, SP, 2), t3);
    SlliShortRuns(SP, SP, 2, t3);
    SameReg(t3, t4, {SP}, {}, TP);
    TimesFour(b);
    var t5 := LExec([Add(TP, TP, SP)], t4);
    AddPairRuns(TP, TP, SP, t4);
    TopByteFrame(l, t1, t2, t3, t4, t5);
  }

  lemma TopByteFrame(l: Local, t1: Local, t2: Local, t3: Local, t4: Local, t5: Local)
    requires Same(l, t1, {}, Cells(VAR_A)) && Same(t1, t2, {TP}, {}) && Same(t2, t3, {SP}, {}) && Same(t3, t4, {SP}, {})
    requires Same(t4, t5, {TP}, {})
    ensures Same(l, t5, {SP, TP, GP}, AllCells())
  {
    hide Same, AllCells;
    EveryCell();
    var rs, cs := {SP, TP, GP}, AllCells();
    SameWider(l, t1, {}, Cells(VAR_A), rs, cs);
    SameWider(t1, t2, {TP}, {}, rs, cs);
    SameWider(t2, t3, {SP}, {}, rs, cs);
    SameWider(t3, t4, {SP}, {}, rs, cs);
    SameWider(t4, t5, {TP}, {}, rs, cs);
    SameChain(l, t1, t2, rs, cs);
    SameChain(l, t2, t3, rs, cs);
    SameChain(l, t3, t4, rs, cs);
    SameChain(l, t4, t5, rs, cs);
  }

  /** The table is outside the slots that were below `sp`, wherever `sp` points now. */
  lemma TopByteRead(at: Layout, s: State, t: State, lt: Local, b: Byte)
    requires Placement(at, s) && Refines(R(s, SP), t, lt) && lt.mem == s.mem
    requires LR(lt, TP) == Wrap(at.lut + Position(SraTable, 24, 0, 0) + b * 4)
    ensures MemWord(t.mem, Ea(t, TP, 0)) == Entry(SraTable, 24, b)
  {
    hide Entry, Position, MemByte, WordOf, AreaByte, Wrap, Misses, TablesAt, SmallTablesAt, Clear, LR, R;
    var sp, a := R(s, SP), LR(lt, TP);
    SplitReady(at, s);
    assert EntrySize(SraTable) == 4;
    FetchWord(at, Split(s), SraTable, 24, b);
    SameRegisters(sp, t, lt, TP);
    RvRefine.ZeroOffset(a);
    AreaBelow(at, s);
    MissesEach(sp, a, 0);
    MissesEach(sp, a, 1);
    MissesEach(sp, a, 2);
    MissesEach(sp, a, 3);
  }

  lemma TopByteToSpCorrect(at: Layout, s: State, rs1: nat)
    requires Placement(at, s)
    ensures Close(at, R(s, SP), SetR(s, SP, Sra(R(s, rs1), 24)), Exec(ShiftRightImm(at, true, SP, rs1, 24), s))
  {
    hide Close, LExec, Exec, ShiftRightImm, Same, SameBut, AllCells, KeepsSp, Ending, Placement, Ready, Refines, LR, R, Split, Wrap, Position,
         Entry, Sra, SetR, LSet, TopByteIndex, ByteOf, MemWord, ShrWord;
    var sp, l, b := R(s, SP), Split(s), ByteOf(R(s, rs1), 3);
    var (c1, c2) := TopByteIndex(at, rs1);
    SplitReady(at, s);
    TopByteCode(at, rs1);
    TopByteAddress(at, rs1, l);
    var t, lt := Exec(c1 + c2, s), LExec(c1 + c2, l);
    SameIsSameBut(at, l, lt, {SP, TP, GP}, AllCells(), {SP, TP, GP}, AllCells());
    SameMemory(l, lt, {SP, TP, GP}, AllCells());
    SplitMemory(s);
    LateRefines(c1, c2, sp, s, l);
    TopByteRead(at, s, t, lt, b);
    TopByteShift(R(s, rs1));
    ExecAppend(c1 + c2, [Lw(SP, TP, 0)], s);
    Exec1(Lw(SP, TP, 0), t);
    SetRefines(sp, t, lt, SP, Entry(SraTable, 24, b));
    TopByteSet(at, l, lt, Entry(SraTable, 24, b));
    Lift(at, s, SetR(t, SP, Entry(SraTable, 24, b)), LSet(lt, SP, Entry(SraTable, 24, b)), SP, Entry(SraTable, 24, b));
  }

  lemma SplitMemory(s: State)
    ensures Split(s).mem == s.mem && Split(s).ok
  {
  }

  lemma TopByteSet(at: Layout, l: Local, lt: Local, v: Word)
    requires SameBut(at, l, lt, {SP, TP, GP}, AllCells())
    ensures SameBut(at, l, LSet(lt, SP, v), {SP, TP, GP}, AllCells()) && LR(LSet(lt, SP, v), SP) == v
  {
    hide AllCells;
  }

  lemma ShLift(at: Layout, i: Instr, s: State)
    requires Placement(at, s) && i.StoreHalf? && Accepted(i) && StaysAbove(i, s)
    ensures Close(at, R(s, SP), Effect(i, s), Exec(Code(at, i), s))
  {
    hide LExec, Exec, ShHalf, KeepsSp, Clear, TablesAt, SmallTablesAt, AreaByte, ByteOf;
    var sp, l := R(s, SP), Split(s);
    var code := ShHalf(i.rs, i.base, i.off);
    var lt, t := LExec(code, l), Exec(code, s);
    SplitReady(at, s);
    NarrowOutside(i, s);
    ShRuns(i.rs, i.base, i.off, l);
    ShHalfKeeps(i.rs, i.base, i.off);
    ExecRefines(code, sp, s, l);
    SplitAddress(s, i.base, i.off);
    NextByte(l, i.base, i.off);
    assert lt.mem == Effect(i, s).mem;
    forall r: nat | r !in {TP, GP}
      ensures R(t, r) == R(Effect(i, s), r)
    {
      SameRegisters(sp, t, lt, r);
      assert LR(lt, r) == LR(l, r);
    }
  }

  lemma PlainClose(at: Layout, sp: Word, s: State, t: State)
    requires t == s
    ensures Close(at, sp, s, t)
  {
  }

  /** Every accepted instruction that is not a control transfer: its expansion has its effect. */
  lemma InstrCorrect(at: Layout, i: Instr, s: State)
    requires Placement(at, s) && Accepted(i) && !IsControl(i) && StaysAbove(i, s)
    ensures Close(at, R(s, SP), Effect(i, s), Exec(Code(at, i), s))
  {
    hide LExec, Exec, OpCode, Sub, Slli, ShiftRightImm, Lb, Lh, Lhu, ShHalf, Not, Seqz, Msb, Same, SameBut, AllCells, Cells, KeepsSp,
         Close, Split, Ready, LR, R, SetR, Value, Loaded, Clear, TablesAt, SmallTablesAt, MemByte, ByteOf, Step, BoolWord;
    var l := Split(s);
    SplitReady(at, s);
    match i {
      case Plain(b) =>
        Exec1(b, s);
        PlainClose(at, R(s, SP), Step(b, s), Exec([b], s));
      case RType(op, rd, rs1, rs2) =>
        OpRuns(at, op, rd, rs1, rs2, l);
        LiftCode(at, i, s, rd, Value(op, R(s, rs1), R(s, rs2)));
      case IType(op, rd, rs1, imm) =>
        ITypeRuns(at, op, rd, rs1, imm, l);
        LiftCode(at, i, s, rd, Value(op, R(s, rs1), Wrap(imm)));
      case ShiftImm(op, rd, rs1, shamt) =>
        if TopByteToSp(i) {
          TopByteToSpCorrect(at, s, rs1);
          TopByteValue(at, s, rs1);
        } else {
          ShiftImmRuns(at, op, rd, rs1, shamt, l);
          LiftCode(at, i, s, rd, Value(op, R(s, rs1), Wrap(shamt)));
        }
      case Load(width, rd, base, off) =>
        AreaBelow(at, s);
        NarrowOutside(i, s);
        LoadRuns(at, width, rd, base, off, l);
        SplitAddress(s, base, off);
        LiftCode(at, i, s, rd, Loaded(width, s.mem, Ea(s, base, off)));
      case StoreHalf(rs, base, off) =>
        ShLift(at, i, s);
      case NotOf(rd, rs) =>
        NotRuns(at, rd, rs, l);
        ManyCells();
        SameWider(l, LExec(Code(at, i), l), {rd, TP}, Cells(SAVE_3) + Cells(VAR_C) + Cells(VAR_D), {rd, TP, GP}, AllCells());
        LiftCode(at, i, s, rd, 0xFFFF_FFFF - R(s, rs));
      case IsZero(rd, rs) =>
        SeqzRuns(at, rd, rs, l);
        ManyCells();
        SameWider(l, LExec(Code(at, i), l), {rd, TP, GP}, Cells(VAR_A) + Cells(SAVE_1), {rd, TP, GP}, AllCells());
        LiftCode(at, i, s, rd, BoolWord(R(s, rs) == 0));
      case IsNegative(rd, rs) =>
        MsbRuns(rd, rs, l);
        ManyCells();
        SignIsBit(R(s, rs));
        SameWider(l, LExec(Code(at, i), l), {rd}, Cells(VAR_C), {rd, TP, GP}, AllCells());
        LiftCode(at, i, s, rd, BoolWord(SignedWord(R(s, rs)) < 0));
    }
  }

  lemma LiftCode(at: Layout, i: Instr, s: State, rd: nat, v: Word)
    requires Placement(at, s) && Accepted(i) && !i.Plain? && !i.StoreHalf? && !IsControl(i) && !TopByteToSp(i)
    requires var l := Split(s); var t := LExec(Code(at, i), l);
             Same(l, t, {rd, TP, GP}, AllCells()) && (rd != X0 ==> LR(t, rd) == v)
    ensures Close(at, R(s, SP), SetR(s, rd, v), Exec(Code(at, i), s))
  {
    hide *;
    var c1, c2 := CodeEnds(at, i);
    LiftEnding(at, s, c1, c2, rd, v);
  }

  lemma TopByteValue(at: Layout, s: State, rs1: nat)
    ensures Value(OpSra, R(s, rs1), Wrap(24)) == Sra(R(s, rs1), 24)
    ensures Code(at, ShiftImm(OpSra, SP, rs1, 24)) == ShiftRightImm(at, true, SP, rs1, 24)
  {
    hide Sra, ShiftRightImm, Value, Wrap;
    WrapSmall(24);
    ShiftValue(OpSra, R(s, rs1), Wrap(24));
  }

  lemma AreaBelow(at: Layout, s: State)
    requires Placement(at, s)
    ensures R(s, SP) >= AREA
  {
  }

  lemma SplitAddress(s: State, base: nat, off: int)
    ensures LEa(Split(s), base, off) == Ea(s, base, off) && Split(s).mem == s.mem
  {
  }

  lemma SignIsBit(x: Word)
    ensures x / 0x8000_0000 == BoolWord(SignedWord(x) < 0)
  {
  }
}
