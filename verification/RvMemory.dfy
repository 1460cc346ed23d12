/**
 The loads and the store that rvmini replaces, and the two sign tests of `blt` and `bge` against zero
 (abstract-machine/tools/rvmini/inst-replace.h, lines 327-373, 568-599).
 */
module RvMemory {
  import opened Bits
  import opened RvMachine
  import opened RvScratch
  import opened RvLut
  import opened RvMacros
  import opened RvBasicMacros
  import opened RvCompare
  import opened RvLogic
  import opened RvEqual
  import opened RvShiftValues
  import opened RvShift
  import opened RvShiftRuns

  /** A program access at `off(base)`: it misses the scratch area. */
  predicate Outside(l: Local, base: nat, off: int, size: nat) {
    LR(l, SP) >= AREA && Misses(LR(l, SP), LEa(l, base, off), size)
  }

  lemma OutsideNotLocal(l: Local, base: nat, off: int, size: nat)
    requires Outside(l, base, off, size) && size in {1, 4}
    ensures !IsLocal(base, off, size)
  {
    hide LR;
  }

  function SignExtend8(b: Byte): Word {
    if b < 0x80 then b else b + 0xFFFF_FF00
  }

  function SignExtend16(h: int): Word
    requires 0 <= h < 0x1_0000
  {
    if h < 0x8000 then h else h + 0xFFFF_0000
  }

  lemma SignExtensions(b0: Byte, b: Byte)
    ensures Sra(WordOf(0, 0, 0, b), 24) == SignExtend8(b)
    ensures Wrap(b0 + Sra(WordOf(0, 0, 0, b), 16)) == SignExtend16(b0 + 0x100 * b)
  {
    hide Sra, WordOf, Wrap;
    TopByteSra(b);
    WrapSmall(SignExtend16(b0 + 0x100 * b));
  }

  lemma TopByteSra(b: Byte)
    ensures Sra(WordOf(0, 0, 0, b), 24) == SignExtend8(b)
    ensures Sra(WordOf(0, 0, 0, b), 16) == 0x100 * b + (if b < 0x80 then 0 else 0xFFFF_0000)
  {
    hide Shr;
    var c: nat := 0xFF - b;
    ShiftTop(b);
    ShiftTop(c);
    WordOfIs(0, 0, 0, b);
    assert 0xFFFF_FFFF - b * 0x100_0000 == c * 0x100_0000 + 0xFF_FFFF;
  }

  lemma ShiftTop(c: Byte)
    ensures Shr(c * 0x100_0000, 24) == c && Shr(c * 0x100_0000, 16) == 0x100 * c
    ensures Shr(c * 0x100_0000 + 0xFF_FFFF, 24) == c && Shr(c * 0x100_0000 + 0xFF_FFFF, 16) == 0x100 * c + 0xFF
  {
    hide Shr, Pow2, Low;
    ConstantShifts(0);
    ShrIsDiv(c * 0x100_0000, 24);
    ShrIsDiv(c * 0x100_0000, 16);
    ShrIsDiv(c * 0x100_0000 + 0xFF_FFFF, 24);
    ShrIsDiv(c * 0x100_0000 + 0xFF_FFFF, 16);
  }

  // ----- lb -----

  lemma LoadToTop(rd: nat, base: nat, off: int, l: Local)
    requires Outside(l, base, off, 1) && rd != SP
    ensures var t := LExec([Sw(X0, SP, VAR_A), Lbu(rd, base, off), Sb(rd, SP, VAR_A + 3), Lw(rd, SP, VAR_A)], l);
            Same(l, t, {rd}, Cells(VAR_A))
            && (rd != X0 ==> LR(t, rd) == WordOf(0, 0, 0, MemByte(l.mem, LEa(l, base, off))))
  {
    hide LExec, LR, Same, AreaWord, AreaByte, WordOf, MemByte, Misses, Wrap;
    var c1, c2 := [Sw(X0, SP, VAR_A), Lbu(rd, base, off)], [Sb(rd, SP, VAR_A + 3), Lw(rd, SP, VAR_A)];
    assert c1 + c2 == [Sw(X0, SP, VAR_A), Lbu(rd, base, off), Sb(rd, SP, VAR_A + 3), Lw(rd, SP, VAR_A)];
    LExecAppend(c1, c2, l);
    var t1 := LExec(c1, l);
    LoadAfterClear(rd, base, off, l);
    PlaceTop(rd, t1);
    ByteOfByte(MemByte(l.mem, LEa(l, base, off)));
    SameWider(l, t1, {rd}, Cells(VAR_A), {rd}, Cells(VAR_A));
    SameWider(t1, LExec(c2, t1), {rd}, {VAR_A + 3}, {rd}, Cells(VAR_A));
    SameChain(l, t1, LExec(c2, t1), {rd}, Cells(VAR_A));
  }

  lemma LoadAfterClear(rd: nat, base: nat, off: int, l: Local)
    requires Outside(l, base, off, 1)
    ensures var t := LExec([Sw(X0, SP, VAR_A), Lbu(rd, base, off)], l);
            Same(l, t, {rd}, Cells(VAR_A)) && AreaWord(t, VAR_A) == 0
            && (rd != X0 ==> LR(t, rd) == MemByte(l.mem, LEa(l, base, off)))
  {
    hide LExec, LR, Same, AreaWord, MemByte, Misses, Wrap;
    var c1, c2 := [Sw(X0, SP, VAR_A)], [Lbu(rd, base, off)];
    assert c1 + c2 == [Sw(X0, SP, VAR_A), Lbu(rd, base, off)];
    LExecAppend(c1, c2, l);
    var t1 := LExec(c1, l);
    StoreOne(X0, VAR_A, l);
    XZero(l);
    SameReg(l, t1, {}, Cells(VAR_A), base);
    SameReg(l, t1, {}, Cells(VAR_A), SP);
    SameMemory(l, t1, {}, Cells(VAR_A));
    var t2 := LExec(c2, t1);
    LoadProgramByte(rd, base, off, t1);
    SameWord(t1, t2, {rd}, {}, VAR_A);
    SameWider(l, t1, {}, Cells(VAR_A), {rd}, Cells(VAR_A));
    SameWider(t1, t2, {rd}, {}, {rd}, Cells(VAR_A));
    SameChain(l, t1, t2, {rd}, Cells(VAR_A));
  }

  lemma LoadProgramByte(rd: nat, base: nat, off: int, l: Local)
    requires Outside(l, base, off, 1)
    ensures var t := LExec([Lbu(rd, base, off)], l);
            Same(l, t, {rd}, {}) && (rd != X0 ==> LR(t, rd) == MemByte(l.mem, LEa(l, base, off)))
  {
    OutsideNotLocal(l, base, off, 1);
    hide LExec, LR, AreaByte, LSet, Touch, MemByte, Misses, Wrap, IsLocal;
    Rules();
    LExec1(Lbu(rd, base, off), l);
  }

  lemma PlaceTop(rd: nat, l: Local)
    requires AreaWord(l, VAR_A) == 0
    ensures var t := LExec([Sb(rd, SP, VAR_A + 3), Lw(rd, SP, VAR_A)], l);
            Same(l, t, {rd}, {VAR_A + 3})
            && (rd != X0 ==> LR(t, rd) == WordOf(0, 0, 0, ByteOf(LR(l, rd), 0)))
  {
    hide LExec, LR, AreaByte, LSet, SetByte, ByteOf, WordOf;
    Rules();
    AreaWordBytes(l, VAR_A);
    BytesOfZero();
    LExec2(Sb(rd, SP, VAR_A + 3), Lw(rd, SP, VAR_A), l);
  }

  lemma LbRuns(at: Layout, rd: nat, base: nat, off: int, l: Local)
    requires Ready(at, l) && Outside(l, base, off, 1) && rd !in {SP, TP}
    ensures var t := LExec(Lb(at, rd, base, off), l);
            Same(l, t, {rd, TP, GP}, AllCells())
            && (rd != X0 ==> LR(t, rd) == SignExtend8(MemByte(l.mem, LEa(l, base, off))))
  {
    hide LExec, LR, Ready, Same, ShiftRightImm, Sra, WordOf, MemByte, AllCells, Misses, Wrap;
    var c1 := [Sw(X0, SP, VAR_A), Lbu(rd, base, off), Sb(rd, SP, VAR_A + 3), Lw(rd, SP, VAR_A)];
    LExecAppend(c1, ShiftRightImm(at, true, rd, rd, 24), l);
    var t1 := LExec(c1, l);
    LoadToTop(rd, base, off, l);
    ReadyFrame(at, l, t1, {rd}, Cells(VAR_A));
    var t2 := LExec(ShiftRightImm(at, true, rd, rd, 24), t1);
    ShiftRightImmRuns(at, true, rd, rd, 24, t1);
    SignExtensions(0, MemByte(l.mem, LEa(l, base, off)));
    EveryCell();
    SameWider(l, t1, {rd}, Cells(VAR_A), {rd, TP, GP}, AllCells());
    SameChain(l, t1, t2, {rd, TP, GP}, AllCells());
  }

  // ----- lhu -----

  lemma LhuRuns(rd: nat, base: nat, off: int, l: Local)
    requires Outside(l, base, off, 1) && Outside(l, base, off + 1, 1) && base != TP && rd != TP
    ensures var t := LExec(Lhu(rd, base, off), l);
            Same(l, t, {rd, TP}, Cells(VAR_A))
            && (rd != X0 ==> LR(t, rd) == MemByte(l.mem, LEa(l, base, off)) + 0x100 * MemByte(l.mem, LEa(l, base, off + 1)))
  {
    hide LExec, LR, Same, AreaWord, MemByte, WordOf, Misses, Wrap;
    var c1 := [Sw(X0, SP, VAR_A), Lbu(TP, base, off + 1), Sb(TP, SP, VAR_A + 1), Lw(TP, SP, VAR_A)];
    var c2 := [Lbu(rd, base, off), Add(rd, rd, TP)];
    LExecAppend(c1, c2, l);
    var t1 := LExec(c1, l);
    LoadToSecond(base, off + 1, l);
    SameReg(l, t1, {TP}, Cells(VAR_A), base);
    SameReg(l, t1, {TP}, Cells(VAR_A), SP);
    var t2 := LExec(c2, t1);
    LoadAndAdd(rd, TP, base, off, t1);
    SecondByteValue(MemByte(l.mem, LEa(l, base, off)), MemByte(l.mem, LEa(l, base, off + 1)));
    SameMemory(l, t1, {TP}, Cells(VAR_A));
    SameWider(l, t1, {TP}, Cells(VAR_A), {rd, TP}, Cells(VAR_A));
    SameWider(t1, t2, {rd}, {}, {rd, TP}, Cells(VAR_A));
    SameChain(l, t1, t2, {rd, TP}, Cells(VAR_A));
  }

  lemma SecondByteValue(b0: Byte, b1: Byte)
    ensures Wrap(b0 + WordOf(0, b1, 0, 0)) == b0 + 0x100 * b1
  {
    WordOfIs(0, b1, 0, 0);
    WrapSmall(b0 + 0x100 * b1);
    hide Wrap, WordOf;
  }

  lemma LoadToSecond(base: nat, off: int, l: Local)
    requires Outside(l, base, off, 1)
    ensures var t := LExec([Sw(X0, SP, VAR_A), Lbu(TP, base, off), Sb(TP, SP, VAR_A + 1), Lw(TP, SP, VAR_A)], l);
            Same(l, t, {TP}, Cells(VAR_A)) && LR(t, TP) == WordOf(0, MemByte(l.mem, LEa(l, base, off)), 0, 0)
  {
    hide LExec, LR, Same, AreaWord, AreaByte, WordOf, MemByte, Misses, Wrap;
    var c1, c2 := [Sw(X0, SP, VAR_A), Lbu(TP, base, off)], [Sb(TP, SP, VAR_A + 1), Lw(TP, SP, VAR_A)];
    assert c1 + c2 == [Sw(X0, SP, VAR_A), Lbu(TP, base, off), Sb(TP, SP, VAR_A + 1), Lw(TP, SP, VAR_A)];
    LExecAppend(c1, c2, l);
    var t1 := LExec(c1, l);
    LoadAfterClear(TP, base, off, l);
    PlaceSecond(t1);
    ByteOfByte(MemByte(l.mem, LEa(l, base, off)));
    SameWider(t1, LExec(c2, t1), {TP}, {VAR_A + 1}, {TP}, Cells(VAR_A));
    SameChain(l, t1, LExec(c2, t1), {TP}, Cells(VAR_A));
  }

  lemma PlaceSecond(l: Local)
    requires AreaWord(l, VAR_A) == 0
    ensures var t := LExec([Sb(TP, SP, VAR_A + 1), Lw(TP, SP, VAR_A)], l);
            Same(l, t, {TP}, {VAR_A + 1}) && LR(t, TP) == WordOf(0, ByteOf(LR(l, TP), 0), 0, 0)
  {
    hide LExec, LR, AreaByte, LSet, SetByte, ByteOf, WordOf;
    Rules();
    AreaWordBytes(l, VAR_A);
    BytesOfZero();
    LExec2(Sb(TP, SP, VAR_A + 1), Lw(TP, SP, VAR_A), l);
  }

  lemma LoadAndAdd(rd: nat, high: nat, base: nat, off: int, l: Local)
    requires Outside(l, base, off, 1) && high != rd
    ensures var t := LExec([Lbu(rd, base, off), Add(rd, rd, high)], l);
            Same(l, t, {rd}, {})
            && (rd != X0 ==> LR(t, rd) == Wrap(MemByte(l.mem, LEa(l, base, off)) + LR(l, high)))
  {
    OutsideNotLocal(l, base, off, 1);
    hide LExec, LR, AreaByte, AreaWord, LSet, Touch, MemByte, MemWord, Misses, Wrap, IsLocal;
    Rules();
    LExec2(Lbu(rd, base, off), Add(rd, rd, high), l);
  }

  // ----- lh -----

  lemma LhRuns(at: Layout, rd: nat, base: nat, off: int, l: Local)
    requires Ready(at, l) && Outside(l, base, off, 1) && Outside(l, base, off + 1, 1)
    requires base !in {TP, GP} && rd !in {TP, GP}
    ensures var t := LExec(Lh(at, rd, base, off), l);
            Same(l, t, {rd, TP, GP}, AllCells())
            && (rd != X0 ==> LR(t, rd) == SignExtend16(MemByte(l.mem, LEa(l, base, off)) + 0x100 * MemByte(l.mem, LEa(l, base, off + 1))))
  {
    hide LExec, LR, Ready, Same, ShiftRightImm, Sra, WordOf, MemByte, AllCells, Misses, Wrap;
    var rs := {rd, TP, GP};
    var c1 := [Sw(X0, SP, VAR_A), Lbu(GP, base, off + 1), Sb(GP, SP, VAR_A + 3), Lw(GP, SP, VAR_A)];
    var c3 := [Lbu(rd, base, off), Add(rd, rd, GP)];
    Join3(c1, ShiftRightImm(at, true, GP, GP, 16), c3, l);
    var t1 := LExec(c1, l);
    LoadToTop(GP, base, off + 1, l);
    ReadyFrame(at, l, t1, {GP}, Cells(VAR_A));
    var t2 := LExec(ShiftRightImm(at, true, GP, GP, 16), t1);
    ShiftRightImmRuns(at, true, GP, GP, 16, t1);
    EveryCell();
    SameWider(l, t1, {GP}, Cells(VAR_A), {TP, GP}, AllCells());
    SameWider(t1, t2, {GP, TP, GP}, AllCells(), {TP, GP}, AllCells());
    SameChain(l, t1, t2, {TP, GP}, AllCells());
    SameReg(l, t2, {TP, GP}, AllCells(), base);
    SameReg(l, t2, {TP, GP}, AllCells(), SP);
    SameMemory(l, t2, {TP, GP}, AllCells());
    var t3 := LExec(c3, t2);
    LoadAndAdd(rd, GP, base, off, t2);
    SignExtensions(MemByte(l.mem, LEa(l, base, off)), MemByte(l.mem, LEa(l, base, off + 1)));
    SameWider(l, t2, {TP, GP}, AllCells(), rs, AllCells());
    SameWider(t2, t3, {rd}, {}, rs, AllCells());
    SameChain(l, t2, t3, rs, AllCells());
  }

  // ----- sh -----

  lemma ShRuns(rs: nat, base: nat, off: int, l: Local)
    requires Outside(l, base, off, 1) && Outside(l, base, off + 1, 1) && base != TP && rs != TP
    ensures var t := LExec(ShHalf(rs, base, off), l);
            && t.ok == l.ok
            && t.mem == l.mem[LEa(l, base, off) := ByteOf(LR(l, rs), 0)][LEa(l, base, off + 1) := ByteOf(LR(l, rs), 1)]
            && (forall r: nat :: r != TP ==> LR(t, r) == LR(l, r))
  {
    hide LExec, LR, AreaByte, Same, ByteOf, Misses, Wrap, GetByte;
    Join3([Sb(rs, base, off)], GetByte(TP, rs, 1), [Sb(TP, base, off + 1)], l);
    var t1 := LExec([Sb(rs, base, off)], l);
    StoreProgramByte(rs, base, off, l);
    KeepsPlace(l, t1, {}, base, off + 1);
    var t2 := LExec(GetByte(TP, rs, 1), t1);
    GetByteRuns(TP, rs, 1, t1);
    SameMemory(t1, t2, {TP}, Cells(VAR_C));
    SameReg(t1, t2, {TP}, Cells(VAR_C), base);
    SameReg(t1, t2, {TP}, Cells(VAR_C), SP);
    StoreProgramByte(TP, base, off + 1, t2);
    ByteOfByte(ByteOf(LR(l, rs), 1));
    RegistersSame(t1, t2, {TP}, Cells(VAR_C));
  }

  lemma RegistersSame(l: Local, t: Local, regs: set<nat>, cells: set<int>)
    requires Same(l, t, regs, cells)
    ensures forall r: nat :: r !in regs ==> LR(t, r) == LR(l, r)
  {
  }

  lemma KeepsPlace(l: Local, t: Local, regs: set<nat>, base: nat, off: int)
    requires (forall r: nat :: LR(t, r) == LR(l, r)) && Outside(l, base, off, 1)
    ensures Outside(t, base, off, 1) && LEa(t, base, off) == LEa(l, base, off)
  {
  }

  /** A store of the program, outside the scratch area. */
  lemma StoreProgramByte(rs: nat, base: nat, off: int, l: Local)
    requires Outside(l, base, off, 1)
    ensures var t := LExec([Sb(rs, base, off)], l);
            && t.ok == l.ok && t.mem == l.mem[LEa(l, base, off) := ByteOf(LR(l, rs), 0)]
            && (forall r: nat :: LR(t, r) == LR(l, r))
  {
    OutsideNotLocal(l, base, off, 1);
    hide LExec, LR, AreaByte, SetMem, Touch, ByteOf, Misses, Wrap, IsLocal;
    Rules();
    LExec1(Sb(rs, base, off), l);
  }

  // ----- positive or not -----

  lemma NotPositiveRuns(at: Layout, rs2: nat, l: Local)
    requires Ready(at, l) && rs2 !in {TP, GP}
    ensures var t := LExec(NotPositive(at, rs2), l);
            Same(l, t, {TP, GP}, Cells(VAR_C)) && LR(t, TP) == BoolWord(SignedWord(LR(l, rs2)) <= 0)
  {
    hide LExec, LR, Ready, Same, Msb, La, Wrap, MemByte, Misses;
    var rs, cs := {TP, GP}, Cells(VAR_C);
    var c6 := [Add(TP, GP, TP), Lbu(TP, TP, 0)];
    Join6(Msb(GP, rs2), [Addi(TP, rs2, -1)], Msb(TP, TP), [Add(GP, GP, TP)], La(TP, at.or1), c6, l);
    var x := LR(l, rs2);
    var t1 := LExec(Msb(GP, rs2), l);
    MsbRuns(GP, rs2, l);
    SameReg(l, t1, {GP}, cs, rs2);
    SameWider(l, t1, {GP}, cs, rs, cs);
    var t2 := LExec([Addi(TP, rs2, -1)], t1);
    AddImm(TP, rs2, -1, t1);
    SameReg(t1, t2, {TP}, {}, GP);
    SameWider(t1, t2, {TP}, {}, rs, cs);
    SameChain(l, t1, t2, rs, cs);
    var t3 := LExec(Msb(TP, TP), t2);
    MsbRuns(TP, TP, t2);
    SameReg(t2, t3, {TP}, cs, GP);
    SameWider(t2, t3, {TP}, cs, rs, cs);
    SameChain(l, t2, t3, rs, cs);
    var t4 := LExec([Add(GP, GP, TP)], t3);
    AddPairRuns(GP, GP, TP, t3);
    SignPair(x);
    SameWider(t3, t4, {GP}, {}, rs, cs);
    SameChain(l, t3, t4, rs, cs);
    var t5 := LExec(La(TP, at.or1), t4);
    LaRuns(TP, at.or1, t4);
    SameReg(t4, t5, {TP}, {}, GP);
    SameWider(t4, t5, {TP}, {}, rs, cs);
    SameChain(l, t4, t5, rs, cs);
    ReadyFrame(at, l, t5, rs, cs);
    OrEntry(at, t5, LR(t5, GP));
    var t6 := LExec(c6, t5);
    AddLoadByte(t5, Wrap(LR(t5, GP) + LR(t5, TP)));
    SameWider(t5, t6, {TP}, {}, rs, cs);
    SameChain(l, t5, t6, rs, cs);
  }

  lemma AddImm(rd: nat, rs1: nat, imm: int, l: Local)
    ensures var t := LExec([Addi(rd, rs1, imm)], l);
            Same(l, t, {rd}, {}) && (rd != X0 ==> LR(t, rd) == Wrap(LR(l, rs1) + imm))
  {
    hide LExec, LR, AreaByte, LSet, Wrap;
    Rules();
    LExec1(Addi(rd, rs1, imm), l);
  }

  /** A word is not positive when it or its predecessor is negative. */
  lemma SignPair(x: Word)
    ensures var k := Wrap(x / 0x8000_0000 + Wrap(x + -1) / 0x8000_0000);
            k <= 2 && (k != 0 <==> SignedWord(x) <= 0)
  {
  }

  lemma OrEntry(at: Layout, l: Local, k: nat)
    requires Ready(at, l) && k < 4
    ensures var a := Wrap(k + at.or1);
            MemByte(l.mem, a) == BoolWord(k != 0) && Misses(LR(l, SP), a, 1)
  {
    hide TablesAt, MemByte;
    FetchSymbol(at, l, at.or1, k);
  }

  lemma AddLoadByte(l: Local, a: Word)
    requires a == Wrap(LR(l, GP) + LR(l, TP)) && Misses(LR(l, SP), a, 1)
    ensures var t := LExec([Add(TP, GP, TP), Lbu(TP, TP, 0)], l);
            Same(l, t, {TP}, {}) && LR(t, TP) == MemByte(l.mem, a)
  {
    hide LExec, LR, AreaByte, LSet, Touch, Misses, Wrap, MemByte;
    Rules();
    LExec2(Add(TP, GP, TP), Lbu(TP, TP, 0), l);
    WrapSmall(a);
  }
}
