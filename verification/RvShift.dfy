/**
 The shift macros (abstract-machine/tools/rvmini/inst-replace.h, lines 382-560).
 */
module RvShift {
  import opened Bits
  import opened RvMachine
  import opened RvScratch
  import opened RvLut
  import opened RvMacros
  import opened RvBasicMacros
  import opened RvCompare
  import opened RvLogic
  import opened RvShiftValues

  // ----- table rows -----

  lemma LoadByteFrom(rd: nat, k: int, l: Local)
    requires IsLocal(SP, k, 1)
    ensures var t := LExec([Lbu(rd, SP, k)], l);
            Same(l, t, {rd}, {}) && (rd != X0 ==> LR(t, rd) == AreaByte(l, k))
  {
    hide LExec, LR, AreaByte, LSet;
    Rules();
    LExec1(Lbu(rd, SP, k), l);
  }

  lemma AddLoadWord(l: Local, a: Word)
    requires a == Wrap(LR(l, S0) + LR(l, TP)) && Misses(LR(l, SP), a, 4)
    ensures var t := LExec([Add(TP, S0, TP), Lw(TP, TP, 0)], l);
            Same(l, t, {TP}, {}) && LR(t, TP) == MemWord(l.mem, a)
  {
    hide LExec, LR, AreaByte, LSet, Touch, Misses, Wrap, MemWord;
    Rules();
    LExec2(Add(TP, S0, TP), Lw(TP, TP, 0), l);
    WrapSmall(a);
  }

  lemma ShiftByteRuns(at: Layout, t: Table, j: nat, k: nat, l: Local)
    requires Ready(at, l) && EntrySize(t) == 4 && j < 32 && k < 4
    requires LR(l, S0) == Wrap(at.lut + Position(t, j, 0, 0))
    ensures var u := LExec(ShiftByte(S0, k), l);
            Same(l, u, {TP}, {}) && LR(u, TP) == Entry(t, j, AreaByte(l, VAR_A + k))
  {
    hide LExec, LR, AreaByte, Ready, Wrap, Entry, EntrySize, Position, MemWord, Slli, Misses;
    var b := AreaByte(l, VAR_A + k);
    Join3([Lbu(TP, SP, VAR_A + k)], Slli(TP, TP, 2), [Add(TP, S0, TP), Lw(TP, TP, 0)], l);
    var t1 := LExec([Lbu(TP, SP, VAR_A + k)], l);
    LoadByteFrom(TP, VAR_A + k, l);
    var t2 := LExec(Slli(TP, TP, 2), t1);
    SlliShortRuns(TP, TP, 2, t1);
    TimesFour(b);
    FetchWord(at, l, t, j, b);
    WrapAdd(at.lut + Position(t, j, 0, 0), 4 * (b as int));
    AddLoadWord(t2, Wrap(LR(t2, S0) + LR(t2, TP)));
  }

  lemma TimesFour(b: Byte)
    ensures Wrap(Shl(b, 2)) == b * 4
  {
    ShlByConstant(b);
  }

  lemma GetShamtRuns(at: Layout, rs1: nat, l: Local)
    requires Ready(at, l)
    ensures var t := LExec(GetShamt(at, S0, rs1), l);
            Same(l, t, {S0, TP}, Cells(VAR_B)) && LR(t, S0) == LR(l, rs1) % 32
  {
    hide LExec, LR, AreaByte, Ready, Wrap, Position, La;
    var addr := at.lut + Position(AndTable, 0x1f, 0, 0);
    var c1, c3 := [Sb(rs1, SP, VAR_B), Lbu(S0, SP, VAR_B)], [Add(S0, S0, TP), Lbu(S0, S0, 0)];
    Join3(c1, La(TP, addr), c3, l);
    var b := ByteOf(LR(l, rs1), 0);
    var t1 := LExec(c1, l);
    PassByte(rs1, l);
    var t2 := LExec(La(TP, addr), t1);
    RowInside(at, l);
    LaRuns(TP, addr, t1);
    ShamtEntry(at, l, LR(l, rs1));
    LookupByte(t2, Wrap(addr + b), LR(l, rs1) % 32);
  }

  lemma RowInside(at: Layout, l: Local)
    requires Ready(at, l)
    ensures 0 <= at.lut + Position(AndTable, 0x1f, 0, 0) < 0x1_0000_0000
  {
    hide TablesAt, SmallTablesAt;
  }

  lemma PassByte(rs1: nat, l: Local)
    ensures var t := LExec([Sb(rs1, SP, VAR_B), Lbu(S0, SP, VAR_B)], l);
            Same(l, t, {S0}, Cells(VAR_B)) && LR(t, S0) == ByteOf(LR(l, rs1), 0)
  {
    hide LExec, LR, AreaByte, LSet, SetByte, ByteOf;
    Rules();
    LExec2(Sb(rs1, SP, VAR_B), Lbu(S0, SP, VAR_B), l);
  }

  lemma LookupByte(l: Local, a: Word, v: Byte)
    requires a == Wrap(LR(l, S0) + LR(l, TP)) && Misses(LR(l, SP), a, 1) && MemByte(l.mem, a) == v
    ensures var t := LExec([Add(S0, S0, TP), Lbu(S0, S0, 0)], l);
            Same(l, t, {S0}, {}) && LR(t, S0) == v
  {
    hide LExec, LR, AreaByte, LSet, Touch, Misses, Wrap, MemByte;
    Rules();
    LExec2(Add(S0, S0, TP), Lbu(S0, S0, 0), l);
    WrapSmall(a);
  }

  /** The row for `0x1f` of the `and` table takes a byte modulo 32. */
  lemma ShamtEntry(at: Layout, l: Local, x: Word)
    requires Ready(at, l)
    ensures var b := ByteOf(x, 0);
            var a := Wrap(at.lut + Position(AndTable, 0x1f, 0, 0) + b);
            a == Wrap(b + (at.lut + Position(AndTable, 0x1f, 0, 0)))
            && Misses(LR(l, SP), a, 1) && MemByte(l.mem, a) == x % 32
  {
    hide And, Low, Pow2, Ready, MemByte, Misses, Wrap, Position;
    var b := ByteOf(x, 0);
    FetchByte(at, l, AndTable, 0x1f, b);
    FiveBits(b);
    AndSymmetric(0x1f, b);
    LowFive(x);
    WrapSmall(b % 32);
    ByteOfByte(b % 32);
  }

  lemma LowFive(x: Word)
    ensures ByteOf(x, 0) % 32 == x % 32
  {
    var q := x / 0x100;
    assert x == 32 * (8 * q) + x % 0x100;
    ModPlusMultiple(x % 0x100, 8 * q, 32);
  }

  lemma FiveBits(b: nat)
    ensures And(b, 31) == b % 32
  {
    assert Pow2(5) == 32;
    AndMask(b, 5);
    hide And, Low, Pow2;
    ShrIsDiv(b, 5);
  }

  lemma ByteUpRuns(l: Local)
    requires LR(l, S0) < 256
    ensures var t := LExec(ByteUp(S0), l);
            Same(l, t, {S0}, Cells(VAR_B)) && LR(t, S0) == 256 * LR(l, S0)
  {
    hide LExec, LR, AreaByte, LSet, SetByte, SetWord, ByteOf, WordOf;
    Rules();
    LExec3(Sw(X0, SP, VAR_B), Sb(S0, SP, VAR_B + 1), Lw(S0, SP, VAR_B), l);
    XZero(l);
    BytesOfZero();
    SecondByte(LR(l, S0));
  }

  lemma SecondByte(b: Byte)
    ensures ByteOf(b, 0) == b && WordOf(0, b, 0, 0) == 256 * b
  {
    WordOfIs(0, b, 0, 0);
  }

  lemma ShiftRowRuns(at: Layout, t: Table, rs2: nat, l: Local)
    requires Ready(at, l) && EntrySize(t) == 4
    ensures var u := LExec(ShiftRow(at, t, S0, rs2), l);
            Same(l, u, {S0, TP}, Cells(VAR_B))
            && LR(u, S0) == Wrap(at.lut + Position(t, LR(l, rs2) % 32, 0, 0))
  {
    hide LExec, LR, Ready, Wrap, Position, Offset, La, GetShamt, ByteUp, Slli, Same, EntrySize;
    var rs, cs := {S0, TP}, Cells(VAR_B);
    var j := LR(l, rs2) % 32;
    Join5(GetShamt(at, S0, rs2), ByteUp(S0), Slli(S0, S0, 2), La(TP, at.lut + Offset(t)), [Add(S0, S0, TP)], l);
    var t1 := LExec(GetShamt(at, S0, rs2), l);
    GetShamtRuns(at, rs2, l);
    var t2 := LExec(ByteUp(S0), t1);
    ByteUpRuns(t1);
    SameWider(t1, t2, {S0}, Cells(VAR_B), rs, cs);
    SameChain(l, t1, t2, rs, cs);
    var t3 := LExec(Slli(S0, S0, 2), t2);
    SlliShortRuns(S0, S0, 2, t2);
    RowOffset(j);
    SameWider(t2, t3, {S0}, {}, rs, cs);
    SameChain(l, t2, t3, rs, cs);
    var t4 := LExec(La(TP, at.lut + Offset(t)), t3);
    OffsetInside(at, l, t);
    LaRuns(TP, at.lut + Offset(t), t3);
    SameReg(t3, t4, {TP}, {}, S0);
    SameWider(t3, t4, {TP}, {}, rs, cs);
    SameChain(l, t3, t4, rs, cs);
    var t5 := LExec([Add(S0, S0, TP)], t4);
    AddPairRuns(S0, S0, TP, t4);
    RowAddress(at, t, j);
    SameWider(t4, t5, {S0}, {}, rs, cs);
    SameChain(l, t4, t5, rs, cs);
  }

  lemma RowOffset(j: nat)
    requires j < 32
    ensures Wrap(Shl(256 * j, 2)) == 1024 * j
  {
    ShlByConstant(256 * j);
  }

  lemma RowAddress(at: Layout, t: Table, j: nat)
    requires EntrySize(t) == 4
    ensures Wrap(1024 * j + (at.lut + Offset(t))) == Wrap(at.lut + Position(t, j, 0, 0))
  {
  }

  // ----- saving s0 -----

  lemma ShiftEnterRuns(rs1: nat, l: Local)
    ensures var t := LExec(ShiftEnter(rs1), l);
            Same(l, t, {}, Cells(SAVE_1) + Cells(VAR_A))
            && AreaWord(t, SAVE_1) == LR(l, S0) && AreaWord(t, VAR_A) == LR(l, rs1)
  {
    hide LR, AreaWord, LExec, Same;
    StoreTwo(S0, SAVE_1, rs1, VAR_A, l);
  }

  lemma ShiftLeaveRuns(rd: nat, l: Local)
    ensures var t := LExec(ShiftLeave(rd), l);
            Same(l, t, {rd, S0}, {}) && (rd != S0 ==> LR(t, S0) == AreaWord(l, SAVE_1))
            && (rd != X0 ==> LR(t, rd) == Wrap(LR(l, GP) + LR(l, TP)))
  {
    hide LExec, LR, AreaByte, LSet, Wrap, AreaWord;
    Rules();
    LExec2(Lw(S0, SP, SAVE_1), Add(rd, GP, TP), l);
  }

  lemma ShiftSlots()
    ensures Cells(SAVE_1) !! Cells(VAR_B) + Cells(VAR_C) + Cells(VAR_D) && {} <= AllCells()
    ensures Cells(SAVE_1) + Cells(VAR_A) <= AllCells() && Cells(VAR_B) + Cells(VAR_C) + Cells(VAR_D) <= AllCells()
  {
    hide Cells;
    CellsApart(SAVE_1, VAR_B);
    CellsApart(SAVE_1, VAR_C);
    CellsApart(SAVE_1, VAR_D);
  }

  /** A shift macro: `s0` is used as the row pointer in between and given back. */
  lemma ShiftRestores(rd: nat, l: Local, t1: Local, t2: Local, t3: Local)
    requires Same(l, t1, {}, Cells(SAVE_1) + Cells(VAR_A)) && AreaWord(t1, SAVE_1) == LR(l, S0)
    requires Same(t1, t2, {S0, TP, GP}, Cells(VAR_B) + Cells(VAR_C) + Cells(VAR_D))
    requires Same(t2, t3, {rd, S0}, {}) && (rd != S0 ==> LR(t3, S0) == AreaWord(t2, SAVE_1))
    ensures Same(l, t3, {rd, TP, GP}, AllCells())
  {
    hide LR, AreaWord, Same, AllCells, Cells;
    ShiftSlots();
    SameWord(t1, t2, {S0, TP, GP}, Cells(VAR_B) + Cells(VAR_C) + Cells(VAR_D), SAVE_1);
    var rs := {rd, S0, TP, GP};
    SameWider(l, t1, {}, Cells(SAVE_1) + Cells(VAR_A), rs, AllCells());
    SameWider(t1, t2, {S0, TP, GP}, Cells(VAR_B) + Cells(VAR_C) + Cells(VAR_D), rs, AllCells());
    SameWider(t2, t3, {rd, S0}, {}, rs, AllCells());
    SameChain(l, t1, t2, rs, AllCells());
    SameChain(l, t2, t3, rs, AllCells());
    if rd != S0 {
      SameDrop(l, t3, rs, AllCells(), S0);
    }
    SameWider(l, t3, if rd != S0 then rs - {S0} else rs, AllCells(), {rd, TP, GP}, AllCells());
  }
}
