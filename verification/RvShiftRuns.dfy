/**
 The bodies of the shift macros: from the row pointer in `s0` to the shifted word, and the macros as
 a whole (abstract-machine/tools/rvmini/inst-replace.h, lines 397-560).
 */
module RvShiftRuns {
  import opened Bits
  import opened RvMachine
  import opened RvScratch
  import opened RvLut
  import opened RvMacros
  import opened RvBasicMacros
  import opened RvCompare
  import opened RvLogic
  import opened RvShiftValues
  import opened RvShift

  // ----- sll -----

  lemma ShHalfLocal(rs: nat, k: int, l: Local)
    requires k in {VAR_A + 2, VAR_B + 2}
    ensures var t := LExec(ShHalf(rs, SP, k), l);
            Same(l, t, {TP}, {k, k + 1} + Cells(VAR_C))
            && AreaByte(t, k) == ByteOf(LR(l, rs), 0) && AreaByte(t, k + 1) == ByteOf(LR(l, rs), 1)
  {
    hide LExec, LR, AreaByte, LSet, SetByte, SetWord, ByteOf;
    Rules();
    Join3([Sb(rs, SP, k)], GetByte(TP, rs, 1), [Sb(TP, SP, k + 1)], l);
    LExec1(Sb(rs, SP, k), l);
    var t1 := LStep(Sb(rs, SP, k), l);
    LExec2(Sw(rs, SP, VAR_C), Lbu(TP, SP, VAR_C + 1), t1);
    var t2 := LStep(Lbu(TP, SP, VAR_C + 1), LStep(Sw(rs, SP, VAR_C), t1));
    LExec1(Sb(TP, SP, k + 1), t2);
    ByteOfByte(ByteOf(LR(l, rs), 1));
  }

  lemma TopByteRuns(l: Local)
    requires AreaWord(l, VAR_B) == 0
    ensures var t := LExec([Sb(TP, SP, VAR_B + 3), Lw(GP, SP, VAR_B)], l);
            Same(l, t, {GP}, {VAR_B + 3}) && LR(t, GP) == WordOf(0, 0, 0, ByteOf(LR(l, TP), 0))
            && AreaByte(t, VAR_B) == 0 && AreaByte(t, VAR_B + 1) == 0
  {
    hide LExec, LR, AreaByte, LSet, SetByte, ByteOf, WordOf;
    Rules();
    AreaWordBytes(l, VAR_B);
    BytesOfZero();
    LExec2(Sb(TP, SP, VAR_B + 3), Lw(GP, SP, VAR_B), l);
  }

  lemma LoadAddRuns(l: Local)
    ensures var t := LExec([Lw(TP, SP, VAR_B), Add(GP, GP, TP)], l);
            Same(l, t, {GP, TP}, {}) && LR(t, GP) == Wrap(LR(l, GP) + AreaWord(l, VAR_B))
  {
    hide LExec, LR, AreaByte, LSet, AreaWord, Wrap;
    Rules();
    LExec2(Lw(TP, SP, VAR_B), Add(GP, GP, TP), l);
  }

  /** The setting inside a shift macro: the word in slot A, the row of `t` for shift `j` in `s0`. */
  ghost predicate AtRow(at: Layout, t: Table, j: nat, x: Word, l: Local) {
    && Ready(at, l) && EntrySize(t) == 4 && j < 32
    && LR(l, S0) == Wrap(at.lut + Position(t, j, 0, 0)) && AreaWord(l, VAR_A) == x
  }

  lemma AtRowKept(at: Layout, t: Table, j: nat, x: Word, l: Local, u: Local, regs: set<nat>, cells: set<int>)
    requires AtRow(at, t, j, x, l) && Same(l, u, regs, cells) && S0 !in regs && SP !in regs && Cells(VAR_A) !! cells
    ensures AtRow(at, t, j, x, u)
  {
    hide LR, AreaWord, Ready, Same, Wrap, Position;
    ReadyFrame(at, l, u, regs, cells);
    SameReg(l, u, regs, cells, S0);
    SameWord(l, u, regs, cells, VAR_A);
  }

  lemma RowByte(at: Layout, t: Table, j: nat, x: Word, k: nat, l: Local)
    requires AtRow(at, t, j, x, l) && k < 4
    ensures var u := LExec(ShiftByte(S0, k), l);
            Same(l, u, {TP}, {}) && LR(u, TP) == Entry(t, j, ByteOf(x, k)) && AtRow(at, t, j, x, u)
  {
    hide LExec, LR, AreaByte, AreaWord, Ready, Same, Wrap, Position, ShiftByte, Entry, ByteOf;
    AreaWordBytes(l, VAR_A);
    ShiftByteRuns(at, t, j, k, l);
    AtRowKept(at, t, j, x, l, LExec(ShiftByte(S0, k), l), {TP}, {});
  }

  lemma SllByte3Runs(at: Layout, j: nat, x: Word, l: Local)
    requires AtRow(at, SllTable, j, x, l) && AreaWord(l, VAR_B) == 0
    ensures var u := LExec(SllByte3(), l);
            Same(l, u, {TP, GP}, Cells(VAR_B)) && AtRow(at, SllTable, j, x, u)
            && LR(u, GP) == WordOf(0, 0, 0, ByteOf(Entry(SllTable, j, ByteOf(x, 3)), 0))
            && AreaByte(u, VAR_B) == 0 && AreaByte(u, VAR_B + 1) == 0
  {
    hide LExec, LR, AreaByte, AreaWord, Same, AtRow, ShiftByte, Entry, ByteOf, WordOf;
    LExecAppend(ShiftByte(S0, 3), [Sb(TP, SP, VAR_B + 3), Lw(GP, SP, VAR_B)], l);
    var t1 := LExec(ShiftByte(S0, 3), l);
    RowByte(at, SllTable, j, x, 3, l);
    SameWord(l, t1, {TP}, {}, VAR_B);
    var t2 := LExec([Sb(TP, SP, VAR_B + 3), Lw(GP, SP, VAR_B)], t1);
    TopByteRuns(t1);
    AtRowKept(at, SllTable, j, x, t1, t2, {GP}, {VAR_B + 3});
    SameWider(l, t1, {TP}, {}, {TP, GP}, Cells(VAR_B));
    SameWider(t1, t2, {GP}, {VAR_B + 3}, {TP, GP}, Cells(VAR_B));
    SameChain(l, t1, t2, {TP, GP}, Cells(VAR_B));
  }

  lemma SllByte2Runs(at: Layout, j: nat, x: Word, l: Local)
    requires AtRow(at, SllTable, j, x, l) && AreaByte(l, VAR_B) == 0 && AreaByte(l, VAR_B + 1) == 0
    ensures var u := LExec(SllByte2(), l);
            var e := Entry(SllTable, j, ByteOf(x, 2));
            Same(l, u, {TP, GP}, Cells(VAR_B) + Cells(VAR_C)) && AtRow(at, SllTable, j, x, u)
            && LR(u, GP) == Wrap(LR(l, GP) + WordOf(0, 0, ByteOf(e, 0), ByteOf(e, 1)))
  {
    hide LExec, LR, AreaByte, Same, AtRow, ShiftByte, ShHalf, Entry, ByteOf, WordOf, Wrap;
    var rs, cs := {TP, GP}, Cells(VAR_B) + Cells(VAR_C);
    Join3(ShiftByte(S0, 2), ShHalf(TP, SP, VAR_B + 2), [Lw(TP, SP, VAR_B), Add(GP, GP, TP)], l);
    var t1 := LExec(ShiftByte(S0, 2), l);
    RowByte(at, SllTable, j, x, 2, l);
    SameCell(l, t1, {TP}, {}, VAR_B);
    SameCell(l, t1, {TP}, {}, VAR_B + 1);
    SameReg(l, t1, {TP}, {}, GP);
    var t2 := LExec(ShHalf(TP, SP, VAR_B + 2), t1);
    ShHalfLocal(TP, VAR_B + 2, t1);
    SameCell(t1, t2, {TP}, {VAR_B + 2, VAR_B + 2 + 1} + Cells(VAR_C), VAR_B);
    SameCell(t1, t2, {TP}, {VAR_B + 2, VAR_B + 2 + 1} + Cells(VAR_C), VAR_B + 1);
    SameReg(t1, t2, {TP}, {VAR_B + 2, VAR_B + 2 + 1} + Cells(VAR_C), GP);
    var t3 := LExec([Lw(TP, SP, VAR_B), Add(GP, GP, TP)], t2);
    LoadAddRuns(t2);
    SameWider(l, t1, {TP}, {}, rs, cs);
    SameWider(t1, t2, {TP}, {VAR_B + 2, VAR_B + 2 + 1} + Cells(VAR_C), rs, cs);
    SameWider(t2, t3, {GP, TP}, {}, rs, cs);
    SameChain(l, t1, t2, rs, cs);
    SameChain(l, t2, t3, rs, cs);
    AtRowKept(at, SllTable, j, x, l, t3, rs, cs);
  }

  lemma SllByte1Runs(at: Layout, j: nat, x: Word, l: Local)
    requires AtRow(at, SllTable, j, x, l)
    ensures var u := LExec(SllByte1(), l);
            Same(l, u, {TP, GP}, {}) && AtRow(at, SllTable, j, x, u)
            && LR(u, GP) == Wrap(LR(l, GP) + Wrap(0x100 * Entry(SllTable, j, ByteOf(x, 1))))
  {
    hide LExec, LR, AreaByte, Same, AtRow, ShiftByte, Slli, Entry, ByteOf, Wrap, Shl;
    var rs: set<nat> := {TP, GP};
    Join3(ShiftByte(S0, 1), Slli(TP, TP, 8), [Add(GP, GP, TP)], l);
    var t1 := LExec(ShiftByte(S0, 1), l);
    RowByte(at, SllTable, j, x, 1, l);
    SameReg(l, t1, {TP}, {}, GP);
    var t2 := LExec(Slli(TP, TP, 8), t1);
    SlliShortRuns(TP, TP, 8, t1);
    ShlByConstant(LR(t1, TP));
    SameReg(t1, t2, {TP}, {}, GP);
    var t3 := LExec([Add(GP, GP, TP)], t2);
    AddPairRuns(GP, GP, TP, t2);
    SameWider(l, t1, {TP}, {}, rs, {});
    SameWider(t1, t2, {TP}, {}, rs, {});
    SameWider(t2, t3, {GP}, {}, rs, {});
    SameChain(l, t1, t2, rs, {});
    SameChain(l, t2, t3, rs, {});
    AtRowKept(at, SllTable, j, x, l, t3, rs, {});
  }

  lemma SllBodyRuns(at: Layout, j: nat, x: Word, l: Local)
    requires AtRow(at, SllTable, j, x, l)
    ensures var u := LExec(SllBody(), l);
            Same(l, u, {S0, TP, GP}, Cells(VAR_B) + Cells(VAR_C) + Cells(VAR_D))
            && Wrap(LR(u, GP) + LR(u, TP)) == Wrap(Shl(x, j))
  {
    hide LExec, LR, AreaByte, AreaWord, Same, AtRow, ShiftByte, SllByte3, SllByte2, SllByte1, Entry, ByteOf, WordOf, Wrap, Shl;
    var rs, cs := {S0, TP, GP}, Cells(VAR_B) + Cells(VAR_C) + Cells(VAR_D);
    Join5([Sw(X0, SP, VAR_B)], SllByte3(), SllByte2(), SllByte1(), ShiftByte(S0, 0), l);
    var t1 := LExec([Sw(X0, SP, VAR_B)], l);
    StoreOne(X0, VAR_B, l);
    XZero(l);
    AtRowKept(at, SllTable, j, x, l, t1, {}, Cells(VAR_B));
    var t2 := LExec(SllByte3(), t1);
    SllByte3Runs(at, j, x, t1);
    var t3 := LExec(SllByte2(), t2);
    SllByte2Runs(at, j, x, t2);
    var t4 := LExec(SllByte1(), t3);
    SllByte1Runs(at, j, x, t3);
    var t5 := LExec(ShiftByte(S0, 0), t4);
    RowByte(at, SllTable, j, x, 0, t4);
    SameReg(t4, t5, {TP}, {}, GP);
    SllByTable(x, j);
    SameWider(l, t1, {}, Cells(VAR_B), rs, cs);
    SameWider(t1, t2, {TP, GP}, Cells(VAR_B), rs, cs);
    SameWider(t2, t3, {TP, GP}, Cells(VAR_B) + Cells(VAR_C), rs, cs);
    SameWider(t3, t4, {TP, GP}, {}, rs, cs);
    SameWider(t4, t5, {TP}, {}, rs, cs);
    SameChain(l, t1, t2, rs, cs);
    SameChain(l, t2, t3, rs, cs);
    SameChain(l, t3, t4, rs, cs);
    SameChain(l, t4, t5, rs, cs);
  }

  /** `s0` points at the row that the shift amount selects. */
  lemma RowReached(at: Layout, t: Table, rs1: nat, rs2: nat, l: Local)
    requires Ready(at, l) && EntrySize(t) == 4
    ensures var t1 := LExec(ShiftEnter(rs1), l);
            var t2 := LExec(ShiftRow(at, t, S0, rs2), t1);
            && Same(l, t1, {}, Cells(SAVE_1) + Cells(VAR_A)) && AreaWord(t1, SAVE_1) == LR(l, S0)
            && Same(t1, t2, {S0, TP}, Cells(VAR_B))
            && AtRow(at, t, LR(l, rs2) % 32, LR(l, rs1), t2)
  {
    hide LExec, LR, AreaWord, Ready, Same, Wrap, Position, ShiftEnter, ShiftRow, EntrySize;
    var t1 := LExec(ShiftEnter(rs1), l);
    ShiftEnterRuns(rs1, l);
    SameReg(l, t1, {}, Cells(SAVE_1) + Cells(VAR_A), rs2);
    ReadyFrame(at, l, t1, {}, Cells(SAVE_1) + Cells(VAR_A));
    var t2 := LExec(ShiftRow(at, t, S0, rs2), t1);
    ShiftRowRuns(at, t, rs2, t1);
    SameWord(t1, t2, {S0, TP}, Cells(VAR_B), VAR_A);
    ReadyFrame(at, t1, t2, {S0, TP}, Cells(VAR_B));
  }

  lemma SllRuns(at: Layout, rd: nat, rs1: nat, rs2: nat, l: Local)
    requires Ready(at, l)
    ensures var t := LExec(Sll(at, rd, rs1, rs2), l);
            Same(l, t, {rd, TP, GP}, AllCells())
            && (rd != X0 ==> LR(t, rd) == Wrap(Shl(LR(l, rs1), LR(l, rs2) % 32)))
  {
    hide LExec, LR, AreaWord, Ready, Same, AtRow, Wrap, Shl, ShiftEnter, ShiftRow, SllBody, ShiftLeave, AllCells;
    Join4(ShiftEnter(rs1), ShiftRow(at, SllTable, S0, rs2), SllBody(), ShiftLeave(rd), l);
    var t1 := LExec(ShiftEnter(rs1), l);
    var t2 := LExec(ShiftRow(at, SllTable, S0, rs2), t1);
    RowReached(at, SllTable, rs1, rs2, l);
    var t3 := LExec(SllBody(), t2);
    SllBodyRuns(at, LR(l, rs2) % 32, LR(l, rs1), t2);
    FinishShift(rd, l, t1, t2, t3);
  }

  /** The end of every shift macro. */
  lemma FinishShift(rd: nat, l: Local, t1: Local, t2: Local, t3: Local)
    requires Same(l, t1, {}, Cells(SAVE_1) + Cells(VAR_A)) && AreaWord(t1, SAVE_1) == LR(l, S0)
    requires Same(t1, t2, {S0, TP}, Cells(VAR_B))
    requires Same(t2, t3, {S0, TP, GP}, Cells(VAR_B) + Cells(VAR_C) + Cells(VAR_D))
    ensures var t := LExec(ShiftLeave(rd), t3);
            Same(l, t, {rd, TP, GP}, AllCells()) && (rd != X0 ==> LR(t, rd) == Wrap(LR(t3, GP) + LR(t3, TP)))
  {
    hide LExec, LR, AreaWord, Same, Wrap, ShiftLeave, AllCells;
    var rs, cs := {S0, TP, GP}, Cells(VAR_B) + Cells(VAR_C) + Cells(VAR_D);
    SameWider(t1, t2, {S0, TP}, Cells(VAR_B), rs, cs);
    SameChain(t1, t2, t3, rs, cs);
    ShiftLeaveRuns(rd, t3);
    ShiftRestores(rd, l, t1, t3, LExec(ShiftLeave(rd), t3));
  }

  // ----- srl and sra -----

  lemma LookupToRuns(at: Layout, j: nat, x: Word, k: nat, slot: int, l: Local)
    requires AtRow(at, SrlTable, j, x, l) && k < 4 && slot in {VAR_B, VAR_C, VAR_D}
    ensures var u := LExec(LookupTo(k, slot), l);
            Same(l, u, {TP}, Cells(slot)) && AtRow(at, SrlTable, j, x, u)
            && AreaWord(u, slot) == Entry(SrlTable, j, ByteOf(x, k))
  {
    hide LExec, LR, AreaByte, AreaWord, Same, AtRow, ShiftByte, Entry, ByteOf;
    LExecAppend(ShiftByte(S0, k), [Sw(TP, SP, slot)], l);
    var t1 := LExec(ShiftByte(S0, k), l);
    RowByte(at, SrlTable, j, x, k, l);
    var t2 := LExec([Sw(TP, SP, slot)], t1);
    StoreOne(TP, slot, t1);
    AtRowKept(at, SrlTable, j, x, t1, t2, {}, Cells(slot));
    SameWider(l, t1, {TP}, {}, {TP}, Cells(slot));
    SameWider(t1, t2, {}, Cells(slot), {TP}, Cells(slot));
    SameChain(l, t1, t2, {TP}, Cells(slot));
  }

  lemma LookupsRun(at: Layout, j: nat, x: Word, l: Local)
    requires AtRow(at, SrlTable, j, x, l)
    ensures var u := LExec(LookupTo(2, VAR_B) + LookupTo(1, VAR_C) + LookupTo(0, VAR_D), l);
            Same(l, u, {TP}, Cells(VAR_B) + Cells(VAR_C) + Cells(VAR_D)) && AtRow(at, SrlTable, j, x, u)
            && AreaWord(u, VAR_B) == Entry(SrlTable, j, ByteOf(x, 2))
            && AreaWord(u, VAR_C) == Entry(SrlTable, j, ByteOf(x, 1))
            && AreaWord(u, VAR_D) == Entry(SrlTable, j, ByteOf(x, 0))
  {
    hide LExec, LR, AreaByte, AreaWord, Same, AtRow, LookupTo, Entry, ByteOf;
    var cs := Cells(VAR_B) + Cells(VAR_C) + Cells(VAR_D);
    Join3(LookupTo(2, VAR_B), LookupTo(1, VAR_C), LookupTo(0, VAR_D), l);
    var t1 := LExec(LookupTo(2, VAR_B), l);
    LookupToRuns(at, j, x, 2, VAR_B, l);
    var t2 := LExec(LookupTo(1, VAR_C), t1);
    LookupToRuns(at, j, x, 1, VAR_C, t1);
    SameWord(t1, t2, {TP}, Cells(VAR_C), VAR_B);
    var t3 := LExec(LookupTo(0, VAR_D), t2);
    LookupToRuns(at, j, x, 0, VAR_D, t2);
    SameWord(t2, t3, {TP}, Cells(VAR_D), VAR_B);
    SameWord(t2, t3, {TP}, Cells(VAR_D), VAR_C);
    SameWider(l, t1, {TP}, Cells(VAR_B), {TP}, cs);
    SameWider(t1, t2, {TP}, Cells(VAR_C), {TP}, cs);
    SameWider(t2, t3, {TP}, Cells(VAR_D), {TP}, cs);
    SameChain(l, t1, t2, {TP}, cs);
    SameChain(l, t2, t3, {TP}, cs);
  }

  lemma Combine0Runs(l: Local)
    ensures var t := LExec(Combine0(), l);
            Same(l, t, {TP, GP}, Cells(VAR_D))
            && AreaWord(t, VAR_D) == AreaByte(l, VAR_B + 1) + AreaByte(l, VAR_C + 2) + AreaByte(l, VAR_D + 3)
  {
    hide LExec, LR, AreaByte, LSet, SetWord, ByteOf, WordOf, Wrap;
    Rules();
    var c1 := [Lbu(GP, SP, VAR_B + 1), Lbu(TP, SP, VAR_C + 2), Add(GP, GP, TP)];
    LExecAppend(c1, [Lbu(TP, SP, VAR_D + 3), Add(GP, GP, TP), Sw(GP, SP, VAR_D)], l);
    LExec3(Lbu(GP, SP, VAR_B + 1), Lbu(TP, SP, VAR_C + 2), Add(GP, GP, TP), l);
    LExec3(Lbu(TP, SP, VAR_D + 3), Add(GP, GP, TP), Sw(GP, SP, VAR_D), LExec(c1, l));
    var a: int, b: int, c: int := AreaByte(l, VAR_B + 1), AreaByte(l, VAR_C + 2), AreaByte(l, VAR_D + 3);
    WrapSmall(a + b);
    WrapSmall(a + b + c);
    WordOfBytesOf(Wrap(a + b + c));
  }

  lemma Combine1Runs(l: Local)
    requires AreaByte(l, VAR_B + 2) + AreaByte(l, VAR_C + 3) < 0x100
    ensures var t := LExec(Combine1(), l);
            Same(l, t, {TP, GP}, {VAR_D + 1}) && AreaByte(t, VAR_D + 1) == AreaByte(l, VAR_B + 2) + AreaByte(l, VAR_C + 3)
  {
    hide LExec, LR, AreaByte, LSet, SetByte, ByteOf, Wrap;
    Rules();
    LExec4(Lbu(GP, SP, VAR_B + 2), Lbu(TP, SP, VAR_C + 3), Add(GP, GP, TP), Sb(GP, SP, VAR_D + 1), l);
    var sum: int := AreaByte(l, VAR_B + 2) as int + AreaByte(l, VAR_C + 3) as int;
    WrapSmall(sum);
    ByteOfByte(sum);
  }

  lemma Combine2Runs(l: Local)
    ensures var t := LExec(Combine2(), l);
            Same(l, t, {GP}, {VAR_D + 2})
            && LR(t, GP) == WordOf(AreaByte(l, VAR_D), AreaByte(l, VAR_D + 1), AreaByte(l, VAR_B + 3), AreaByte(l, VAR_D + 3))
  {
    hide LExec, LR, AreaByte, LSet, SetByte, ByteOf, WordOf;
    Rules();
    LExec3(Lbu(GP, SP, VAR_B + 3), Sb(GP, SP, VAR_D + 2), Lw(GP, SP, VAR_D), l);
    ByteOfByte(AreaByte(l, VAR_B + 3));
  }

  /** The three lower bytes of the result are put together without a carry. */
  lemma CombinesRun(y0: Word, y1: Word, y2: Word, l: Local)
    requires AreaWord(l, VAR_B) == y2 && AreaWord(l, VAR_C) == y1 && AreaWord(l, VAR_D) == y0
    requires ByteOf(y2, 1) + ByteOf(y1, 2) + ByteOf(y0, 3) < 0x100 && ByteOf(y2, 2) + ByteOf(y1, 3) < 0x100
    ensures var t := LExec(Combine0() + Combine1() + Combine2(), l);
            Same(l, t, {TP, GP}, Cells(VAR_D)) && LR(t, GP) == ShrSum(y0, y1, y2)
  {
    hide LExec, LR, AreaByte, AreaWord, Same, Combine0, Combine1, Combine2, ByteOf, WordOf;
    var rs, cs := {TP, GP}, Cells(VAR_D);
    Join3(Combine0(), Combine1(), Combine2(), l);
    AreaWordBytes(l, VAR_B);
    AreaWordBytes(l, VAR_C);
    AreaWordBytes(l, VAR_D);
    var sum0: int := ByteOf(y2, 1) as int + ByteOf(y1, 2) as int + ByteOf(y0, 3) as int;
    var t1 := LExec(Combine0(), l);
    Combine0Runs(l);
    AreaWordBytes(t1, VAR_D);
    BytesOfSmall(sum0);
    SameCell(l, t1, rs, cs, VAR_B + 2);
    SameCell(l, t1, rs, cs, VAR_B + 3);
    SameCell(l, t1, rs, cs, VAR_C + 3);
    var t2 := LExec(Combine1(), t1);
    Combine1Runs(t1);
    SameCell(t1, t2, rs, {VAR_D + 1}, VAR_B + 3);
    SameCell(t1, t2, rs, {VAR_D + 1}, VAR_D);
    SameCell(t1, t2, rs, {VAR_D + 1}, VAR_D + 3);
    var t3 := LExec(Combine2(), t2);
    Combine2Runs(t2);
    WordOfIs(AreaByte(t2, VAR_D), AreaByte(t2, VAR_D + 1), AreaByte(t2, VAR_B + 3), AreaByte(t2, VAR_D + 3));
    SameWider(t1, t2, rs, {VAR_D + 1}, rs, cs);
    SameWider(t2, t3, {GP}, {VAR_D + 2}, rs, cs);
    SameChain(l, t1, t2, rs, cs);
    SameChain(l, t2, t3, rs, cs);
  }

  lemma BytesOfSmall(b: Byte)
    ensures ByteOf(b, 0) == b && ByteOf(b, 3) == 0
  {
  }

  /** The rows of the two tables are a constant distance apart. */
  lemma RowMove(at: Layout, j: nat)
    ensures Wrap(Wrap(at.lut + Position(SrlTable, j, 0, 0)) + (Offset(SraTable) - Offset(SrlTable)))
            == Wrap(at.lut + Position(SraTable, j, 0, 0))
  {
    WrapAdd(at.lut + Position(SrlTable, j, 0, 0), Offset(SraTable) - Offset(SrlTable));
  }

  /** The arithmetic shift takes the top byte from the other table. */
  lemma SraRowRuns(at: Layout, arith: bool, j: nat, x: Word, l: Local)
    requires AtRow(at, SrlTable, j, x, l)
    ensures var u := LExec(SraRow(arith), l);
            Same(l, u, {S0, TP}, {}) && AtRow(at, if arith then SraTable else SrlTable, j, x, u)
  {
    if arith {
      SraRowMoves(at, j, x, l);
    }
  }

  lemma SraRowMoves(at: Layout, j: nat, x: Word, l: Local)
    requires AtRow(at, SrlTable, j, x, l)
    ensures var u := LExec(SraRow(true), l);
            Same(l, u, {S0, TP}, {}) && AtRow(at, SraTable, j, x, u)
  {
    hide LExec, LR, Same, Wrap, La, Ready, AreaWord, Position;
    var d := Offset(SraTable) - Offset(SrlTable);
    RowMove(at, j);
    assert EntrySize(SraTable) == 4;
    LExecAppend(La(TP, d), [Add(S0, S0, TP)], l);
    var t1 := LExec(La(TP, d), l);
    LaRuns(TP, d, l);
    SameReg(l, t1, {TP}, {}, S0);
    var t2 := LExec([Add(S0, S0, TP)], t1);
    AddPairRuns(S0, S0, TP, t1);
    SameWider(l, t1, {TP}, {}, {S0, TP}, {});
    SameWider(t1, t2, {S0}, {}, {S0, TP}, {});
    SameChain(l, t1, t2, {S0, TP}, {});
    SameWord(l, t2, {S0, TP}, {}, VAR_A);
    ReadyFrame(at, l, t2, {S0, TP}, {});
  }

  lemma ShiftRightBodyRuns(at: Layout, arith: bool, j: nat, x: Word, l: Local)
    requires AtRow(at, SrlTable, j, x, l)
    ensures var u := LExec(ShiftRightBody(arith), l);
            Same(l, u, {S0, TP, GP}, Cells(VAR_B) + Cells(VAR_C) + Cells(VAR_D))
            && Wrap(LR(u, GP) + LR(u, TP)) == if arith then Sra(x, j) else ShrWord(x, j)
  {
    hide LExec, LR, AreaByte, AreaWord, Same, AtRow, ShiftByte, LookupTo, Combine0, Combine1, Combine2, SraRow, Entry, ByteOf, Wrap, ShrSum, Sra, Shr;
    var rs, cs := {S0, TP, GP}, Cells(VAR_B) + Cells(VAR_C) + Cells(VAR_D);
    var c1, c2 := LookupTo(2, VAR_B) + LookupTo(1, VAR_C) + LookupTo(0, VAR_D), Combine0() + Combine1() + Combine2();
    Join4(c1, c2, SraRow(arith), ShiftByte(S0, 3), l);
    ShiftRightByTable(x, j);
    var y0, y1, y2 := Entry(SrlTable, j, ByteOf(x, 0)), Entry(SrlTable, j, ByteOf(x, 1)), Entry(SrlTable, j, ByteOf(x, 2));
    var t1 := LExec(c1, l);
    LookupsRun(at, j, x, l);
    var t2 := LExec(c2, t1);
    CombinesRun(y0, y1, y2, t1);
    AtRowKept(at, SrlTable, j, x, t1, t2, {TP, GP}, Cells(VAR_D));
    var t3 := LExec(SraRow(arith), t2);
    SraRowRuns(at, arith, j, x, t2);
    SameReg(t2, t3, {S0, TP}, {}, GP);
    var t4 := LExec(ShiftByte(S0, 3), t3);
    RowByte(at, if arith then SraTable else SrlTable, j, x, 3, t3);
    SameReg(t3, t4, {TP}, {}, GP);
    WrapSmall(if arith then Sra(x, j) else ShrWord(x, j));
    SameWider(l, t1, {TP}, cs, rs, cs);
    SameWider(t1, t2, {TP, GP}, Cells(VAR_D), rs, cs);
    SameWider(t2, t3, {S0, TP}, {}, rs, cs);
    SameWider(t3, t4, {TP}, {}, rs, cs);
    SameChain(l, t1, t2, rs, cs);
    SameChain(l, t2, t3, rs, cs);
    SameChain(l, t3, t4, rs, cs);
  }

  lemma ShiftRightRuns(at: Layout, arith: bool, rd: nat, rs1: nat, rs2: nat, l: Local)
    requires Ready(at, l)
    ensures var t := LExec(ShiftRight(at, arith, rd, rs1, rs2), l);
            Same(l, t, {rd, TP, GP}, AllCells())
            && (rd != X0 ==> LR(t, rd) == if arith then Sra(LR(l, rs1), LR(l, rs2) % 32) else ShrWord(LR(l, rs1), LR(l, rs2) % 32))
  {
    hide LExec, LR, AreaWord, Ready, Same, AtRow, Wrap, Sra, ShrWord, ShiftEnter, ShiftRow, ShiftRightBody, ShiftLeave, AllCells;
    Join4(ShiftEnter(rs1), ShiftRow(at, SrlTable, S0, rs2), ShiftRightBody(arith), ShiftLeave(rd), l);
    var t1 := LExec(ShiftEnter(rs1), l);
    var t2 := LExec(ShiftRow(at, SrlTable, S0, rs2), t1);
    RowReached(at, SrlTable, rs1, rs2, l);
    var t3 := LExec(ShiftRightBody(arith), t2);
    ShiftRightBodyRuns(at, arith, LR(l, rs2) % 32, LR(l, rs1), t2);
    FinishShift(rd, l, t1, t2, t3);
  }

  /** `s0` points at the row of a constant shift amount. */
  lemma ConstantRow(at: Layout, rs1: nat, imm: nat, l: Local)
    requires Ready(at, l) && imm < 32
    ensures var t1 := LExec(ShiftEnter(rs1), l);
            var t2 := LExec(La(S0, at.lut + Position(SrlTable, imm, 0, 0)), t1);
            && Same(l, t1, {}, Cells(SAVE_1) + Cells(VAR_A)) && AreaWord(t1, SAVE_1) == LR(l, S0)
            && Same(t1, t2, {S0, TP}, Cells(VAR_B))
            && AtRow(at, SrlTable, imm, LR(l, rs1), t2)
  {
    hide LExec, LR, AreaWord, Ready, Same, Wrap, Position, ShiftEnter, La;
    var addr := at.lut + Position(SrlTable, imm, 0, 0);
    var t1 := LExec(ShiftEnter(rs1), l);
    ShiftEnterRuns(rs1, l);
    ReadyFrame(at, l, t1, {}, Cells(SAVE_1) + Cells(VAR_A));
    assert Rows(SrlTable) == 32;
    LutAddress(at, l, SrlTable, imm);
    WrapSmall(addr);
    var t2 := LExec(La(S0, addr), t1);
    LaRuns(S0, addr, t1);
    SameWord(t1, t2, {S0}, {}, VAR_A);
    SameWider(t1, t2, {S0}, {}, {S0, TP}, Cells(VAR_B));
    ReadyFrame(at, t1, t2, {S0, TP}, Cells(VAR_B));
  }

  /** A shift by 24 only keeps the top byte. */
  lemma TopByteShift(x: Word)
    ensures ByteOf(x, 3) == ShrWord(x, 24) && Entry(SraTable, 24, ByteOf(x, 3)) == Sra(x, 24)
  {
    hide Shr;
    var top: int := ByteOf(x, 3);
    ShiftBy24(x);
    ShiftBy24(0xFFFF_FFFF - x);
    ShiftBy24(top * 0x100_0000);
    ShiftBy24(0xFFFF_FFFF - top * 0x100_0000);
    TopOnly(x, top);
    hide ByteOf;
  }

  lemma TopOnly(x: Word, top: int)
    requires top == ByteOf(x, 3) as int
    ensures (x < 0x8000_0000 <==> top < 0x80) && (top * 0x100_0000) / 0x100_0000 == top
    ensures (0xFFFF_FFFF - x) / 0x100_0000 == 0xFF - top == (0xFFFF_FFFF - top * 0x100_0000) / 0x100_0000
  {
    assert x == top * 0x100_0000 + x % 0x100_0000;
  }

  lemma ShiftBy24(x: Word)
    ensures Shr(x, 24) == ByteOf(x, 3) == x / 0x100_0000
  {
    hide Shr, Pow2, Low;
    ConstantShifts(0);
    ShrIsDiv(x, 24);
  }

  lemma ShiftRight24Runs(at: Layout, arith: bool, rd: nat, rs1: nat, l: Local)
    requires Ready(at, l) && (arith ==> rd !in {SP, TP})
    ensures var t := LExec(ShiftRight24(at, arith, rd, rs1), l);
            Same(l, t, {rd, TP, GP}, AllCells())
            && (rd != X0 ==> LR(t, rd) == if arith then Sra(LR(l, rs1), 24) else ShrWord(LR(l, rs1), 24))
  {
    hide LExec, LR, Ready, Same, GetByte, Sra, ShrWord, ByteOf, Entry, AllCells, La, Slli, Position;
    TopByteShift(LR(l, rs1));
    if arith {
      ShiftRight24Arith(at, rd, rs1, l);
    } else {
      GetByteRuns(rd, rs1, 3, l);
      EveryCell();
      SameWider(l, LExec(GetByte(rd, rs1, 3), l), {rd}, Cells(VAR_C), {rd, TP, GP}, AllCells());
    }
  }

  lemma EveryCell()
    ensures Cells(VAR_A) <= AllCells() && Cells(VAR_C) <= AllCells() && {} <= AllCells()
  {
  }

  lemma ShiftRight24Arith(at: Layout, rd: nat, rs1: nat, l: Local)
    requires Ready(at, l) && rd !in {SP, TP}
    ensures var t := LExec(ShiftRight24(at, true, rd, rs1), l);
            Same(l, t, {rd, TP, GP}, AllCells())
            && (rd != X0 ==> LR(t, rd) == Entry(SraTable, 24, ByteOf(LR(l, rs1), 3)))
  {
    hide LExec, LR, AreaWord, Ready, Same, Wrap, Position, La, Slli, ByteOf, Entry, AllCells;
    var x := LR(l, rs1);
    var addr := at.lut + Position(SraTable, 24, 0, 0);
    Join5([Sw(rs1, SP, VAR_A)], La(TP, addr), [Lbu(rd, SP, VAR_A + 3)], Slli(rd, rd, 2), [Add(TP, TP, rd), Lw(rd, TP, 0)], l);
    var t1 := LExec([Sw(rs1, SP, VAR_A)], l);
    StoreOne(rs1, VAR_A, l);
    AreaWordBytes(t1, VAR_A);
    var t2 := LExec(La(TP, addr), t1);
    assert Rows(SraTable) == 32;
    LutAddress(at, l, SraTable, 24);
    LaRuns(TP, addr, t1);
    SameCell(t1, t2, {TP}, {}, VAR_A + 3);
    EveryCell();
    SameWider(l, t1, {}, Cells(VAR_A), {rd, TP, GP}, AllCells());
    SameWider(t1, t2, {TP}, {}, {rd, TP, GP}, AllCells());
    SameChain(l, t1, t2, {rd, TP, GP}, AllCells());
    ShiftRight24Tail(at, rd, ByteOf(x, 3), l, t2);
  }

  lemma ShiftRight24Tail(at: Layout, rd: nat, b: Byte, l: Local, t2: Local)
    requires Ready(at, l) && Same(l, t2, {rd, TP, GP}, AllCells()) && rd !in {SP, TP}
    requires AreaByte(t2, VAR_A + 3) == b && LR(t2, TP) == at.lut + Position(SraTable, 24, 0, 0)
    ensures var t := LExec([Add(TP, TP, rd), Lw(rd, TP, 0)], LExec(Slli(rd, rd, 2), LExec([Lbu(rd, SP, VAR_A + 3)], t2)));
            Same(l, t, {rd, TP, GP}, AllCells()) && (rd != X0 ==> LR(t, rd) == Entry(SraTable, 24, b))
  {
    hide LExec, LR, Ready, Same, Wrap, Position, Slli, Shl, Entry, AllCells, MemWord, Misses;
    var rs := {rd, TP, GP};
    var t3 := LExec([Lbu(rd, SP, VAR_A + 3)], t2);
    LoadByteFrom(rd, VAR_A + 3, t2);
    SameReg(t2, t3, {rd}, {}, TP);
    SameWider(t2, t3, {rd}, {}, rs, AllCells());
    SameChain(l, t2, t3, rs, AllCells());
    var t4 := LExec(Slli(rd, rd, 2), t3);
    SlliShortRuns(rd, rd, 2, t3);
    SameReg(t3, t4, {rd}, {}, TP);
    SameWider(t3, t4, {rd}, {}, rs, AllCells());
    SameChain(l, t3, t4, rs, AllCells());
    ReadyFrame(at, l, t4, rs, AllCells());
    var i: Byte := if rd == X0 then 0 else b;
    TimesFour(i);
    XZero(t4);
    assert EntrySize(SraTable) == 4;
    FetchWord(at, t4, SraTable, 24, i);
    var t5 := LExec([Add(TP, TP, rd), Lw(rd, TP, 0)], t4);
    AddLoadTo(rd, t4, Wrap(LR(t4, TP) + LR(t4, rd)));
    SameWider(t4, t5, {TP, rd}, {}, rs, AllCells());
    SameChain(l, t4, t5, rs, AllCells());
  }

  lemma AddLoadTo(rd: nat, l: Local, a: Word)
    requires a == Wrap(LR(l, TP) + LR(l, rd)) && Misses(LR(l, SP), a, 4)
    ensures var t := LExec([Add(TP, TP, rd), Lw(rd, TP, 0)], l);
            Same(l, t, {TP, rd}, {}) && (rd != X0 ==> LR(t, rd) == MemWord(l.mem, a))
  {
    hide LExec, LR, AreaByte, LSet, Touch, Misses, Wrap, MemWord;
    Rules();
    LExec2(Add(TP, TP, rd), Lw(rd, TP, 0), l);
    WrapSmall(a);
  }

  lemma ShiftRightImmRuns(at: Layout, arith: bool, rd: nat, rs1: nat, imm: nat, l: Local)
    requires Ready(at, l) && imm < 32 && (imm == 24 && arith ==> rd !in {SP, TP})
    ensures var t := LExec(ShiftRightImm(at, arith, rd, rs1, imm), l);
            Same(l, t, {rd, TP, GP}, AllCells())
            && (rd != X0 ==> LR(t, rd) == if arith then Sra(LR(l, rs1), imm) else ShrWord(LR(l, rs1), imm))
  {
    hide LExec, LR, AreaWord, Ready, Same, AtRow, Wrap, Sra, ShrWord, ShiftEnter, La, ShiftRightBody, ShiftLeave, AllCells, Position, ShiftRight24;
    if imm == 24 {
      ShiftRight24Runs(at, arith, rd, rs1, l);
    } else {
      var row := La(S0, at.lut + Position(SrlTable, imm, 0, 0));
      Join4(ShiftEnter(rs1), row, ShiftRightBody(arith), ShiftLeave(rd), l);
      var t1 := LExec(ShiftEnter(rs1), l);
      var t2 := LExec(row, t1);
      ConstantRow(at, rs1, imm, l);
      var t3 := LExec(ShiftRightBody(arith), t2);
      ShiftRightBodyRuns(at, arith, imm, LR(l, rs1), t2);
      FinishShift(rd, l, t1, t2, t3);
    }
  }

  // ----- slli with any amount -----

  lemma SlliRuns(rd: nat, rs1: nat, imm: nat, l: Local)
    requires imm < 32
    ensures var t := LExec(Slli(rd, rs1, imm), l);
            Same(l, t, {rd, TP}, Cells(VAR_A) + Cells(VAR_C))
            && (rd != X0 ==> LR(t, rd) == Wrap(Shl(LR(l, rs1), imm)))
  {
    hide LExec, LR, Same, Slli, Shl, Wrap;
    if imm < 16 {
      SlliShortRuns(rd, rs1, imm, l);
      SameWider(l, LExec(Slli(rd, rs1, imm), l), {rd}, {}, {rd, TP}, Cells(VAR_A) + Cells(VAR_C));
    } else if imm >= 24 {
      SlliFrom24(rd, rs1, imm, l);
    } else {
      SlliFrom16(rd, rs1, imm, l);
    }
  }

  lemma SlliFrom24(rd: nat, rs1: nat, imm: nat, l: Local)
    requires 24 <= imm < 32
    ensures var t := LExec(Slli(rd, rs1, imm), l);
            Same(l, t, {rd, TP}, Cells(VAR_A) + Cells(VAR_C))
            && (rd != X0 ==> LR(t, rd) == Wrap(Shl(LR(l, rs1), imm)))
  {
    var c1 := [Sw(X0, SP, VAR_A), Sb(rs1, SP, VAR_A + 3), Lw(rd, SP, VAR_A)];
    assert Slli(rd, rs1, imm) == c1 + Slli(rd, rd, imm - 24);
    hide LExec, LR, Same, Slli, Shl, Wrap;
    var rs, cs := {rd, TP}, Cells(VAR_A) + Cells(VAR_C);
    LExecAppend(c1, Slli(rd, rd, imm - 24), l);
    var t1 := LExec(c1, l);
    TopByteFrom(rd, rs1, l);
    var t2 := LExec(Slli(rd, rd, imm - 24), t1);
    SlliShortRuns(rd, rd, imm - 24, t1);
    ByteShift(LR(l, rs1), imm);
    SameWider(l, t1, {rd}, Cells(VAR_A), rs, cs);
    SameWider(t1, t2, {rd}, {}, rs, cs);
    SameChain(l, t1, t2, rs, cs);
  }

  lemma SlliFrom16(rd: nat, rs1: nat, imm: nat, l: Local)
    requires 16 <= imm < 24
    ensures var t := LExec(Slli(rd, rs1, imm), l);
            Same(l, t, {rd, TP}, Cells(VAR_A) + Cells(VAR_C))
            && (rd != X0 ==> LR(t, rd) == Wrap(Shl(LR(l, rs1), imm)))
  {
    var c1 := [Sw(X0, SP, VAR_A)] + ShHalf(rs1, SP, VAR_A + 2) + [Lw(rd, SP, VAR_A)];
    assert Slli(rd, rs1, imm) == c1 + Slli(rd, rd, imm - 16);
    hide LExec, LR, Same, Slli, Shl, Wrap, ShHalf;
    var rs, cs := {rd, TP}, Cells(VAR_A) + Cells(VAR_C);
    LExecAppend(c1, Slli(rd, rd, imm - 16), l);
    var t1 := LExec(c1, l);
    TopHalfFrom(rd, rs1, l);
    var t2 := LExec(Slli(rd, rd, imm - 16), t1);
    SlliShortRuns(rd, rd, imm - 16, t1);
    HalfShift(LR(l, rs1), imm);
    SameWider(t1, t2, {rd}, {}, rs, cs);
    SameChain(l, t1, t2, rs, cs);
  }

  lemma TopByteFrom(rd: nat, rs1: nat, l: Local)
    ensures var t := LExec([Sw(X0, SP, VAR_A), Sb(rs1, SP, VAR_A + 3), Lw(rd, SP, VAR_A)], l);
            Same(l, t, {rd}, Cells(VAR_A)) && (rd != X0 ==> LR(t, rd) == WordOf(0, 0, 0, ByteOf(LR(l, rs1), 0)))
  {
    hide LExec, LR, AreaByte, LSet, SetByte, SetWord, ByteOf, WordOf;
    Rules();
    LExec3(Sw(X0, SP, VAR_A), Sb(rs1, SP, VAR_A + 3), Lw(rd, SP, VAR_A), l);
    XZero(l);
    BytesOfZero();
  }

  lemma TopHalfFrom(rd: nat, rs1: nat, l: Local)
    ensures var t := LExec([Sw(X0, SP, VAR_A)] + ShHalf(rs1, SP, VAR_A + 2) + [Lw(rd, SP, VAR_A)], l);
            Same(l, t, {rd, TP}, Cells(VAR_A) + Cells(VAR_C))
            && (rd != X0 ==> LR(t, rd) == WordOf(0, 0, ByteOf(LR(l, rs1), 0), ByteOf(LR(l, rs1), 1)))
  {
    hide LExec, LR, AreaByte, Same, ByteOf, WordOf, ShHalf;
    var rs, cs := {rd, TP}, Cells(VAR_A) + Cells(VAR_C);
    Join3([Sw(X0, SP, VAR_A)], ShHalf(rs1, SP, VAR_A + 2), [Lw(rd, SP, VAR_A)], l);
    var t1 := LExec([Sw(X0, SP, VAR_A)], l);
    StoreOne(X0, VAR_A, l);
    XZero(l);
    BytesOfZero();
    AreaWordBytes(t1, VAR_A);
    SameReg(l, t1, {}, Cells(VAR_A), rs1);
    var t2 := LExec(ShHalf(rs1, SP, VAR_A + 2), t1);
    ShHalfLocal(rs1, VAR_A + 2, t1);
    SameCell(t1, t2, {TP}, {VAR_A + 2, VAR_A + 2 + 1} + Cells(VAR_C), VAR_A);
    SameCell(t1, t2, {TP}, {VAR_A + 2, VAR_A + 2 + 1} + Cells(VAR_C), VAR_A + 1);
    var t3 := LExec([Lw(rd, SP, VAR_A)], t2);
    LoadOne(rd, VAR_A, t2);
    SameWider(l, t1, {}, Cells(VAR_A), rs, cs);
    SameWider(t1, t2, {TP}, {VAR_A + 2, VAR_A + 2 + 1} + Cells(VAR_C), rs, cs);
    SameWider(t2, t3, {rd}, {}, rs, cs);
    SameChain(l, t1, t2, rs, cs);
    SameChain(l, t2, t3, rs, cs);
  }

  lemma ByteShift(x: Word, imm: nat)
    requires 24 <= imm
    ensures Wrap(Shl(WordOf(0, 0, 0, ByteOf(x, 0)), imm - 24)) == Wrap(Shl(x, imm))
  {
    hide Shl, ByteOf, WordOf, Wrap;
    ShlShl(x, 24, imm - 24);
    ConstantShifts(x);
    ShlWrap(0x100_0000 * x, imm - 24);
    LowOneByte(x);
  }

  lemma HalfShift(x: Word, imm: nat)
    requires 16 <= imm
    ensures Wrap(Shl(WordOf(0, 0, ByteOf(x, 0), ByteOf(x, 1)), imm - 16)) == Wrap(Shl(x, imm))
  {
    hide Shl, ByteOf, WordOf, Wrap;
    ShlShl(x, 16, imm - 16);
    ConstantShifts(x);
    ShlWrap(0x1_0000 * x, imm - 16);
    LowTwoBytes(x);
  }
}
