/**
 Comparisons: `slt` and `sltu` through three sign bits, `seq` and `seqz` through byte tables
 (abstract-machine/tools/rvmini/inst-replace.h, lines 51-65, 120-161, 211-271).
 */
module RvCompare {
  import opened Bits
  import opened RvMachine
  import opened RvScratch
  import opened RvLut
  import opened RvMacros
  import opened RvBasicMacros

  // ----- slt and sltu -----

  function SignedWord(w: Word): int {
    if w < 0x8000_0000 then w else w - 0x1_0000_0000
  }

  function SignBit(w: Word): nat {
    w / 0x8000_0000
  }

  /** The table index: the signs of both operands and of their difference. */
  function SignsOf(a: Word, b: Word): nat {
    4 * SignBit(a) + 2 * SignBit(b) + SignBit(Wrap(a - b))
  }

  /** The two eight-entry tables are signed and unsigned less-than. */
  lemma SignTables(a: Word, b: Word)
    ensures SignsOf(a, b) in {1, 4, 5, 7} <==> SignedWord(a) < SignedWord(b)
    ensures SignsOf(a, b) in {1, 2, 3, 7} <==> a < b
    ensures SignsOf(a, b) < 8
  {
    Difference(a, b);
    Halves(a);
    Halves(b);
    Halves(Wrap(a - b));
    hide Wrap, SignBit;
  }

  lemma Difference(a: Word, b: Word)
    ensures Wrap(a - b) == if a >= b then a - b else a - b + 0x1_0000_0000
  {
  }

  lemma Halves(a: Word)
    ensures SignBit(a) == if a < 0x8000_0000 then 0 else 1
  {
  }

  lemma SubRuns(at: Layout, rd: nat, rs1: nat, rs2: nat, l: Local)
    requires Ready(at, l) && rs1 != TP
    ensures var t := LExec(Sub(at, rd, rs1, rs2), l);
            Same(l, t, {rd, TP}, Cells(SAVE_3) + Cells(VAR_C) + Cells(VAR_D))
            && (rd != X0 ==> LR(t, rd) == Wrap(LR(l, rs1) - LR(l, rs2)))
  {
    hide LR, AreaByte, AreaWord, Ready, LExec, LSet, Wrap;
    Rules();
    LExecAppend(Not(at, TP, rs2), [Add(rd, rs1, TP), Addi(rd, rd, 1)], l);
    var t1 := LExec(Not(at, TP, rs2), l);
    NotRuns(at, TP, rs2, l);
    LExec2(Add(rd, rs1, TP), Addi(rd, rd, 1), t1);
    TwosComplement(LR(l, rs1), LR(l, rs2));
  }

  lemma TwosComplement(a: Word, b: Word)
    ensures Wrap(Wrap(a + (0xFFFF_FFFF - b)) + 1) == Wrap(a - b)
  {
  }

  lemma AddPairRuns(rd: nat, rs1: nat, rs2: nat, l: Local)
    ensures var t := LExec([Add(rd, rs1, rs2)], l);
            Same(l, t, {rd}, {}) && (rd != X0 ==> LR(t, rd) == Wrap(LR(l, rs1) + LR(l, rs2)))
  {
    LExec1(Add(rd, rs1, rs2), l);
    hide LExec, LR, AreaByte, LSet, Wrap;
    Rules();
  }

  lemma SmallShifts(v: Word)
    requires v < 8
    ensures Wrap(Shl(v, 1)) == 2 * v && Wrap(Shl(v, 2)) == 4 * v
  {
    ShlByConstant(v);
    WrapSmall(2 * v);
    WrapSmall(4 * v);
    hide Shl, Wrap;
  }

  lemma SignIndexRuns(at: Layout, l: Local)
    requires Ready(at, l)
    ensures var t := LExec(SignIndex(at), l);
            Same(l, t, {GP, TP}, Cells(SAVE_3) + Cells(VAR_C) + Cells(VAR_D))
            && LR(t, GP) == SignsOf(LR(l, S0), LR(l, S1))
  {
    hide LR, Ready, LExec, Wrap, Same, Msb, Slli, Sub, SignBit, Cells;
    var a, b := LR(l, S0), LR(l, S1);
    var rs, cs := {GP, TP}, Cells(SAVE_3) + Cells(VAR_C) + Cells(VAR_D);
    var c3 := Msb(TP, S1) + [Add(GP, GP, TP)] + Slli(GP, GP, 1);
    var c4 := Sub(at, TP, S0, S1) + Msb(TP, TP) + [Add(GP, GP, TP)];
    Join4(Msb(GP, S0), Slli(GP, GP, 1), c3, c4, l);
    var t2 := LExec(Slli(GP, GP, 1), LExec(Msb(GP, S0), l));
    FirstSign(l);
    SameWider(l, t2, {GP}, Cells(VAR_C), rs, cs);
    SameReg(l, t2, rs, cs, S1);
    var t3 := LExec(c3, t2);
    SignSmall(a);
    SecondSign(t2, SignBit(a));
    SameWider(t2, t3, {GP, TP}, Cells(VAR_C), rs, cs);
    SameChain(l, t2, t3, rs, cs);
    SameReg(l, t3, rs, cs, S0);
    SameReg(l, t3, rs, cs, S1);
    ReadyFrame(at, l, t3, rs, cs);
    SignSmall(b);
    ThirdSign(at, t3, 4 * SignBit(a) + 2 * SignBit(b));
    SameChain(l, t3, LExec(c4, t3), rs, cs);
  }

  lemma SignSmall(a: Word)
    ensures SignBit(a) <= 1
  {
  }

  lemma FirstSign(l: Local)
    ensures var t := LExec(Slli(GP, GP, 1), LExec(Msb(GP, S0), l));
            Same(l, t, {GP}, Cells(VAR_C)) && LR(t, GP) == 2 * SignBit(LR(l, S0))
  {
    hide LR, LExec, Wrap, Shl, Same, Slli, Msb, Cells;
    var t1 := LExec(Msb(GP, S0), l);
    MsbRuns(GP, S0, l);
    SlliShortRuns(GP, GP, 1, t1);
    SignSmall(LR(l, S0));
    SmallShifts(SignBit(LR(l, S0)));
    SameWider(t1, LExec(Slli(GP, GP, 1), t1), {GP}, {}, {GP}, Cells(VAR_C));
    SameChain(l, t1, LExec(Slli(GP, GP, 1), t1), {GP}, Cells(VAR_C));
  }

  lemma SecondSign(l: Local, signA: nat)
    requires LR(l, GP) == 2 * signA && signA <= 1
    ensures var t := LExec(Msb(TP, S1) + [Add(GP, GP, TP)] + Slli(GP, GP, 1), l);
            Same(l, t, {GP, TP}, Cells(VAR_C)) && LR(t, GP) == 4 * signA + 2 * SignBit(LR(l, S1))
  {
    hide LR, AreaByte, LExec, Wrap, Shl;
    Join3(Msb(TP, S1), [Add(GP, GP, TP)], Slli(GP, GP, 1), l);
    var t1 := LExec(Msb(TP, S1), l);
    MsbRuns(TP, S1, l);
    var t2 := LExec([Add(GP, GP, TP)], t1);
    AddPairRuns(GP, GP, TP, t1);
    WrapSmall(2 * signA + SignBit(LR(l, S1)));
    SlliShortRuns(GP, GP, 1, t2);
    SmallShifts(LR(t2, GP));
  }

  lemma ThirdSign(at: Layout, l: Local, signs: nat)
    requires Ready(at, l) && LR(l, GP) == signs && signs <= 6
    ensures var t := LExec(Sub(at, TP, S0, S1) + Msb(TP, TP) + [Add(GP, GP, TP)], l);
            Same(l, t, {GP, TP}, Cells(SAVE_3) + Cells(VAR_C) + Cells(VAR_D))
            && LR(t, GP) == signs + SignBit(Wrap(LR(l, S0) - LR(l, S1)))
  {
    hide LR, LExec, Wrap, Ready, Same, Cells, Sub, Msb;
    var rs, cs := {GP, TP}, Cells(SAVE_3) + Cells(VAR_C) + Cells(VAR_D);
    Join3(Sub(at, TP, S0, S1), Msb(TP, TP), [Add(GP, GP, TP)], l);
    var t1 := LExec(Sub(at, TP, S0, S1), l);
    SubRuns(at, TP, S0, S1, l);
    SameWider(l, t1, {TP, TP}, cs, {TP}, cs);
    SameReg(l, t1, {TP}, cs, GP);
    var t2 := LExec(Msb(TP, TP), t1);
    MsbRuns(TP, TP, t1);
    SameReg(t1, t2, {TP}, Cells(VAR_C), GP);
    var t3 := LExec([Add(GP, GP, TP)], t2);
    AddPairRuns(GP, GP, TP, t2);
    SignSmall(Wrap(LR(l, S0) - LR(l, S1)));
    WrapSmall(signs + LR(t2, TP));
    SameWider(l, t1, {TP}, cs, rs, cs);
    SameWider(t1, t2, {TP}, Cells(VAR_C), rs, cs);
    SameWider(t2, t3, {GP}, {}, rs, cs);
    SameChain(l, t1, t2, rs, cs);
    SameChain(l, t2, t3, rs, cs);
  }

  /** The table symbols are read like any other memory. */
  lemma FetchSymbol(at: Layout, l: Local, symbol: Word, k: nat)
    requires Ready(at, l)
    requires (symbol == at.slt1 && k < 8) || (symbol == at.sltu1 && k < 8) || (symbol == at.or1 && k < 4)
          || (symbol == at.sameResult && k < 5) || (symbol == at.zero8 && k < 256)
    ensures var a := Wrap(symbol + k); a == symbol + k && Misses(LR(l, SP), a, 1)
  {
    hide TablesAt, SmallTablesAt;
  }

  lemma SltTemplateRuns(at: Layout, table: Word, rd: nat, rs1: nat, rs2: nat, l: Local)
    requires Ready(at, l) && table in {at.slt1, at.sltu1}
    ensures var t := LExec(SltTemplate(at, table, rd, rs1, rs2), l);
            Same(l, t, {rd, TP, GP}, AllCells())
            && (rd != X0 ==> LR(t, rd) == MemByte(l.mem, Wrap(table + SignsOf(LR(l, rs1), LR(l, rs2)))))
  {
    hide LR, AreaWord, LExec, Wrap, Ready, MemByte, SignsOf, Same, SltEnter, SltLeave, SignIndex, La, AllCells, Cells;
    ConcatMiddle(SltEnter(rs1, rs2), SignIndex(at), La(TP, table), SltLeave(rd), l);
    var t1 := LExec(SltEnter(rs1, rs2), l);
    SltPrologue(rs1, rs2, l);
    ReadyFrame(at, l, t1, {S0, S1}, Cells(SAVE_1) + Cells(SAVE_2) + Cells(VAR_A));
    var t3 := LExec(SignIndex(at) + La(TP, table), t1);
    SltIndexRuns(at, table, t1);
    ReadyFrame(at, t1, t3, {GP, TP}, Cells(SAVE_3) + Cells(VAR_C) + Cells(VAR_D));
    SignTables(LR(l, rs1), LR(l, rs2));
    FetchSymbol(at, t3, table, LR(t3, GP));
    SltEpilogue(rd, t3);
    SltRestores(rd, l, t1, t3, LExec(SltLeave(rd), t3));
  }

  lemma ConcatMiddle(c1: seq<Base>, c2: seq<Base>, c3: seq<Base>, c4: seq<Base>, l: Local)
    ensures LExec(c1 + c2 + c3 + c4, l) == LExec(c4, LExec(c2 + c3, LExec(c1, l)))
  {
    Join4(c1, c2, c3, c4, l);
    LExecAppend(c2, c3, LExec(c1, l));
  }

  lemma SltIndexRuns(at: Layout, table: Word, l: Local)
    requires Ready(at, l)
    ensures var t := LExec(SignIndex(at) + La(TP, table), l);
            Same(l, t, {GP, TP}, Cells(SAVE_3) + Cells(VAR_C) + Cells(VAR_D))
            && LR(t, TP) == table && LR(t, GP) == SignsOf(LR(l, S0), LR(l, S1))
            && AreaWord(t, SAVE_1) == AreaWord(l, SAVE_1) && AreaWord(t, SAVE_2) == AreaWord(l, SAVE_2)
  {
    hide LR, AreaWord, LExec, Ready, SignsOf, Same, SignIndex, La, Cells;
    SaveSlots();
    SavedApart();
    var rs, cs := {GP, TP}, Cells(SAVE_3) + Cells(VAR_C) + Cells(VAR_D);
    LExecAppend(SignIndex(at), La(TP, table), l);
    var t2 := LExec(SignIndex(at), l);
    SignIndexRuns(at, l);
    var t3 := LExec(La(TP, table), t2);
    LaRuns(TP, table, t2);
    SameReg(t2, t3, {TP}, {}, GP);
    SameWider(t2, t3, {TP}, {}, rs, cs);
    SameChain(l, t2, t3, rs, cs);
    SameWord(l, t3, rs, cs, SAVE_1);
    SameWord(l, t3, rs, cs, SAVE_2);
  }

  lemma SavedApart()
    ensures Cells(SAVE_1) !! Cells(SAVE_3) + Cells(VAR_C) + Cells(VAR_D)
    ensures Cells(SAVE_2) !! Cells(SAVE_3) + Cells(VAR_C) + Cells(VAR_D)
  {
    hide Cells;
    CellsApart(SAVE_1, SAVE_3);
    CellsApart(SAVE_1, VAR_C);
    CellsApart(SAVE_1, VAR_D);
    CellsApart(SAVE_2, SAVE_3);
    CellsApart(SAVE_2, VAR_C);
    CellsApart(SAVE_2, VAR_D);
  }

  lemma CellsApart(j: int, k: int)
    requires j + 4 <= k || k + 4 <= j
    ensures Cells(j) !! Cells(k)
  {
  }

  /** Saving `s0` and `s1` at the start and loading them at the end leaves only the result changed. */
  lemma SltRestores(rd: nat, l: Local, t1: Local, t3: Local, t4: Local)
    requires Same(l, t1, {S0, S1}, Cells(SAVE_1) + Cells(SAVE_2) + Cells(VAR_A))
    requires Same(t1, t3, {GP, TP}, Cells(SAVE_3) + Cells(VAR_C) + Cells(VAR_D))
    requires Same(t3, t4, {rd, TP, S0, S1}, {})
    requires rd != S0 ==> LR(t4, S0) == LR(l, S0)
    requires rd != S1 ==> LR(t4, S1) == LR(l, S1)
    ensures Same(l, t4, {rd, TP, GP}, AllCells()) && t3.mem == l.mem
  {
    hide LExec, LR, AreaByte;
  }

  /** Every scratch byte. */
  function AllCells(): set<int> {
    Cells(SAVE_1) + Cells(SAVE_2) + Cells(SAVE_3) + Cells(VAR_A) + Cells(VAR_B) + Cells(VAR_C) + Cells(VAR_D)
  }

  lemma SltPrologue(rs1: nat, rs2: nat, l: Local)
    ensures var t := LExec(SltEnter(rs1, rs2), l);
            Same(l, t, {S0, S1}, Cells(SAVE_1) + Cells(SAVE_2) + Cells(VAR_A))
            && AreaWord(t, SAVE_1) == LR(l, S0) && AreaWord(t, SAVE_2) == LR(l, S1)
            && LR(t, S0) == LR(l, rs1) && LR(t, S1) == LR(l, rs2)
  {
    hide LExec, LR, AreaWord, Same, Cells;
    var cs := Cells(SAVE_1) + Cells(SAVE_2) + Cells(VAR_A);
    SaveSlots();
    var c1, c2, c3 := [Sw(S0, SP, SAVE_1), Sw(S1, SP, SAVE_2)], [Sw(rs2, SP, VAR_A)], [Mv(S0, rs1), Lw(S1, SP, VAR_A)];
    assert SltEnter(rs1, rs2) == c1 + c2 + c3;
    Join3(c1, c2, c3, l);
    var t1 := LExec(c1, l);
    StoreTwo(S0, SAVE_1, S1, SAVE_2, l);
    SameReg(l, t1, {}, Cells(SAVE_1) + Cells(SAVE_2), rs1);
    SameReg(l, t1, {}, Cells(SAVE_1) + Cells(SAVE_2), rs2);
    var t2 := LExec(c2, t1);
    StoreOne(rs2, VAR_A, t1);
    SameReg(t1, t2, {}, Cells(VAR_A), rs1);
    SameWord(t1, t2, {}, Cells(VAR_A), SAVE_1);
    SameWord(t1, t2, {}, Cells(VAR_A), SAVE_2);
    var t3 := LExec(c3, t2);
    MoveAndLoad(rs1, t2);
    SameWord(t2, t3, {S0, S1}, {}, SAVE_1);
    SameWord(t2, t3, {S0, S1}, {}, SAVE_2);
    SameWider(l, t1, {}, Cells(SAVE_1) + Cells(SAVE_2), {S0, S1}, cs);
    SameWider(t1, t2, {}, Cells(VAR_A), {S0, S1}, cs);
    SameWider(t2, t3, {S0, S1}, {}, {S0, S1}, cs);
    SameChain(l, t1, t2, {S0, S1}, cs);
    SameChain(l, t2, t3, {S0, S1}, cs);
  }

  lemma SaveSlots()
    ensures IsLocal(SP, SAVE_1, 4) && IsLocal(SP, SAVE_2, 4) && IsLocal(SP, VAR_A, 4)
    ensures Cells(SAVE_1) !! Cells(SAVE_2) && Cells(SAVE_1) !! Cells(VAR_A) && Cells(SAVE_2) !! Cells(VAR_A)
    ensures Cells(SAVE_1) !! {} && Cells(SAVE_2) !! {}
  {
  }

  lemma MoveAndLoad(rs1: nat, l: Local)
    ensures var t := LExec([Mv(S0, rs1), Lw(S1, SP, VAR_A)], l);
            Same(l, t, {S0, S1}, {}) && LR(t, S0) == LR(l, rs1) && LR(t, S1) == AreaWord(l, VAR_A)
  {
    hide LExec, LR, AreaByte, LSet, Wrap, WordOf;
    Rules();
    LExec2(Mv(S0, rs1), Lw(S1, SP, VAR_A), l);
    WrapSmall(LR(l, rs1));
  }

  lemma SltEpilogue(rd: nat, l: Local)
    requires var a := Wrap(LR(l, TP) + LR(l, GP)); Misses(LR(l, SP), a, 1)
    ensures var t := LExec(SltLeave(rd), l);
            Same(l, t, {rd, TP, S0, S1}, {})
            && (rd != S0 ==> LR(t, S0) == AreaWord(l, SAVE_1)) && (rd != S1 ==> LR(t, S1) == AreaWord(l, SAVE_2))
            && (rd != X0 ==> LR(t, rd) == MemByte(l.mem, Wrap(LR(l, TP) + LR(l, GP))))
  {
    hide LExec, LR, AreaWord, Same, Wrap, MemByte, Misses;
    var rs := {rd, TP, S0, S1};
    assert SltLeave(rd) == [Add(TP, TP, GP)] + [Lw(S1, SP, SAVE_2), Lw(S0, SP, SAVE_1)] + [Lbu(rd, TP, 0)];
    Join3([Add(TP, TP, GP)], [Lw(S1, SP, SAVE_2), Lw(S0, SP, SAVE_1)], [Lbu(rd, TP, 0)], l);
    SaveSlots();
    var t1 := LExec([Add(TP, TP, GP)], l);
    AddPairRuns(TP, TP, GP, l);
    SameWord(l, t1, {TP}, {}, SAVE_1);
    SameWord(l, t1, {TP}, {}, SAVE_2);
    SameReg(l, t1, {TP}, {}, SP);
    var t2 := LExec([Lw(S1, SP, SAVE_2), Lw(S0, SP, SAVE_1)], t1);
    LoadTwo(S1, SAVE_2, S0, SAVE_1, t1);
    SameReg(t1, t2, {S1, S0}, {}, TP);
    SameReg(t1, t2, {S1, S0}, {}, SP);
    var t3 := LExec([Lbu(rd, TP, 0)], t2);
    LoadAtTp(rd, t2);
    SameWider(l, t1, {TP}, {}, rs, {});
    SameWider(t1, t2, {S1, S0}, {}, rs, {});
    SameWider(t2, t3, {rd}, {}, rs, {});
    SameChain(l, t1, t2, rs, {});
    SameChain(l, t2, t3, rs, {});
    if rd != S0 { SameReg(t2, t3, {rd}, {}, S0); }
    if rd != S1 { SameReg(t2, t3, {rd}, {}, S1); }
    SameMemory(l, t1, {TP}, {});
    SameMemory(t1, t2, {S1, S0}, {});
  }

  /** The last load of a macro that looks up its result. */
  lemma LoadAtTp(rd: nat, l: Local)
    requires Misses(LR(l, SP), LR(l, TP), 1)
    ensures var t := LExec([Lbu(rd, TP, 0)], l);
            Same(l, t, {rd}, {}) && (rd != X0 ==> LR(t, rd) == MemByte(l.mem, LR(l, TP)))
  {
    hide LExec, LR, AreaByte, LSet, Touch, Wrap, MemByte, Misses;
    Rules();
    LExec1(Lbu(rd, TP, 0), l);
    WrapSmall(LR(l, TP));
  }
}
