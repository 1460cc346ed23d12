/**
 Equality tests: `seq` writes marks into a 256-byte array, `seqz` looks bytes up
 (abstract-machine/tools/rvmini/inst-replace.h, lines 211-271).
 */
module RvEqual {
  import opened RvMachine
  import opened RvScratch
  import opened RvLut
  import opened RvMacros
  import opened RvBasicMacros
  import opened RvCompare
  import opened RvLogic

  /** As `Same`, but the marking array may have changed. */
  ghost predicate SameBut(at: Layout, l: Local, t: Local, regs: set<nat>, cells: set<int>) {
    && t.ok == l.ok
    && (forall a: Word :: !(at.checkSame <= a < at.checkSame + 256) ==> MemByte(t.mem, a) == MemByte(l.mem, a))
    && (forall r: nat :: r !in regs ==> LR(t, r) == LR(l, r))
    && (forall k: int :: k !in cells ==> AreaByte(t, k) == AreaByte(l, k))
  }

  lemma SameIsSameBut(at: Layout, l: Local, t: Local, r1: set<nat>, c1: set<int>, r2: set<nat>, c2: set<int>)
    requires Same(l, t, r1, c1) && r1 <= r2 && c1 <= c2
    ensures SameBut(at, l, t, r2, c2)
  {
    hide LR, AreaByte, MemByte;
  }

  lemma ButChain(at: Layout, l: Local, t: Local, u: Local, r: set<nat>, c: set<int>)
    requires SameBut(at, l, t, r, c) && SameBut(at, t, u, r, c)
    ensures SameBut(at, l, u, r, c)
  {
    hide LR, AreaByte, MemByte;
  }

  lemma ButWider(at: Layout, l: Local, t: Local, r1: set<nat>, c1: set<int>, r2: set<nat>, c2: set<int>)
    requires SameBut(at, l, t, r1, c1) && r1 <= r2 && c1 <= c2
    ensures SameBut(at, l, t, r2, c2)
  {
    hide LR, AreaByte, MemByte;
  }

  lemma ButReg(at: Layout, l: Local, t: Local, regs: set<nat>, cells: set<int>, r: nat)
    requires SameBut(at, l, t, regs, cells) && r !in regs
    ensures LR(t, r) == LR(l, r)
  {
  }

  lemma ReadyBut(at: Layout, l: Local, t: Local, regs: set<nat>, cells: set<int>)
    requires Ready(at, l) && SameBut(at, l, t, regs, cells) && SP !in regs
    ensures Ready(at, t)
  {
    hide LR, AreaByte, MemByte, Entry, ByteOf, Position, Clear, Wrap, Rows;
    SmallBut(at, l, t, regs, cells);
    SameButFacts(at, l, t, regs, cells);
    hide SameBut, SmallTablesAt;
    forall tb: Table, j: nat, i: nat, b: nat | j < Rows(tb) && i < 256 && b < EntrySize(tb)
      ensures MemByte(t.mem, Wrap(at.lut + Position(tb, j, i, b))) == ByteOf(Entry(tb, j, i), b)
    {
      LutAway(at, LR(l, SP), tb, j, i, b);
    }
  }

  lemma SameButFacts(at: Layout, l: Local, t: Local, regs: set<nat>, cells: set<int>)
    requires SameBut(at, l, t, regs, cells) && SP !in regs
    ensures t.ok == l.ok && LR(t, SP) == LR(l, SP)
    ensures forall a: Word :: !(at.checkSame <= a < at.checkSame + 256) ==> MemByte(t.mem, a) == MemByte(l.mem, a)
  {
    hide LR, MemByte, AreaByte;
  }

  /** The small tables are not in the marking array, either. */
  lemma SmallBut(at: Layout, l: Local, t: Local, regs: set<nat>, cells: set<int>)
    requires Clear(at, LR(l, SP)) && SmallTablesAt(l.mem, at) && SameBut(at, l, t, regs, cells)
    ensures SmallTablesAt(t.mem, at)
  {
    hide LR, AreaByte, MemByte;
  }

  lemma LutAway(at: Layout, sp: Word, t: Table, j: nat, i: nat, b: nat)
    requires Clear(at, sp) && j < Rows(t) && i < 256 && b < EntrySize(t)
    ensures var a := Wrap(at.lut + Position(t, j, i, b)); !(at.checkSame <= a < at.checkSame + 256)
  {
    PositionInside(t, j, i, b);
    hide Position, Rows, EntrySize;
    InsideLut(at, sp, Position(t, j, i, b));
  }

  lemma InsideLut(at: Layout, sp: Word, k: nat)
    requires Clear(at, sp) && k < LUT_SIZE
    ensures Wrap(at.lut + k) == at.lut + k && !(at.checkSame <= at.lut + k < at.checkSame + 256)
  {
    WrapSmall(at.lut + k);
    hide Wrap;
  }

  lemma PositionInside(t: Table, j: nat, i: nat, b: nat)
    requires j < Rows(t) && i < 256 && b < EntrySize(t)
    ensures Position(t, j, i, b) < LUT_SIZE
  {
  }

  // ----- seq -----

  lemma MarkPlaces(at: Layout, l: Local, i: Byte)
    requires Ready(at, l)
    ensures var a := Wrap(at.checkSame + i); a == at.checkSame + i && Misses(LR(l, SP), a, 1)
  {
    hide TablesAt, SmallTablesAt;
  }

  lemma Check8SameSteps(rd: nat, k: nat, l: Local)
    requires k < 4 && rd in {GP, S1}
    requires var x := Wrap(LR(l, S0) + AreaByte(l, VAR_A + k)); Misses(LR(l, SP), x, 1)
    requires var y := Wrap(LR(l, S0) + AreaByte(l, VAR_B + k)); Misses(LR(l, SP), y, 1)
    ensures var t := LExec(Check8Same(S0, rd, k), l);
            var x := Wrap(LR(l, S0) + AreaByte(l, VAR_A + k));
            var y := Wrap(LR(l, S0) + AreaByte(l, VAR_B + k));
            && t.ok == l.ok && t.mem == l.mem[x := 1][y := 0]
            && (forall r: nat :: r !in {rd, TP} ==> LR(t, r) == LR(l, r))
            && (forall j: int :: AreaByte(t, j) == AreaByte(l, j))
            && LR(t, rd) == MemByte(t.mem, x)
  {
    hide LExec, LR, AreaByte, MemByte, Misses, Wrap, MarkFirst, MarkSecond;
    LExecAppend(MarkFirst(S0, rd, k), MarkSecond(S0, rd, k), l);
    MarkFirstSteps(rd, k, l);
    MarkSecondSteps(rd, k, LExec(MarkFirst(S0, rd, k), l));
  }

  /** Registers and scratch bytes other than the ones named are as before. */
  ghost predicate Quiet(l: Local, t: Local, regs: set<nat>) {
    && t.ok == l.ok
    && (forall r: nat :: r !in regs ==> LR(t, r) == LR(l, r))
    && (forall j: int :: AreaByte(t, j) == AreaByte(l, j))
  }

  lemma MarkFirstSteps(rd: nat, k: nat, l: Local)
    requires k < 4 && rd in {GP, S1}
    requires var x := Wrap(LR(l, S0) + AreaByte(l, VAR_A + k)); Misses(LR(l, SP), x, 1)
    ensures var t := LExec(MarkFirst(S0, rd, k), l);
            var x := Wrap(LR(l, S0) + AreaByte(l, VAR_A + k));
            Quiet(l, t, {rd, TP}) && t.mem == l.mem[x := 1] && LR(t, TP) == x
  {
    hide LExec, LR, AreaByte, LSet, Touch, SetMem, ByteOf, MemByte, Misses, Wrap;
    Rules();
    LExec4(Lbu(rd, SP, VAR_A + k), Add(TP, S0, rd), Addi(rd, X0, 1), Sb(rd, TP, 0), l);
    WrapSmall(Wrap(LR(l, S0) + AreaByte(l, VAR_A + k)));
    ZeroRegister(LStep(Add(TP, S0, rd), LStep(Lbu(rd, SP, VAR_A + k), l)));
    OneAndZero();
  }

  lemma MarkSecondSteps(rd: nat, k: nat, l: Local)
    requires k < 4 && rd in {GP, S1} && Misses(LR(l, SP), LR(l, TP), 1)
    requires var y := Wrap(LR(l, S0) + AreaByte(l, VAR_B + k)); Misses(LR(l, SP), y, 1)
    ensures var t := LExec(MarkSecond(S0, rd, k), l);
            var y := Wrap(LR(l, S0) + AreaByte(l, VAR_B + k));
            Quiet(l, t, {rd}) && t.mem == l.mem[y := 0] && LR(t, rd) == MemByte(t.mem, LR(l, TP))
  {
    hide LExec, LR, AreaByte, LSet, Touch, SetMem, ByteOf, MemByte, Misses, Wrap;
    Rules();
    LExec4(Lbu(rd, SP, VAR_B + k), Add(rd, S0, rd), Sb(X0, rd, 0), Lbu(rd, TP, 0), l);
    WrapSmall(Wrap(LR(l, S0) + AreaByte(l, VAR_B + k)));
    WrapSmall(LR(l, TP));
    ZeroRegister(LStep(Add(rd, S0, rd), LStep(Lbu(rd, SP, VAR_B + k), l)));
    OneAndZero();
  }

  lemma ZeroRegister(l: Local)
    ensures LR(l, X0) == 0
  {
  }

  lemma OneAndZero()
    ensures Wrap(0 + 1) == 1 && ByteOf(1, 0) == 1 && ByteOf(0, 0) == 0
  {
  }

  lemma Check8SameRuns(at: Layout, rd: nat, k: nat, l: Local)
    requires Ready(at, l) && k < 4 && rd in {GP, S1} && LR(l, S0) == at.checkSame
    ensures var t := LExec(Check8Same(S0, rd, k), l);
            SameBut(at, l, t, {rd, TP}, {}) && LR(t, rd) == BoolWord(AreaByte(l, VAR_A + k) != AreaByte(l, VAR_B + k))
  {
    hide LExec, LR, AreaByte, Ready, Check8Same, Misses, Wrap;
    MarkPlaces(at, l, AreaByte(l, VAR_A + k));
    MarkPlaces(at, l, AreaByte(l, VAR_B + k));
    Check8SameSteps(rd, k, l);
  }

  lemma CheckAddRuns(at: Layout, k: nat, l: Local)
    requires Ready(at, l) && k < 4 && LR(l, S0) == at.checkSame && LR(l, GP) <= 3
    ensures var t := LExec(CheckAdd(k), l);
            SameBut(at, l, t, {GP, S1, TP}, {})
            && LR(t, GP) == LR(l, GP) + BoolWord(AreaByte(l, VAR_A + k) != AreaByte(l, VAR_B + k))
  {
    hide LExec, LR, AreaByte, Ready, Check8Same, MemByte, Wrap;
    LExecAppend(Check8Same(S0, S1, k), [Add(GP, GP, S1)], l);
    var t1 := LExec(Check8Same(S0, S1, k), l);
    Check8SameRuns(at, S1, k, l);
    AddPairRuns(GP, GP, S1, t1);
    WrapSmall(LR(l, GP) + LR(t1, S1));
  }

  /** How many of the four byte pairs differ. */
  function Differing(a: Word, b: Word): nat {
    BoolWord(ByteOf(a, 0) != ByteOf(b, 0)) + BoolWord(ByteOf(a, 1) != ByteOf(b, 1))
    + BoolWord(ByteOf(a, 2) != ByteOf(b, 2)) + BoolWord(ByteOf(a, 3) != ByteOf(b, 3))
  }

  lemma DifferingMeaning(a: Word, b: Word)
    ensures Differing(a, b) <= 4 && (Differing(a, b) == 0 <==> a == b)
  {
    hide ByteOf;
    WordOfBytesOf(a);
    WordOfBytesOf(b);
  }

  lemma AreaKept(at: Layout, l: Local, t: Local, regs: set<nat>)
    requires SameBut(at, l, t, regs, {})
    ensures AreaWord(t, VAR_A) == AreaWord(l, VAR_A) && AreaWord(t, VAR_B) == AreaWord(l, VAR_B)
  {
    hide LR, AreaByte, MemByte, WordOf;
  }

  lemma CheckBytesRuns(at: Layout, l: Local)
    requires Ready(at, l)
    ensures var t := LExec(CheckBytes(at), l);
            SameBut(at, l, t, {GP, TP, S0, S1}, {})
            && LR(t, GP) == Differing(AreaWord(l, VAR_A), AreaWord(l, VAR_B))
  {
    hide LExec, LR, AreaByte, AreaWord, Ready, Check8Same, CheckAdd, La, SameBut, Same, ByteOf;
    var rs := {GP, TP, S0, S1};
    Join5(La(S0, at.checkSame), Check8Same(S0, GP, 0), CheckAdd(1), CheckAdd(2), CheckAdd(3), l);
    AreaWordBytes(l, VAR_A);
    AreaWordBytes(l, VAR_B);
    var t1 := LExec(La(S0, at.checkSame), l);
    LaRuns(S0, at.checkSame, l);
    SameIsSameBut(at, l, t1, {S0}, {}, rs, {});
    ReadyBut(at, l, t1, rs, {});
    AreaKept(at, l, t1, rs);
    AreaWordBytes(t1, VAR_A);
    AreaWordBytes(t1, VAR_B);
    var t2 := LExec(Check8Same(S0, GP, 0), t1);
    Check8SameRuns(at, GP, 0, t1);
    ButReg(at, t1, t2, {GP, TP}, {}, S0);
    ButWider(at, t1, t2, {GP, TP}, {}, rs, {});
    ButChain(at, l, t1, t2, rs, {});
    var t3 := LExec(CheckAdd(1), t2);
    CheckNext(at, 1, l, t2);
    var t4 := LExec(CheckAdd(2), t3);
    CheckNext(at, 2, l, t3);
    CheckNext(at, 3, l, t4);
  }

  /** One more byte pair compared and counted. */
  lemma CheckNext(at: Layout, k: nat, l: Local, t: Local)
    requires Ready(at, l) && 1 <= k < 4 && SameBut(at, l, t, {GP, TP, S0, S1}, {})
    requires LR(t, S0) == at.checkSame && LR(t, GP) <= 3
    ensures var u := LExec(CheckAdd(k), t);
            SameBut(at, l, u, {GP, TP, S0, S1}, {}) && LR(u, S0) == at.checkSame
            && LR(u, GP) == LR(t, GP) + BoolWord(ByteOf(AreaWord(l, VAR_A), k) != ByteOf(AreaWord(l, VAR_B), k))
  {
    hide LExec, LR, AreaByte, AreaWord, Ready, CheckAdd, SameBut, ByteOf;
    var rs := {GP, TP, S0, S1};
    ReadyBut(at, l, t, rs, {});
    AreaKept(at, l, t, rs);
    AreaWordBytes(t, VAR_A);
    AreaWordBytes(t, VAR_B);
    var u := LExec(CheckAdd(k), t);
    CheckAddRuns(at, k, t);
    ButReg(at, t, u, {GP, S1, TP}, {}, S0);
    ButWider(at, t, u, {GP, S1, TP}, {}, rs, {});
    ButChain(at, l, t, u, rs, {});
  }

  lemma SeqEnterRuns(rs1: nat, rs2: nat, l: Local)
    ensures var t := LExec(SeqEnter(rs1, rs2), l);
            Same(l, t, {}, Cells(VAR_A) + Cells(VAR_B) + Cells(SAVE_1) + Cells(SAVE_2))
            && AreaWord(t, VAR_A) == LR(l, rs1) && AreaWord(t, VAR_B) == LR(l, rs2)
            && AreaWord(t, SAVE_1) == LR(l, S0) && AreaWord(t, SAVE_2) == LR(l, S1)
  {
    hide LExec, LR, AreaWord, StoreOperands, SaveBoth, Same;
    LExecAppend(StoreOperands(rs1, rs2), SaveBoth(), l);
    var cs := Cells(VAR_A) + Cells(VAR_B) + Cells(SAVE_1) + Cells(SAVE_2);
    var t1 := LExec(StoreOperands(rs1, rs2), l);
    StoreOperandsRuns(rs1, rs2, l);
    SameReg(l, t1, {}, Cells(VAR_A) + Cells(VAR_B), S0);
    SameReg(l, t1, {}, Cells(VAR_A) + Cells(VAR_B), S1);
    SameWider(l, t1, {}, Cells(VAR_A) + Cells(VAR_B), {}, cs);
    var t2 := LExec(SaveBoth(), t1);
    SaveBothRuns(t1);
    SameWord(t1, t2, {}, Cells(SAVE_1) + Cells(SAVE_2), VAR_A);
    SameWord(t1, t2, {}, Cells(SAVE_1) + Cells(SAVE_2), VAR_B);
    SameWider(t1, t2, {}, Cells(SAVE_1) + Cells(SAVE_2), {}, cs);
    SameChain(l, t1, t2, {}, cs);
  }

  lemma SaveBothRuns(l: Local)
    ensures var t := LExec(SaveBoth(), l);
            Same(l, t, {}, Cells(SAVE_1) + Cells(SAVE_2))
            && AreaWord(t, SAVE_1) == LR(l, S0) && AreaWord(t, SAVE_2) == LR(l, S1)
  {
    hide LR, AreaWord, LExec, Same;
    StoreTwo(S0, SAVE_1, S1, SAVE_2, l);
  }

  lemma SeqLeaveRuns(l: Local)
    requires var a := Wrap(LR(l, TP) + LR(l, GP)); Misses(LR(l, SP), a, 1)
    ensures var t := LExec(SeqLeave(TP), l);
            Same(l, t, {TP, S0, S1}, {})
            && LR(t, S0) == AreaWord(l, SAVE_1) && LR(t, S1) == AreaWord(l, SAVE_2)
            && LR(t, TP) == MemByte(l.mem, Wrap(LR(l, TP) + LR(l, GP)))
  {
    hide LExec, LR, AreaByte, LSet, Touch, Wrap, WordOf, MemByte, Misses;
    Rules();
    LExec4(Add(TP, TP, GP), Lbu(TP, TP, 0), Lw(S1, SP, SAVE_2), Lw(S0, SP, SAVE_1), l);
    WrapSmall(Wrap(LR(l, TP) + LR(l, GP)));
  }

  /** The result table turns a count of differences into a truth value. */
  lemma SameResult(at: Layout, l: Local, k: nat)
    requires Ready(at, l) && k < 5
    ensures var a := Wrap(at.sameResult + k);
            MemByte(l.mem, a) == BoolWord(k == 0) && Misses(LR(l, SP), a, 1)
  {
    hide TablesAt, MemByte;
    FetchSymbol(at, l, at.sameResult, k);
  }

  lemma SeqRuns(at: Layout, rs1: nat, rs2: nat, l: Local)
    requires Ready(at, l)
    ensures var t := LExec(Seq(at, TP, rs1, rs2), l);
            SameBut(at, l, t, {TP, GP}, AllCells()) && LR(t, TP) == BoolWord(LR(l, rs1) == LR(l, rs2))
  {
    hide LExec, LR, AreaWord, Ready, Same, SameBut, SeqEnter, CheckBytes, La, SeqLeave, AllCells, Cells, Wrap, MemByte, Misses;
    Join4(SeqEnter(rs1, rs2), CheckBytes(at), La(TP, at.sameResult), SeqLeave(TP), l);
    var t1 := LExec(SeqEnter(rs1, rs2), l);
    SeqEnterRuns(rs1, rs2, l);
    ReadyFrame(at, l, t1, {}, Cells(VAR_A) + Cells(VAR_B) + Cells(SAVE_1) + Cells(SAVE_2));
    var t2 := LExec(CheckBytes(at), t1);
    CheckBytesRuns(at, t1);
    DifferingMeaning(LR(l, rs1), LR(l, rs2));
    ReadyBut(at, t1, t2, {GP, TP, S0, S1}, {});
    var t3 := LExec(La(TP, at.sameResult), t2);
    LaRuns(TP, at.sameResult, t2);
    SameReg(t2, t3, {TP}, {}, GP);
    ReadyFrame(at, t2, t3, {TP}, {});
    SameResult(at, t3, LR(t3, GP));
    SeqLeaveRuns(t3);
    SeqRestores(at, l, t1, t2, t3, LExec(SeqLeave(TP), t3));
  }

  lemma SeqRestores(at: Layout, l: Local, t1: Local, t2: Local, t3: Local, t4: Local)
    requires Same(l, t1, {}, Cells(VAR_A) + Cells(VAR_B) + Cells(SAVE_1) + Cells(SAVE_2))
    requires AreaWord(t1, SAVE_1) == LR(l, S0) && AreaWord(t1, SAVE_2) == LR(l, S1)
    requires SameBut(at, t1, t2, {GP, TP, S0, S1}, {}) && Same(t2, t3, {TP}, {}) && Same(t3, t4, {TP, S0, S1}, {})
    requires LR(t4, S0) == AreaWord(t3, SAVE_1) && LR(t4, S1) == AreaWord(t3, SAVE_2)
    ensures SameBut(at, l, t4, {TP, GP}, AllCells())
  {
    hide LR, AreaByte, WordOf, MemByte;
  }

  // ----- seqz -----

  lemma ZeroMark(at: Layout, l: Local, i: Byte)
    requires Ready(at, l)
    ensures var a := Wrap(at.zero8 + i);
            MemByte(l.mem, a) == BoolWord(i != 0) && Misses(LR(l, SP), a, 1)
  {
    hide TablesAt, MemByte;
    FetchSymbol(at, l, at.zero8, i);
  }

  lemma Check8ZeroRuns(at: Layout, rd: nat, k: nat, l: Local)
    requires Ready(at, l) && k < 4 && rd in {GP, TP} && LR(l, S0) == at.zero8
    ensures var t := LExec(Check8Zero(S0, rd, k), l);
            Same(l, t, {rd}, {}) && LR(t, rd) == BoolWord(AreaByte(l, VAR_A + k) != 0)
  {
    hide LExec, LR, AreaByte, LSet, Touch, MemByte, Misses, Wrap, Ready;
    Rules();
    LExec3(Lbu(rd, SP, VAR_A + k), Add(rd, S0, rd), Lbu(rd, rd, 0), l);
    ZeroMark(at, l, AreaByte(l, VAR_A + k));
    WrapSmall(Wrap(LR(l, S0) + AreaByte(l, VAR_A + k)));
  }

  lemma ZeroAddRuns(at: Layout, k: nat, l: Local)
    requires Ready(at, l) && k < 4 && LR(l, S0) == at.zero8 && LR(l, GP) <= 3
    ensures var t := LExec(ZeroAdd(k), l);
            Same(l, t, {GP, TP}, {}) && LR(t, GP) == LR(l, GP) + BoolWord(AreaByte(l, VAR_A + k) != 0)
  {
    hide LExec, LR, AreaByte, Ready, Check8Zero, Wrap;
    LExecAppend(Check8Zero(S0, TP, k), [Add(GP, GP, TP)], l);
    var t1 := LExec(Check8Zero(S0, TP, k), l);
    Check8ZeroRuns(at, TP, k, l);
    AddPairRuns(GP, GP, TP, t1);
    WrapSmall(LR(l, GP) + LR(t1, TP));
  }

  lemma ZeroNext(at: Layout, k: nat, l: Local, t: Local)
    requires Ready(at, l) && 1 <= k < 4 && Same(l, t, {GP, TP, S0}, {})
    requires LR(t, S0) == at.zero8 && LR(t, GP) <= 3
    ensures var u := LExec(ZeroAdd(k), t);
            Same(l, u, {GP, TP, S0}, {}) && LR(u, S0) == at.zero8
            && LR(u, GP) == LR(t, GP) + BoolWord(ByteOf(AreaWord(l, VAR_A), k) != 0)
  {
    hide LExec, LR, AreaByte, AreaWord, Ready, ZeroAdd, Same, ByteOf;
    var rs := {GP, TP, S0};
    ReadyFrame(at, l, t, rs, {});
    SameWord(l, t, rs, {}, VAR_A);
    AreaWordBytes(t, VAR_A);
    var u := LExec(ZeroAdd(k), t);
    ZeroAddRuns(at, k, t);
    SameReg(t, u, {GP, TP}, {}, S0);
    SameWider(t, u, {GP, TP}, {}, rs, {});
    SameChain(l, t, u, rs, {});
  }

  lemma ZeroBytesRuns(at: Layout, l: Local)
    requires Ready(at, l)
    ensures var t := LExec(ZeroBytes(at), l);
            Same(l, t, {GP, TP, S0}, {}) && LR(t, GP) == Differing(AreaWord(l, VAR_A), 0)
  {
    hide LExec, LR, AreaByte, AreaWord, Ready, Check8Zero, ZeroAdd, La, Same, ByteOf;
    var rs := {GP, TP, S0};
    Join5(La(S0, at.zero8), Check8Zero(S0, GP, 0), ZeroAdd(1), ZeroAdd(2), ZeroAdd(3), l);
    ZeroWordBytes();
    var t1 := LExec(La(S0, at.zero8), l);
    LaRuns(S0, at.zero8, l);
    ReadyFrame(at, l, t1, {S0}, {});
    SameWord(l, t1, {S0}, {}, VAR_A);
    AreaWordBytes(t1, VAR_A);
    SameWider(l, t1, {S0}, {}, rs, {});
    var t2 := LExec(Check8Zero(S0, GP, 0), t1);
    Check8ZeroRuns(at, GP, 0, t1);
    SameReg(t1, t2, {GP}, {}, S0);
    SameWider(t1, t2, {GP}, {}, rs, {});
    SameChain(l, t1, t2, rs, {});
    var t3 := LExec(ZeroAdd(1), t2);
    ZeroNext(at, 1, l, t2);
    var t4 := LExec(ZeroAdd(2), t3);
    ZeroNext(at, 2, l, t3);
    ZeroNext(at, 3, l, t4);
  }

  lemma ZeroWordBytes()
    ensures ByteOf(0, 0) == 0 && ByteOf(0, 1) == 0 && ByteOf(0, 2) == 0 && ByteOf(0, 3) == 0
  {
  }

  lemma SeqzLeaveRuns(rd: nat, l: Local)
    requires rd != SP
    requires var a := Wrap(LR(l, TP) + LR(l, GP)); Misses(LR(l, SP), a, 1)
    ensures var t := LExec(SeqzLeave(rd), l);
            Same(l, t, {rd, TP, S0}, {}) && LR(t, S0) == AreaWord(l, SAVE_1)
            && (rd != X0 && rd != S0 ==> LR(t, rd) == MemByte(l.mem, Wrap(LR(l, TP) + LR(l, GP))))
  {
    hide LExec, LR, AreaWord, Same, Wrap, MemByte, Misses;
    var rs := {rd, TP, S0};
    assert SeqzLeave(rd) == [Add(TP, TP, GP)] + [Lbu(rd, TP, 0)] + [Lw(S0, SP, SAVE_1)];
    Join3([Add(TP, TP, GP)], [Lbu(rd, TP, 0)], [Lw(S0, SP, SAVE_1)], l);
    SaveSlots();
    var t1 := LExec([Add(TP, TP, GP)], l);
    AddPairRuns(TP, TP, GP, l);
    SameWord(l, t1, {TP}, {}, SAVE_1);
    SameReg(l, t1, {TP}, {}, SP);
    SameMemory(l, t1, {TP}, {});
    var t2 := LExec([Lbu(rd, TP, 0)], t1);
    LoadAtTp(rd, t1);
    SameWord(t1, t2, {rd}, {}, SAVE_1);
    var t3 := LExec([Lw(S0, SP, SAVE_1)], t2);
    LoadOne(S0, SAVE_1, t2);
    if rd != S0 { SameReg(t2, t3, {S0}, {}, rd); }
    SameWider(l, t1, {TP}, {}, rs, {});
    SameWider(t1, t2, {rd}, {}, rs, {});
    SameWider(t2, t3, {S0}, {}, rs, {});
    SameChain(l, t1, t2, rs, {});
    SameChain(l, t2, t3, rs, {});
  }

  /**
   `seqz` computes the truth value, unless its target is `s0`: the macro restores `s0` after loading
   the result, so the result is lost and `s0` keeps its old value.
   */
  lemma SeqzRuns(at: Layout, rd: nat, rs1: nat, l: Local)
    requires Ready(at, l) && rd != SP
    ensures var t := LExec(Seqz(at, rd, rs1), l);
            Same(l, t, {rd, TP, GP}, Cells(VAR_A) + Cells(SAVE_1))
            && (rd != X0 && rd != S0 ==> LR(t, rd) == BoolWord(LR(l, rs1) == 0))
            && LR(t, S0) == LR(l, S0)
  {
    hide LExec, LR, AreaWord, Ready, Same, SeqzEnter, ZeroBytes, La, SeqzLeave, Cells, Wrap, MemByte, Misses;
    Join4(SeqzEnter(rs1), ZeroBytes(at), La(TP, at.sameResult), SeqzLeave(rd), l);
    var t1 := LExec(SeqzEnter(rs1), l);
    SeqzEnterRuns(rs1, l);
    ReadyFrame(at, l, t1, {}, Cells(VAR_A) + Cells(SAVE_1));
    var t2 := LExec(ZeroBytes(at), t1);
    ZeroBytesRuns(at, t1);
    DifferingMeaning(LR(l, rs1), 0);
    ReadyFrame(at, t1, t2, {GP, TP, S0}, {});
    var t3 := LExec(La(TP, at.sameResult), t2);
    LaRuns(TP, at.sameResult, t2);
    SameReg(t2, t3, {TP}, {}, GP);
    ReadyFrame(at, t2, t3, {TP}, {});
    SameResult(at, t3, LR(t3, GP));
    SeqzLeaveRuns(rd, t3);
    SeqzRestores(rd, l, t1, t2, t3, LExec(SeqzLeave(rd), t3));
  }

  lemma SeqzEnterRuns(rs1: nat, l: Local)
    ensures var t := LExec(SeqzEnter(rs1), l);
            Same(l, t, {}, Cells(VAR_A) + Cells(SAVE_1))
            && AreaWord(t, VAR_A) == LR(l, rs1) && AreaWord(t, SAVE_1) == LR(l, S0)
  {
    hide LR, AreaWord, LExec, Same;
    StoreTwo(rs1, VAR_A, S0, SAVE_1, l);
  }

  lemma SeqzRestores(rd: nat, l: Local, t1: Local, t2: Local, t3: Local, t4: Local)
    requires Same(l, t1, {}, Cells(VAR_A) + Cells(SAVE_1)) && AreaWord(t1, SAVE_1) == LR(l, S0)
    requires Same(t1, t2, {GP, TP, S0}, {}) && Same(t2, t3, {TP}, {}) && Same(t3, t4, {rd, TP, S0}, {})
    requires LR(t4, S0) == AreaWord(t3, SAVE_1)
    ensures Same(l, t4, {rd, TP, GP}, Cells(VAR_A) + Cells(SAVE_1)) && LR(t4, S0) == LR(l, S0)
  {
    hide LR, AreaByte, WordOf;
  }
}
