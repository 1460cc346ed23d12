/**
 Conditional branches: the test leaves a truth value in `tp`, and `branch_resolve` turns it into an
 address by indexing two scratch slots (abstract-machine/tools/rvmini/inst-replace.h, lines 273-379).
 */
module RvBranch {
  import opened RvMachine
  import opened RvScratch
  import opened RvLut
  import opened RvMacros
  import opened RvBasicMacros
  import opened RvCompare
  import opened RvLogic
  import opened RvEqual
  import opened RvMemory
  import opened RvRefine
  import opened RvKeepsSp
  import opened RvSpec
  import opened RvLift
  import opened RvInstr

  /** After the test, `tp` says whether the first alternative (taken, or not) holds. */
  lemma TestRuns(at: Layout, c: Cond, rs1: nat, rs2: nat, l: Local)
    requires Ready(at, l) && !Reserved(rs1) && !Reserved(rs2)
    ensures var test := BranchTest(at, c, rs1, rs2);
            var t := LExec(test.0, l);
            SameBut(at, l, t, {TP, GP}, AllCells())
            && LR(t, TP) == BoolWord(test.1 == Taken(c, LR(l, rs1), LR(l, rs2)))
  {
    hide LR, LExec, Seq, Seqz, Msb, NotPositive, SltTemplate, Same, SameBut, AllCells, Ready, MemByte, Wrap, SignsOf;
    XZero(l);
    match c {
      case Eq => EqualTest(at, rs1, rs2, l);
      case Ne => EqualTest(at, rs1, rs2, l);
      case Lt =>
        if rs2 == X0 {
          MsbTest(at, rs1, l);
        } else if rs1 == X0 {
          NotPositiveTest(at, rs2, l);
        } else {
          SltTest(at, at.slt1, rs1, rs2, l);
        }
      case Ge =>
        if rs1 == X0 {
          NotPositiveTest(at, rs2, l);
        } else {
          SltTest(at, at.slt1, rs1, rs2, l);
        }
      case Ltu => SltTest(at, at.sltu1, rs1, rs2, l);
      case Geu => SltTest(at, at.sltu1, rs1, rs2, l);
    }
  }

  lemma EqualTest(at: Layout, rs1: nat, rs2: nat, l: Local)
    requires Ready(at, l)
    ensures var code := BranchTest(at, Eq, rs1, rs2).0;
            var t := LExec(code, l);
            SameBut(at, l, t, {TP, GP}, AllCells()) && LR(t, TP) == BoolWord(LR(l, rs1) == LR(l, rs2))
  {
    hide LR, LExec, Seq, Seqz, Same, SameBut, AllCells, Cells, Ready;
    XZero(l);
    ManyCells();
    if rs2 == X0 {
      SeqzRuns(at, TP, rs1, l);
      SameIsSameBut(at, l, LExec(Seqz(at, TP, rs1), l), {TP, TP, GP}, Cells(VAR_A) + Cells(SAVE_1), {TP, GP}, AllCells());
    } else if rs1 == X0 {
      SeqzRuns(at, TP, rs2, l);
      SameIsSameBut(at, l, LExec(Seqz(at, TP, rs2), l), {TP, TP, GP}, Cells(VAR_A) + Cells(SAVE_1), {TP, GP}, AllCells());
    } else {
      SeqRuns(at, rs1, rs2, l);
    }
  }

  lemma MsbTest(at: Layout, rs1: nat, l: Local)
    ensures var t := LExec(Msb(TP, rs1), l);
            SameBut(at, l, t, {TP, GP}, AllCells()) && LR(t, TP) == BoolWord(SignedWord(LR(l, rs1)) < 0)
  {
    hide LR, LExec, Msb, Same, SameBut, AllCells, Cells;
    MsbRuns(TP, rs1, l);
    ManyCells();
    SignIsBit(LR(l, rs1));
    SameIsSameBut(at, l, LExec(Msb(TP, rs1), l), {TP}, Cells(VAR_C), {TP, GP}, AllCells());
  }

  lemma NotPositiveTest(at: Layout, rs2: nat, l: Local)
    requires Ready(at, l) && !Reserved(rs2)
    ensures var t := LExec(NotPositive(at, rs2), l);
            SameBut(at, l, t, {TP, GP}, AllCells()) && LR(t, TP) == BoolWord(SignedWord(LR(l, rs2)) <= 0)
  {
    hide LR, LExec, NotPositive, Same, SameBut, AllCells, Cells, Ready;
    NotPositiveRuns(at, rs2, l);
    ManyCells();
    SameIsSameBut(at, l, LExec(NotPositive(at, rs2), l), {TP, GP}, Cells(VAR_C), {TP, GP}, AllCells());
  }

  lemma SltTest(at: Layout, table: Word, rs1: nat, rs2: nat, l: Local)
    requires Ready(at, l) && table in {at.slt1, at.sltu1}
    ensures var t := LExec(SltTemplate(at, table, TP, rs1, rs2), l);
            SameBut(at, l, t, {TP, GP}, AllCells())
            && (table == at.slt1 ==> LR(t, TP) == BoolWord(SignedWord(LR(l, rs1)) < SignedWord(LR(l, rs2))))
            && (table == at.sltu1 ==> LR(t, TP) == BoolWord(LR(l, rs1) < LR(l, rs2)))
  {
    hide LR, LExec, SltTemplate, Same, SameBut, AllCells, Cells, Ready, MemByte, Wrap, SignsOf;
    SltTemplateRuns(at, table, TP, rs1, rs2, l);
    SltValue(at, l, LR(l, rs1), LR(l, rs2));
    SameIsSameBut(at, l, LExec(SltTemplate(at, table, TP, rs1, rs2), l), {TP, TP, GP}, AllCells(), {TP, GP}, AllCells());
  }

  lemma TestKeepsSp(at: Layout, c: Cond, rs1: nat, rs2: nat)
    ensures KeepsSp(BranchTest(at, c, rs1, rs2).0)
  {
    hide KeepsSp, Seq, Seqz, Msb, NotPositive, SltTemplate;
    SeqKeeps(at, TP, rs1, rs2);
    SeqzKeeps(at, TP, rs1);
    SeqzKeeps(at, TP, rs2);
    MsbKeeps(TP, rs1);
    NotPositiveKeeps(at, rs2);
    SltKeeps(at, at.slt1, TP, rs1, rs2);
    SltKeeps(at, at.sltu1, TP, rs1, rs2);
  }

  // ----- choosing the address -----

  lemma AddressToSlot(target: Word, slot: int, l: Local)
    requires slot in {VAR_A, VAR_B}
    ensures var t := LExec(La(GP, target) + [Sw(GP, SP, slot)], l);
            Same(l, t, {GP}, Cells(slot)) && AreaWord(t, slot) == target
  {
    hide LR, LExec, La, Same, AreaWord;
    LExecAppend(La(GP, target), [Sw(GP, SP, slot)], l);
    var t1 := LExec(La(GP, target), l);
    LaRuns(GP, target, l);
    var t2 := LExec([Sw(GP, SP, slot)], t1);
    StoreOne(GP, slot, t1);
    SameWider(l, t1, {GP}, {}, {GP}, Cells(slot));
    SameWider(t1, t2, {}, Cells(slot), {GP}, Cells(slot));
    SameChain(l, t1, t2, {GP}, Cells(slot));
  }

  lemma BranchSelectRuns(higher: Word, lower: Word, l: Local)
    requires LR(l, TP) <= 1
    ensures var t := LExec(BranchSelect(higher, lower), l);
            Same(l, t, {TP, GP}, Cells(VAR_A) + Cells(VAR_B))
            && LR(t, TP) == Wrap(LR(l, SP) + 4 * LR(l, TP))
            && AreaWord(t, VAR_A) == higher && AreaWord(t, VAR_B) == lower
  {
    hide LR, LExec, La, Same, AreaWord, Slli, Wrap;
    var rs, cs := {TP, GP}, Cells(VAR_A) + Cells(VAR_B);
    var c3, c4 := La(GP, higher) + [Sw(GP, SP, VAR_A)], La(GP, lower) + [Sw(GP, SP, VAR_B)];
    Join4(Slli(TP, TP, 2), [Add(TP, SP, TP)], c3, c4, l);
    var t1 := LExec(Slli(TP, TP, 2), l);
    SlliShortRuns(TP, TP, 2, l);
    SmallShifts(LR(l, TP));
    SameReg(l, t1, {TP}, {}, SP);
    var t2 := LExec([Add(TP, SP, TP)], t1);
    AddPairRuns(TP, SP, TP, t1);
    var t3 := LExec(c3, t2);
    AddressToSlot(higher, VAR_A, t2);
    SameReg(t2, t3, {GP}, Cells(VAR_A), TP);
    var t4 := LExec(c4, t3);
    AddressToSlot(lower, VAR_B, t3);
    SameReg(t3, t4, {GP}, Cells(VAR_B), TP);
    SameWord(t3, t4, {GP}, Cells(VAR_B), VAR_A);
    SameWider(l, t1, {TP}, {}, rs, cs);
    SameWider(t1, t2, {TP}, {}, rs, cs);
    SameWider(t2, t3, {GP}, Cells(VAR_A), rs, cs);
    SameWider(t3, t4, {GP}, Cells(VAR_B), rs, cs);
    SameChain(l, t1, t2, rs, cs);
    SameChain(l, t2, t3, rs, cs);
    SameChain(l, t3, t4, rs, cs);
  }

  /** The load of `branch_resolve` fetches the chosen address from its slot. */
  lemma ChosenAddress(sp: Word, s: State, l: Local, k: nat)
    requires Refines(sp, s, l) && k <= 1 && R(s, TP) == Wrap(sp + 4 * k)
    ensures MemWord(s.mem, Ea(s, TP, VAR_B)) == AreaWord(l, if k == 1 then VAR_A else VAR_B)
  {
    hide WordOf, AreaByte, MemByte, R;
    var off := if k == 1 then VAR_A else VAR_B;
    SlotAddress(sp, k);
    hide Wrap;
    WordAddresses(sp, off, 1);
    WordAddresses(sp, off, 2);
    WordAddresses(sp, off, 3);
  }

  lemma SlotAddress(sp: Word, k: nat)
    requires k <= 1
    ensures Wrap(Wrap(sp + 4 * k) + VAR_B) == Wrap(sp + (if k == 1 then VAR_A else VAR_B))
  {
  }

  /** The straight-line part of a branch: `tp` ends up holding the address to jump to. */
  lemma BranchCorrect(at: Layout, c: Cond, rs1: nat, rs2: nat, next: Word, target: Word, s: State)
    requires Placement(at, s) && !Reserved(rs1) && !Reserved(rs2)
    ensures var test := BranchTest(at, c, rs1, rs2);
            var select := if test.1 then BranchSelect(target, next) else BranchSelect(next, target);
            var t := Exec(test.0 + select + [Lw(TP, TP, VAR_B)], s);
            Close(at, R(s, SP), s, t)
            && R(t, TP) == if Taken(c, R(s, rs1), R(s, rs2)) then target else next
  {
    hide LR, LExec, Exec, BranchTest, BranchSelect, SameBut, Same, AllCells, Cells, KeepsSp, AreaWord, Close, Refines, Taken, Split, Ready,
         Clear, TablesAt, SmallTablesAt, Wrap, MemWord, R;
    var sp, l := R(s, SP), Split(s);
    var test := BranchTest(at, c, rs1, rs2);
    var select := if test.1 then BranchSelect(target, next) else BranchSelect(next, target);
    SplitReady(at, s);
    TestRuns(at, c, rs1, rs2, l);
    var l1 := LExec(test.0, l);
    ButReg(at, l, l1, {TP, GP}, AllCells(), SP);
    BranchSelectRuns(target, next, l1);
    BranchSelectRuns(next, target, l1);
    var l2 := LExec(select, l1);
    LExecAppend(test.0, select, l);
    ManyCells();
    TwoCells();
    SameIsSameBut(at, l1, l2, {TP, GP}, Cells(VAR_A) + Cells(VAR_B), {TP, GP}, AllCells());
    ButChain(at, l, l1, l2, {TP, GP}, AllCells());
    TestKeepsSp(at, c, rs1, rs2);
    BranchSelectKeeps(target, next);
    BranchSelectKeeps(next, target);
    KeepsSpAppend(test.0, select);
    SplitOk(at, s, l2);
    ExecRefines(test.0 + select, sp, s, l);
    var t2 := Exec(test.0 + select, s);
    ExecAppend(test.0 + select, [Lw(TP, TP, VAR_B)], s);
    Exec1(Lw(TP, TP, VAR_B), t2);
    SameRegisters(sp, t2, l2, TP);
    ChosenAddress(sp, t2, l2, LR(l1, TP));
    BranchClose(at, s, l2, t2, MemWord(t2.mem, Ea(t2, TP, VAR_B)));
  }

  lemma TwoCells()
    ensures Cells(VAR_A) + Cells(VAR_B) <= AllCells()
  {
  }

  lemma SplitOk(at: Layout, s: State, t: Local)
    requires SameBut(at, Split(s), t, {TP, GP}, AllCells())
    ensures t.ok
  {
  }

  lemma BranchClose(at: Layout, s: State, lt: Local, t: State, v: Word)
    requires R(s, SP) >= AREA && Refines(R(s, SP), t, lt) && SameBut(at, Split(s), lt, {TP, GP}, AllCells())
    ensures Close(at, R(s, SP), s, SetR(t, TP, v)) && R(SetR(t, TP, v), TP) == v
  {
    hide AllCells, AreaByte, MemByte;
    var sp, l := R(s, SP), Split(s);
    forall r: nat | r !in {TP, GP}
      ensures R(SetR(t, TP, v), r) == R(s, r)
    {
      SameRegisters(sp, t, lt, r);
      assert LR(lt, r) == LR(l, r);
    }
    forall a: Word | !(sp - AREA <= a < sp) && !InCheck(at, a)
      ensures MemByte(t.mem, a) == MemByte(s.mem, a)
    {
      assert MemByte(t.mem, a) == MemByte(lt.mem, a) == MemByte(l.mem, a);
    }
  }
}
