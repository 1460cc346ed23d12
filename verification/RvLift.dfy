/**
 From the local view of an expansion to the machine.

 Most macros leave the stack pointer alone, unless it is their target; then they write it when no
 scratch slot is needed any more.  In both cases what holds of the local run holds of the machine.
 */
module RvLift {
  import opened RvMachine
  import opened RvScratch
  import opened RvLut
  import opened RvMacros
  import opened RvBasicMacros
  import opened RvCompare
  import opened RvEqual
  import opened RvRefine
  import opened RvKeepsSp
  import opened RvSpec

  // ----- what is compared on the machine -----

  predicate InCheck(at: Layout, a: Word) {
    at.checkSame <= a < at.checkSame + 256
  }

  /** `t` is `s` but for `tp`, `gp`, the scratch area below `sp` and the marking array. */
  ghost predicate Close(at: Layout, sp: Word, s: State, t: State) {
    && (forall r: nat :: r !in {TP, GP} ==> R(t, r) == R(s, r))
    && (forall a: Word :: !(sp - AREA <= a < sp) && !InCheck(at, a) ==> MemByte(t.mem, a) == MemByte(s.mem, a))
  }

  /** The state of a machine in which the macros work. */
  ghost predicate Placement(at: Layout, s: State) {
    Clear(at, R(s, SP)) && TablesAt(s.mem, at.lut) && SmallTablesAt(s.mem, at)
  }

  lemma SplitReady(at: Layout, s: State)
    requires Placement(at, s)
    ensures Ready(at, Split(s)) && Refines(R(s, SP), s, Split(s))
    ensures forall r: nat :: LR(Split(s), r) == R(s, r)
  {
    SplitRefines(s);
  }

  // ----- code that writes the stack pointer late -----

  /** Instructions that touch registers only. */
  predicate Arithmetic(code: seq<Base>) {
    forall k :: 0 <= k < |code| ==> code[k].Add? || code[k].Addi? || code[k].Lui?
  }

  /** An end that may write the stack pointer: nothing, or one instruction and arithmetic behind it. */
  predicate Ending(code: seq<Base>) {
    code == [] || (!code[0].Jalr? && Arithmetic(code[1..]))
  }

  lemma ArithmeticStep(i: Base, sp: Word, s: State, l: Local)
    requires Refines(sp, s, l) && (i.Add? || i.Addi? || i.Lui?)
    ensures Refines(sp, Step(i, s), LStep(i, l))
  {
    hide Refines, LR, R, SetR, LSet, Wrap;
    match i {
      case Add(rd, rs1, rs2) =>
        SameRegisters(sp, s, l, rs1);
        SameRegisters(sp, s, l, rs2);
        SetRefines(sp, s, l, rd, Wrap(LR(l, rs1) + LR(l, rs2)));
      case Addi(rd, rs1, imm) =>
        SameRegisters(sp, s, l, rs1);
        SetRefines(sp, s, l, rd, Wrap(LR(l, rs1) + imm));
      case Lui(rd, upper) =>
        SetRefines(sp, s, l, rd, Wrap(upper * 0x1000));
    }
  }

  lemma {:induction false} ArithmeticRefines(code: seq<Base>, sp: Word, s: State, l: Local)
    requires Refines(sp, s, l) && Arithmetic(code)
    ensures Refines(sp, Exec(code, s), LExec(code, l))
  {
    hide Refines, Step, LStep;
    if code != [] {
      ArithmeticStep(code[0], sp, s, l);
      ArithmeticRefines(code[1..], sp, Step(code[0], s), LStep(code[0], l));
    }
  }

  lemma {:induction false} KeptSp(code: seq<Base>, l: Local)
    requires KeepsSp(code)
    ensures LR(LExec(code, l), SP) == LR(l, SP)
  {
    hide LR, LStep, Target;
    if code != [] {
      StepKeepsSp(code[0], l);
      assert KeepsSp(code[1..]);
      KeptSp(code[1..], LStep(code[0], l));
    }
  }

  /** Up to the instruction that writes `sp` the slots are in place, and after it none is used. */
  lemma LateRefines(c1: seq<Base>, c2: seq<Base>, sp: Word, s: State, l: Local)
    requires Refines(sp, s, l) && LR(l, SP) == sp && KeepsSp(c1) && Ending(c2) && LExec(c1 + c2, l).ok
    ensures Refines(sp, Exec(c1 + c2, s), LExec(c1 + c2, l))
  {
    hide Refines, LR, KeepsSp, Step, LStep, Arithmetic;
    var s1, l1 := Exec(c1, s), LExec(c1, l);
    LExecAppend(c1, c2, l);
    ExecAppend(c1, c2, s);
    OkAtStart(c2, l1);
    ExecRefines(c1, sp, s, l);
    KeptSp(c1, l);
    if c2 != [] {
      OkAtStart(c2[1..], LStep(c2[0], l1));
      StepRefines(c2[0], sp, s1, l1);
      ArithmeticRefines(c2[1..], sp, Step(c2[0], s1), LStep(c2[0], l1));
    }
  }

  // ----- how the macros end -----

  lemma {:induction false} DoublingArithmetic(rd: nat, n: nat)
    ensures Arithmetic(Doubling(rd, n))
  {
    if n > 0 {
      DoublingArithmetic(rd, n - 1);
    }
  }

  lemma SlliArithmetic(rd: nat, rs1: nat, imm: nat)
    requires imm < 16
    ensures Arithmetic(Slli(rd, rs1, imm))
  {
    if imm > 0 {
      DoublingArithmetic(rd, imm - 1);
    }
  }

  lemma NotEnds(at: Layout, rd: nat, rs1: nat) returns (c1: seq<Base>, c2: seq<Base>)
    ensures Not(at, rd, rs1) == c1 + c2 && KeepsSp(c1) && Ending(c2)
  {
    hide La, Position, KeepsSp, NotByte;
    NotBytesKeep();
    var addr := at.lut + Position(XorTable, 0xff, 0, 0);
    LaKeeps(TP, addr);
    hide NotBytes;
    var enter, mid := [Sw(GP, SP, SAVE_3), Sw(rs1, SP, VAR_C)], [Lw(GP, SP, SAVE_3)];
    NotEdges(rs1);
    Append4(enter, La(TP, addr), NotBytes(), mid);
    c1, c2 := enter + La(TP, addr) + NotBytes() + mid, [Lw(rd, SP, VAR_D)];
    assert [Lw(GP, SP, SAVE_3), Lw(rd, SP, VAR_D)] == mid + c2;
  }

  lemma NotBytesKeep()
    ensures KeepsSp(NotBytes())
  {
    Append4(NotByte(3), NotByte(2), NotByte(1), NotByte(0));
  }

  lemma NotEdges(rs1: nat)
    ensures KeepsSp([Sw(GP, SP, SAVE_3), Sw(rs1, SP, VAR_C)]) && KeepsSp([Lw(GP, SP, SAVE_3)])
  {
  }

  lemma SubEnds(at: Layout, rd: nat, rs1: nat, rs2: nat) returns (c1: seq<Base>, c2: seq<Base>)
    ensures Sub(at, rd, rs1, rs2) == c1 + c2 && KeepsSp(c1) && Ending(c2)
  {
    hide Not, KeepsSp;
    NotKeeps(at, TP, rs2);
    c1, c2 := Not(at, TP, rs2), [Add(rd, rs1, TP), Addi(rd, rd, 1)];
  }

  lemma SltEnds(at: Layout, table: Word, rd: nat, rs1: nat, rs2: nat) returns (c1: seq<Base>, c2: seq<Base>)
    ensures SltTemplate(at, table, rd, rs1, rs2) == c1 + c2 && KeepsSp(c1) && Ending(c2)
  {
    hide SignIndex, La, KeepsSp, SltEnter;
    SignIndexKeeps(at);
    LaKeeps(TP, table);
    SltEdges(rs1, rs2);
    var mid := [Add(TP, TP, GP), Lw(S1, SP, SAVE_2), Lw(S0, SP, SAVE_1)];
    Append4(SltEnter(rs1, rs2), SignIndex(at), La(TP, table), mid);
    c1, c2 := SltEnter(rs1, rs2) + SignIndex(at) + La(TP, table) + mid, [Lbu(rd, TP, 0)];
    assert SltLeave(rd) == mid + c2;
  }

  lemma SltEdges(rs1: nat, rs2: nat)
    ensures KeepsSp(SltEnter(rs1, rs2)) && KeepsSp([Add(TP, TP, GP), Lw(S1, SP, SAVE_2), Lw(S0, SP, SAVE_1)])
  {
  }

  lemma ShiftEdges(rs1: nat)
    ensures KeepsSp(ShiftEnter(rs1)) && KeepsSp([Lw(S0, SP, SAVE_1)]) && KeepsSp([Sw(rs1, SP, VAR_C)])
    ensures KeepsSp([Addi(TP, X0, 0)]) && KeepsSp([])
  {
  }

  lemma SllEnds(at: Layout, rd: nat, rs1: nat, rs2: nat) returns (c1: seq<Base>, c2: seq<Base>)
    ensures Sll(at, rd, rs1, rs2) == c1 + c2 && KeepsSp(c1) && Ending(c2)
  {
    hide ShiftRow, SllBody, KeepsSp, ShiftEnter;
    ShiftRowKeeps(at, SllTable, rs2);
    SllBodyKeeps();
    ShiftEdges(rs1);
    c1, c2 := ShiftEnter(rs1) + ShiftRow(at, SllTable, S0, rs2) + SllBody() + [Lw(S0, SP, SAVE_1)], [Add(rd, GP, TP)];
    Append4(ShiftEnter(rs1), ShiftRow(at, SllTable, S0, rs2), SllBody(), [Lw(S0, SP, SAVE_1)]);
    assert ShiftLeave(rd) == [Lw(S0, SP, SAVE_1)] + c2;
  }

  lemma ShiftRightEnds(at: Layout, arith: bool, rd: nat, rs1: nat, rs2: nat) returns (c1: seq<Base>, c2: seq<Base>)
    ensures ShiftRight(at, arith, rd, rs1, rs2) == c1 + c2 && KeepsSp(c1) && Ending(c2)
  {
    hide ShiftRow, ShiftRightBody, KeepsSp, ShiftEnter;
    ShiftRowKeeps(at, SrlTable, rs2);
    ShiftRightBodyKeeps(arith);
    ShiftEdges(rs1);
    c1, c2 := ShiftEnter(rs1) + ShiftRow(at, SrlTable, S0, rs2) + ShiftRightBody(arith) + [Lw(S0, SP, SAVE_1)], [Add(rd, GP, TP)];
    Append4(ShiftEnter(rs1), ShiftRow(at, SrlTable, S0, rs2), ShiftRightBody(arith), [Lw(S0, SP, SAVE_1)]);
    assert ShiftLeave(rd) == [Lw(S0, SP, SAVE_1)] + c2;
  }

  /** All constant right shifts but the arithmetic one by 24, which ends with a look into a table. */
  lemma ShiftRightImmEnds(at: Layout, arith: bool, rd: nat, rs1: nat, imm: nat) returns (c1: seq<Base>, c2: seq<Base>)
    requires !(arith && imm == 24)
    ensures ShiftRightImm(at, arith, rd, rs1, imm) == c1 + c2 && KeepsSp(c1) && Ending(c2)
  {
    hide La, ShiftRightBody, KeepsSp, ShiftEnter, Position;
    ShiftEdges(rs1);
    if imm == 24 {
      c1, c2 := [Sw(rs1, SP, VAR_C)], [Lbu(rd, SP, VAR_C + 3)];
    } else {
      var row := La(S0, at.lut + Position(SrlTable, imm, 0, 0));
      LaKeeps(S0, at.lut + Position(SrlTable, imm, 0, 0));
      ShiftRightBodyKeeps(arith);
      c1, c2 := ShiftEnter(rs1) + row + ShiftRightBody(arith) + [Lw(S0, SP, SAVE_1)], [Add(rd, GP, TP)];
      Append4(ShiftEnter(rs1), row, ShiftRightBody(arith), [Lw(S0, SP, SAVE_1)]);
      assert ShiftLeave(rd) == [Lw(S0, SP, SAVE_1)] + c2;
    }
  }

  lemma SlliEnds(rd: nat, rs1: nat, imm: nat) returns (c1: seq<Base>, c2: seq<Base>)
    requires imm < 32
    ensures Slli(rd, rs1, imm) == c1 + c2 && KeepsSp(c1) && Ending(c2)
  {
    hide KeepsSp, Arithmetic;
    SlliStart(rs1);
    if imm < 16 {
      SlliArithmetic(rd, rs1, imm);
      TailArithmetic(Slli(rd, rs1, imm));
      c1, c2 := [], Slli(rd, rs1, imm);
    } else {
      var rest := if imm >= 24 then imm - 24 else imm - 16;
      SlliArithmetic(rd, rd, rest);
      LongSlli(rd, rs1, imm);
      hide Slli;
      c1 := if imm >= 24 then [Sw(X0, SP, VAR_A), Sb(rs1, SP, VAR_A + 3)] else [Sw(X0, SP, VAR_A)] + ShHalf(rs1, SP, VAR_A + 2);
      c2 := [Lw(rd, SP, VAR_A)] + Slli(rd, rd, rest);
      assert c2[1..] == Slli(rd, rd, rest);
    }
  }

  lemma TailArithmetic(code: seq<Base>)
    requires Arithmetic(code)
    ensures Ending(code)
  {
  }

  lemma LongSlli(rd: nat, rs1: nat, imm: nat)
    requires 16 <= imm < 32
    ensures Slli(rd, rs1, imm)
            == (if imm >= 24 then [Sw(X0, SP, VAR_A), Sb(rs1, SP, VAR_A + 3)] else [Sw(X0, SP, VAR_A)] + ShHalf(rs1, SP, VAR_A + 2))
               + ([Lw(rd, SP, VAR_A)] + Slli(rd, rd, if imm >= 24 then imm - 24 else imm - 16))
  {
    hide ShHalf;
    if imm >= 24 {
      assert [Sw(X0, SP, VAR_A), Sb(rs1, SP, VAR_A + 3), Lw(rd, SP, VAR_A)] == [Sw(X0, SP, VAR_A), Sb(rs1, SP, VAR_A + 3)] + [Lw(rd, SP, VAR_A)];
    }
  }

  lemma SlliStart(rs1: nat)
    ensures KeepsSp([Sw(X0, SP, VAR_A), Sb(rs1, SP, VAR_A + 3)])
    ensures KeepsSp([Sw(X0, SP, VAR_A)] + ShHalf(rs1, SP, VAR_A + 2))
    ensures KeepsSp([])
  {
    ShHalfKeeps(rs1, SP, VAR_A + 2);
    hide ShHalf;
    KeepsSpAppend([Sw(X0, SP, VAR_A)], ShHalf(rs1, SP, VAR_A + 2));
  }

  lemma LhuEnds(rd: nat, base: nat, off: int) returns (c1: seq<Base>, c2: seq<Base>)
    ensures Lhu(rd, base, off) == c1 + c2 && KeepsSp(c1) && Ending(c2)
  {
    c1, c2 := [Sw(X0, SP, VAR_A), Lbu(TP, base, off + 1), Sb(TP, SP, VAR_A + 1), Lw(TP, SP, VAR_A)], [Lbu(rd, base, off), Add(rd, rd, TP)];
  }

  lemma LhEnds(at: Layout, rd: nat, base: nat, off: int) returns (c1: seq<Base>, c2: seq<Base>)
    ensures Lh(at, rd, base, off) == c1 + c2 && KeepsSp(c1) && Ending(c2)
  {
    hide ShiftRightImm, KeepsSp;
    var load := [Sw(X0, SP, VAR_A), Lbu(GP, base, off + 1), Sb(GP, SP, VAR_A + 3), Lw(GP, SP, VAR_A)];
    ShiftRightImmKeeps(at, true, GP, GP, 16);
    LhStart(base, off);
    KeepsSpAppend(load, ShiftRightImm(at, true, GP, GP, 16));
    c1, c2 := load + ShiftRightImm(at, true, GP, GP, 16), [Lbu(rd, base, off), Add(rd, rd, GP)];
  }

  lemma LhStart(base: nat, off: int)
    ensures KeepsSp([Sw(X0, SP, VAR_A), Lbu(GP, base, off + 1), Sb(GP, SP, VAR_A + 3), Lw(GP, SP, VAR_A)])
  {
  }

  lemma OpEnds(at: Layout, op: Op, rd: nat, rs1: nat, rs2: nat) returns (c1: seq<Base>, c2: seq<Base>)
    requires OpAccepted(op, rd, rs1, rs2)
    ensures OpCode(at, op, rd, rs1, rs2) == c1 + c2 && KeepsSp(c1) && Ending(c2)
  {
    hide KeepsSp, Sub, SltTemplate, Logic, Sll, ShiftRight, Ending;
    match op {
      case OpSub => c1, c2 := SubEnds(at, rd, rs1, rs2);
      case OpSlt => c1, c2 := SltEnds(at, at.slt1, rd, rs1, rs2);
      case OpSltu => c1, c2 := SltEnds(at, at.sltu1, rd, rs1, rs2);
      case OpSll => c1, c2 := SllEnds(at, rd, rs1, rs2);
      case OpSrl => c1, c2 := ShiftRightEnds(at, false, rd, rs1, rs2);
      case OpSra => c1, c2 := ShiftRightEnds(at, true, rd, rs1, rs2);
      case _ =>
        c1, c2 := OpCode(at, op, rd, rs1, rs2), [];
        LogicEnds(at, op, rd, rs1, rs2);
    }
  }

  lemma LogicEnds(at: Layout, op: Op, rd: nat, rs1: nat, rs2: nat)
    requires OpAccepted(op, rd, rs1, rs2) && IsLogic(op)
    ensures KeepsSp(OpCode(at, op, rd, rs1, rs2)) && Ending([])
  {
    hide Logic, KeepsSp;
    ShiftEdges(rs1);
    if rd != X0 {
      LogicKeeps(at, LogicTable(op), rd, rs1, rs2);
    }
  }

  /** `srai rd, rs, 24` with `sp` as the target. */
  predicate TopByteToSp(i: Instr) {
    i.ShiftImm? && i.op == OpSra && i.shamt == 24 && i.rd == SP
  }

  /** Where an expansion may first write the stack pointer. */
  lemma CodeEnds(at: Layout, i: Instr) returns (c1: seq<Base>, c2: seq<Base>)
    requires Accepted(i) && !i.Plain? && !i.StoreHalf? && !IsControl(i) && !TopByteToSp(i)
    ensures Code(at, i) == c1 + c2 && KeepsSp(c1) && Ending(c2)
  {
    hide KeepsSp, Ending, OpCode, ShiftRightImm, Slli, Lb, Lh, Lhu, Not, Seqz, Msb;
    NoEnding();
    match i {
      case RType(op, rd, rs1, rs2) =>
        c1, c2 := OpEnds(at, op, rd, rs1, rs2);
      case IType(op, rd, rs1, imm) =>
        var d1, d2 := OpEnds(at, op, rd, rs1, TP);
        ImmediateKeeps(imm);
        KeepsSpAppend([Addi(TP, X0, imm)], d1);
        c1, c2 := [Addi(TP, X0, imm)] + d1, d2;
      case ShiftImm(op, rd, rs1, shamt) =>
        if op == OpSll {
          c1, c2 := SlliEnds(rd, rs1, shamt);
        } else if op == OpSra && shamt == 24 {
          ShiftRightImmKeeps(at, true, rd, rs1, 24);
          c1, c2 := Code(at, i), [];
        } else {
          c1, c2 := ShiftRightImmEnds(at, op == OpSra, rd, rs1, shamt);
        }
      case Load(SignedByte, rd, base, off) =>
        LbKeeps(at, rd, base, off);
        c1, c2 := Code(at, i), [];
      case Load(SignedHalf, rd, base, off) =>
        c1, c2 := LhEnds(at, rd, base, off);
      case Load(UnsignedHalf, rd, base, off) =>
        c1, c2 := LhuEnds(rd, base, off);
      case NotOf(rd, rs) =>
        c1, c2 := NotEnds(at, rd, rs);
      case IsZero(rd, rs) =>
        SeqzKeeps(at, rd, rs);
        c1, c2 := Code(at, i), [];
      case IsNegative(rd, rs) =>
        MsbKeeps(rd, rs);
        c1, c2 := Code(at, i), [];
    }
  }

  lemma NoEnding()
    ensures Ending([])
  {
  }

  lemma ImmediateKeeps(imm: int)
    ensures KeepsSp([Addi(TP, X0, imm)])
  {
  }

  // ----- the step to the machine -----

  /** A machine state that a local one stands for, in which one register of `s` has been set. */
  lemma Lift(at: Layout, s: State, t: State, lt: Local, rd: nat, v: Word)
    requires Placement(at, s) && Refines(R(s, SP), t, lt)
    requires SameBut(at, Split(s), lt, {rd, TP, GP}, AllCells()) && (rd != X0 ==> LR(lt, rd) == v)
    ensures Close(at, R(s, SP), SetR(s, rd, v), t)
  {
    hide AllCells, Clear, TablesAt, SmallTablesAt, AreaByte, MemByte;
    var sp, l := R(s, SP), Split(s);
    SplitReady(at, s);
    forall r: nat | r !in {TP, GP}
      ensures R(t, r) == R(SetR(s, rd, v), r)
    {
      SameRegisters(sp, t, lt, r);
      if r != rd {
        assert LR(lt, r) == LR(l, r);
      }
    }
    forall a: Word | !(sp - AREA <= a < sp) && !InCheck(at, a)
      ensures MemByte(t.mem, a) == MemByte(SetR(s, rd, v).mem, a)
    {
      assert MemByte(t.mem, a) == MemByte(lt.mem, a) == MemByte(l.mem, a);
    }
  }

  /** Code that ends as the macros do and sets one register. */
  lemma LiftEnding(at: Layout, s: State, c1: seq<Base>, c2: seq<Base>, rd: nat, v: Word)
    requires Placement(at, s) && KeepsSp(c1) && Ending(c2)
    requires var l := Split(s); var t := LExec(c1 + c2, l);
             Same(l, t, {rd, TP, GP}, AllCells()) && (rd != X0 ==> LR(t, rd) == v)
    ensures Close(at, R(s, SP), SetR(s, rd, v), Exec(c1 + c2, s))
  {
    hide KeepsSp, Ending, AllCells, Close, LExec, Exec, SameBut, Split, LR, R, SetR, AreaByte, Clear, TablesAt, SmallTablesAt;
    SplitReady(at, s);
    SameIsSameBut(at, Split(s), LExec(c1 + c2, Split(s)), {rd, TP, GP}, AllCells(), {rd, TP, GP}, AllCells());
    LateRefines(c1, c2, R(s, SP), s, Split(s));
    Lift(at, s, Exec(c1 + c2, s), LExec(c1 + c2, Split(s)), rd, v);
  }
}
