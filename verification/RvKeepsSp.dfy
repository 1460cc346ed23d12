/**
 No macro of rvmini moves the stack pointer, unless it is the macro's target: the scratch slots stay
 where they are during an expansion.
 */
module RvKeepsSp {
  import opened RvMachine
  import opened RvLut
  import opened RvMacros
  import opened RvRefine

  lemma Append3(c1: seq<Base>, c2: seq<Base>, c3: seq<Base>)
    requires KeepsSp(c1) && KeepsSp(c2) && KeepsSp(c3)
    ensures KeepsSp(c1 + c2 + c3)
  {
    hide KeepsSp;
    KeepsSpAppend(c1, c2);
    KeepsSpAppend(c1 + c2, c3);
  }

  lemma Append4(c1: seq<Base>, c2: seq<Base>, c3: seq<Base>, c4: seq<Base>)
    requires KeepsSp(c1) && KeepsSp(c2) && KeepsSp(c3) && KeepsSp(c4)
    ensures KeepsSp(c1 + c2 + c3 + c4)
  {
    hide KeepsSp;
    Append3(c1, c2, c3);
    KeepsSpAppend(c1 + c2 + c3, c4);
  }

  lemma Append5(c1: seq<Base>, c2: seq<Base>, c3: seq<Base>, c4: seq<Base>, c5: seq<Base>)
    requires KeepsSp(c1) && KeepsSp(c2) && KeepsSp(c3) && KeepsSp(c4) && KeepsSp(c5)
    ensures KeepsSp(c1 + c2 + c3 + c4 + c5)
  {
    hide KeepsSp;
    Append4(c1, c2, c3, c4);
    KeepsSpAppend(c1 + c2 + c3 + c4, c5);
  }

  lemma LaKeeps(r: nat, addr: int)
    requires r != SP
    ensures KeepsSp(La(r, addr))
  {
  }

  lemma GetByteKeeps(rd: nat, rs1: nat, k: nat)
    requires rd != SP
    ensures KeepsSp(GetByte(rd, rs1, k))
  {
  }

  lemma {:induction false} DoublingKeeps(rd: nat, n: nat)
    requires rd != SP
    ensures KeepsSp(Doubling(rd, n))
  {
    if n > 0 {
      DoublingKeeps(rd, n - 1);
      KeepsSpAppend([Add(rd, rd, rd)], Doubling(rd, n - 1));
    }
  }

  lemma ShHalfKeeps(rs: nat, base: nat, off: int)
    ensures KeepsSp(ShHalf(rs, base, off))
  {
    GetByteKeeps(TP, rs, 1);
    Append3([Sb(rs, base, off)], GetByte(TP, rs, 1), [Sb(TP, base, off + 1)]);
  }

  lemma SlliKeeps(rd: nat, rs1: nat, imm: nat)
    requires rd != SP && imm < 32
    ensures KeepsSp(Slli(rd, rs1, imm))
    decreases imm
  {
    if imm == 0 {
    } else if imm >= 24 {
      SlliKeeps(rd, rd, imm - 24);
      KeepsSpAppend([Sw(X0, SP, VAR_A), Sb(rs1, SP, VAR_A + 3), Lw(rd, SP, VAR_A)], Slli(rd, rd, imm - 24));
    } else if imm >= 16 {
      ShHalfKeeps(rs1, SP, VAR_A + 2);
      SlliKeeps(rd, rd, imm - 16);
      Append4([Sw(X0, SP, VAR_A)], ShHalf(rs1, SP, VAR_A + 2), [Lw(rd, SP, VAR_A)], Slli(rd, rd, imm - 16));
    } else {
      DoublingKeeps(rd, imm - 1);
      KeepsSpAppend([Add(rd, rs1, rs1)], Doubling(rd, imm - 1));
    }
  }

  lemma MsbKeeps(rd: nat, rs1: nat)
    requires rd != SP
    ensures KeepsSp(Msb(rd, rs1))
  {
    hide Slli;
    GetByteKeeps(rd, rs1, 3);
    SlliKeeps(rd, rd, 1);
    GetByteKeeps(rd, rd, 1);
    Append3(GetByte(rd, rs1, 3), Slli(rd, rd, 1), GetByte(rd, rd, 1));
  }

  lemma NotKeeps(at: Layout, rd: nat, rs1: nat)
    requires rd != SP
    ensures KeepsSp(Not(at, rd, rs1))
  {
    hide La, Position;
    Append4(NotByte(3), NotByte(2), NotByte(1), NotByte(0));
    var addr := at.lut + Position(XorTable, 0xff, 0, 0);
    LaKeeps(TP, addr);
    hide NotBytes;
    Append4([Sw(GP, SP, SAVE_3), Sw(rs1, SP, VAR_C)], La(TP, addr), NotBytes(), [Lw(GP, SP, SAVE_3), Lw(rd, SP, VAR_D)]);
  }

  lemma SubKeeps(at: Layout, rd: nat, rs1: nat, rs2: nat)
    requires rd != SP
    ensures KeepsSp(Sub(at, rd, rs1, rs2))
  {
    hide Not;
    NotKeeps(at, TP, rs2);
    KeepsSpAppend(Not(at, TP, rs2), [Add(rd, rs1, TP), Addi(rd, rd, 1)]);
  }

  lemma SignIndexKeeps(at: Layout)
    ensures KeepsSp(SignIndex(at))
  {
    hide Msb, Slli, Sub;
    MsbKeeps(GP, S0);
    SlliKeeps(GP, GP, 1);
    MsbKeeps(TP, S1);
    SubKeeps(at, TP, S0, S1);
    MsbKeeps(TP, TP);
    Append3(Msb(TP, S1), [Add(GP, GP, TP)], Slli(GP, GP, 1));
    Append3(Sub(at, TP, S0, S1), Msb(TP, TP), [Add(GP, GP, TP)]);
    Append4(Msb(GP, S0), Slli(GP, GP, 1), Msb(TP, S1) + [Add(GP, GP, TP)] + Slli(GP, GP, 1),
            Sub(at, TP, S0, S1) + Msb(TP, TP) + [Add(GP, GP, TP)]);
  }

  lemma SltKeeps(at: Layout, table: Word, rd: nat, rs1: nat, rs2: nat)
    requires rd != SP
    ensures KeepsSp(SltTemplate(at, table, rd, rs1, rs2))
  {
    hide SignIndex, La;
    SignIndexKeeps(at);
    LaKeeps(TP, table);
    Append4(SltEnter(rs1, rs2), SignIndex(at), La(TP, table), SltLeave(rd));
  }

  lemma LogicByteKeeps(reg: nat, k: nat)
    ensures KeepsSp(LogicByte(reg, k))
  {
    KeepsSpAppend(PairBytes(k), LookupPair(reg, k));
  }

  lemma LogicKeeps(at: Layout, t: Table, rd: nat, rs1: nat, rs2: nat)
    requires rd != SP
    ensures KeepsSp(Logic(at, t, rd, rs1, rs2))
  {
    hide La, LogicByte;
    LogicByteKeeps(rd, 3);
    LogicByteKeeps(rd, 2);
    LogicByteKeeps(rd, 1);
    LogicByteKeeps(rd, 0);
    Append4(LogicByte(rd, 3), LogicByte(rd, 2), LogicByte(rd, 1), LogicByte(rd, 0));
    LaKeeps(rd, at.lut + Offset(t));
    hide LogicBytes;
    Append5(StoreOperands(rs1, rs2), La(rd, at.lut + Offset(t)), [Sw(X0, SP, VAR_D)], LogicBytes(rd), [Lw(rd, SP, VAR_C)]);
  }

  lemma Check8SameKeeps(rd: nat, k: nat)
    requires rd != SP
    ensures KeepsSp(Check8Same(S0, rd, k))
  {
    KeepsSpAppend(MarkFirst(S0, rd, k), MarkSecond(S0, rd, k));
  }

  lemma CheckBytesKeeps(at: Layout)
    ensures KeepsSp(CheckBytes(at))
  {
    hide Check8Same, La;
    LaKeeps(S0, at.checkSame);
    Check8SameKeeps(GP, 0);
    Check8SameKeeps(S1, 1);
    Check8SameKeeps(S1, 2);
    Check8SameKeeps(S1, 3);
    KeepsSpAppend(Check8Same(S0, S1, 1), [Add(GP, GP, S1)]);
    KeepsSpAppend(Check8Same(S0, S1, 2), [Add(GP, GP, S1)]);
    KeepsSpAppend(Check8Same(S0, S1, 3), [Add(GP, GP, S1)]);
    hide CheckAdd;
    Append5(La(S0, at.checkSame), Check8Same(S0, GP, 0), CheckAdd(1), CheckAdd(2), CheckAdd(3));
  }

  lemma SeqKeeps(at: Layout, rd: nat, rs1: nat, rs2: nat)
    requires rd != SP
    ensures KeepsSp(Seq(at, rd, rs1, rs2))
  {
    hide La, CheckBytes;
    KeepsSpAppend(StoreOperands(rs1, rs2), SaveBoth());
    CheckBytesKeeps(at);
    LaKeeps(TP, at.sameResult);
    hide SeqEnter;
    Append4(SeqEnter(rs1, rs2), CheckBytes(at), La(TP, at.sameResult), SeqLeave(rd));
  }

  lemma ZeroBytesKeeps(at: Layout)
    ensures KeepsSp(ZeroBytes(at))
  {
    hide La;
    LaKeeps(S0, at.zero8);
    KeepsSpAppend(Check8Zero(S0, TP, 1), [Add(GP, GP, TP)]);
    KeepsSpAppend(Check8Zero(S0, TP, 2), [Add(GP, GP, TP)]);
    KeepsSpAppend(Check8Zero(S0, TP, 3), [Add(GP, GP, TP)]);
    hide ZeroAdd;
    Append5(La(S0, at.zero8), Check8Zero(S0, GP, 0), ZeroAdd(1), ZeroAdd(2), ZeroAdd(3));
  }

  lemma SeqzKeeps(at: Layout, rd: nat, rs1: nat)
    requires rd != SP
    ensures KeepsSp(Seqz(at, rd, rs1))
  {
    hide La, ZeroBytes;
    ZeroBytesKeeps(at);
    LaKeeps(TP, at.sameResult);
    Append4(SeqzEnter(rs1), ZeroBytes(at), La(TP, at.sameResult), SeqzLeave(rd));
  }

  lemma BranchSelectKeeps(higher: Word, lower: Word)
    ensures KeepsSp(BranchSelect(higher, lower))
  {
    hide La, Slli;
    SlliKeeps(TP, TP, 2);
    LaKeeps(GP, higher);
    LaKeeps(GP, lower);
    KeepsSpAppend(La(GP, higher), [Sw(GP, SP, VAR_A)]);
    KeepsSpAppend(La(GP, lower), [Sw(GP, SP, VAR_B)]);
    Append4(Slli(TP, TP, 2), [Add(TP, SP, TP)], La(GP, higher) + [Sw(GP, SP, VAR_A)], La(GP, lower) + [Sw(GP, SP, VAR_B)]);
  }

  lemma GetShamtKeeps(at: Layout, rs1: nat)
    ensures KeepsSp(GetShamt(at, S0, rs1))
  {
    hide La, Position;
    LaKeeps(TP, at.lut + Position(AndTable, 0x1f, 0, 0));
    Append3([Sb(rs1, SP, VAR_B), Lbu(S0, SP, VAR_B)], La(TP, at.lut + Position(AndTable, 0x1f, 0, 0)), [Add(S0, S0, TP), Lbu(S0, S0, 0)]);
  }

  lemma ShiftRowKeeps(at: Layout, t: Table, rs2: nat)
    ensures KeepsSp(ShiftRow(at, t, S0, rs2))
  {
    hide La, GetShamt, Slli;
    GetShamtKeeps(at, rs2);
    SlliKeeps(S0, S0, 2);
    LaKeeps(TP, at.lut + Offset(t));
    Append5(GetShamt(at, S0, rs2), ByteUp(S0), Slli(S0, S0, 2), La(TP, at.lut + Offset(t)), [Add(S0, S0, TP)]);
  }

  lemma ShiftByteKeeps(k: nat)
    ensures KeepsSp(ShiftByte(S0, k))
  {
    hide Slli;
    SlliKeeps(TP, TP, 2);
    Append3([Lbu(TP, SP, VAR_A + k)], Slli(TP, TP, 2), [Add(TP, S0, TP), Lw(TP, TP, 0)]);
  }

  lemma SllBodyKeeps()
    ensures KeepsSp(SllBody())
  {
    hide ShiftByte, ShHalf, Slli;
    ShiftByteKeeps(3);
    ShiftByteKeeps(2);
    ShiftByteKeeps(1);
    ShiftByteKeeps(0);
    ShHalfKeeps(TP, SP, VAR_B + 2);
    SlliKeeps(TP, TP, 8);
    KeepsSpAppend(ShiftByte(S0, 3), [Sb(TP, SP, VAR_B + 3), Lw(GP, SP, VAR_B)]);
    Append3(ShiftByte(S0, 2), ShHalf(TP, SP, VAR_B + 2), [Lw(TP, SP, VAR_B), Add(GP, GP, TP)]);
    Append3(ShiftByte(S0, 1), Slli(TP, TP, 8), [Add(GP, GP, TP)]);
    hide SllByte3, SllByte2, SllByte1;
    Append5([Sw(X0, SP, VAR_B)], SllByte3(), SllByte2(), SllByte1(), ShiftByte(S0, 0));
  }

  lemma ShiftRightBodyKeeps(arith: bool)
    ensures KeepsSp(ShiftRightBody(arith))
  {
    hide ShiftByte;
    ShiftByteKeeps(3);
    ShiftByteKeeps(2);
    ShiftByteKeeps(1);
    ShiftByteKeeps(0);
    KeepsSpAppend(ShiftByte(S0, 2), [Sw(TP, SP, VAR_B)]);
    KeepsSpAppend(ShiftByte(S0, 1), [Sw(TP, SP, VAR_C)]);
    KeepsSpAppend(ShiftByte(S0, 0), [Sw(TP, SP, VAR_D)]);
    hide LookupTo;
    Append3(LookupTo(2, VAR_B), LookupTo(1, VAR_C), LookupTo(0, VAR_D));
    CombinesKeep();
    hide Combine0, Combine1, Combine2;
    SraRowKeeps(arith);
    hide SraRow;
    Append4(LookupTo(2, VAR_B) + LookupTo(1, VAR_C) + LookupTo(0, VAR_D), Combine0() + Combine1() + Combine2(),
            SraRow(arith), ShiftByte(S0, 3));
  }

  lemma CombinesKeep()
    ensures KeepsSp(Combine0() + Combine1() + Combine2())
  {
    KeepsSpAppend([Lbu(GP, SP, VAR_B + 1), Lbu(TP, SP, VAR_C + 2), Add(GP, GP, TP)],
                  [Lbu(TP, SP, VAR_D + 3), Add(GP, GP, TP), Sw(GP, SP, VAR_D)]);
    Append3(Combine0(), Combine1(), Combine2());
  }

  lemma SraRowKeeps(arith: bool)
    ensures KeepsSp(SraRow(arith))
  {
    if arith {
      hide La;
      LaKeeps(TP, Offset(SraTable) - Offset(SrlTable));
      KeepsSpAppend(La(TP, Offset(SraTable) - Offset(SrlTable)), [Add(S0, S0, TP)]);
    }
  }

  lemma ShiftRightImmKeeps(at: Layout, arith: bool, rd: nat, rs1: nat, imm: nat)
    requires rd != SP
    ensures KeepsSp(ShiftRightImm(at, arith, rd, rs1, imm))
  {
    hide La, ShiftRightBody, Slli, Position, GetByte;
    if imm == 24 {
      GetByteKeeps(rd, rs1, 3);
      LaKeeps(TP, at.lut + Position(SraTable, 24, 0, 0));
      SlliKeeps(rd, rd, 2);
      Append5([Sw(rs1, SP, VAR_A)], La(TP, at.lut + Position(SraTable, 24, 0, 0)), [Lbu(rd, SP, VAR_A + 3)], Slli(rd, rd, 2), [Add(TP, TP, rd), Lw(rd, TP, 0)]);
    } else {
      LaKeeps(S0, at.lut + Position(SrlTable, imm, 0, 0));
      ShiftRightBodyKeeps(arith);
      Append4(ShiftEnter(rs1), La(S0, at.lut + Position(SrlTable, imm, 0, 0)), ShiftRightBody(arith), ShiftLeave(rd));
    }
  }

  lemma LbKeeps(at: Layout, rd: nat, base: nat, off: int)
    requires rd != SP
    ensures KeepsSp(Lb(at, rd, base, off))
  {
    hide ShiftRightImm;
    ShiftRightImmKeeps(at, true, rd, rd, 24);
    KeepsSpAppend([Sw(X0, SP, VAR_A), Lbu(rd, base, off), Sb(rd, SP, VAR_A + 3), Lw(rd, SP, VAR_A)], ShiftRightImm(at, true, rd, rd, 24));
  }

  lemma NotPositiveKeeps(at: Layout, rs2: nat)
    ensures KeepsSp(NotPositive(at, rs2))
  {
    hide Msb, La;
    MsbKeeps(GP, rs2);
    MsbKeeps(TP, TP);
    LaKeeps(TP, at.or1);
    Append3(Msb(GP, rs2), [Addi(TP, rs2, -1)], Msb(TP, TP));
    Append4(Msb(GP, rs2) + [Addi(TP, rs2, -1)] + Msb(TP, TP), [Add(GP, GP, TP)], La(TP, at.or1), [Add(TP, GP, TP), Lbu(TP, TP, 0)]);
  }
}
