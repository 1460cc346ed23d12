/**
 `and`, `or` and `xor` through 64K byte tables (abstract-machine/tools/rvmini/inst-replace.h,
 lines 163-208).
 */
module RvLogic {
  import opened Bits
  import opened RvMachine
  import opened RvScratch
  import opened RvLut
  import opened RvMacros
  import opened RvBasicMacros

  /** The word whose bytes are the table entries for the bytes of `a` and `b`. */
  function TableWord(t: Table, a: Word, b: Word): Word {
    WordOf(ByteOf(Entry(t, ByteOf(a, 0), ByteOf(b, 0)), 0), ByteOf(Entry(t, ByteOf(a, 1), ByteOf(b, 1)), 0),
           ByteOf(Entry(t, ByteOf(a, 2), ByteOf(b, 2)), 0), ByteOf(Entry(t, ByteOf(a, 3), ByteOf(b, 3)), 0))
  }

  /** Byte-wise tables give the word-wise operation. */
  lemma TableWordMeaning(a: Word, b: Word)
    ensures TableWord(AndTable, a, b) == And(a, b)
    ensures TableWord(OrTable, a, b) == Or(a, b)
    ensures TableWord(XorTable, a, b) == Xor(a, b)
  {
    hide *;
    AndByBytes(a, b);
    OrByBytes(a, b);
    XorByBytes(a, b);
  }

  lemma SplitByte(x: nat)
    ensures Shr(x, 8) == x / 256 && Low(x, 8) == x % 256
    ensures Shl(x, 8) == 256 * x
  {
    hide Shl, Shr, Low, Pow2;
    WidthPowers();
    ShrIsDiv(x, 8);
    ShlIsMul(x, 8);
  }

  lemma AndOneByte(x: nat, y: nat)
    ensures And(x, y) == 256 * And(x / 256, y / 256) + And(x % 256, y % 256)
    ensures And(x % 256, y % 256) < 256
  {
    hide Shl, Shr, Low, Pow2, And;
    AndSplit(x, y, 8);
    SplitByte(x);
    SplitByte(y);
    SplitByte(And(x / 256, y / 256));
  }

  lemma OrOneByte(x: nat, y: nat)
    ensures Or(x, y) == 256 * Or(x / 256, y / 256) + Or(x % 256, y % 256)
    ensures Or(x % 256, y % 256) < 256
  {
    hide Shl, Shr, Low, Pow2, Or;
    OrSplit(x, y, 8);
    SplitByte(x);
    SplitByte(y);
    SplitByte(Or(x / 256, y / 256));
    WidthPowers();
    OrBound(x % 256, y % 256, 8);
  }

  lemma XorOneByte(x: nat, y: nat)
    ensures Xor(x, y) == 256 * Xor(x / 256, y / 256) + Xor(x % 256, y % 256)
    ensures Xor(x % 256, y % 256) < 256
  {
    hide Shl, Shr, Low, Pow2, Xor;
    XorSplit(x, y, 8);
    SplitByte(x);
    SplitByte(y);
    SplitByte(Xor(x / 256, y / 256));
    WidthPowers();
    XorBound(x % 256, y % 256, 8);
  }

  lemma BytesAsQuotients(w: Word)
    ensures ByteOf(w, 0) == w % 256 && ByteOf(w, 1) == w / 256 % 256
    ensures ByteOf(w, 2) == w / 256 / 256 % 256 && ByteOf(w, 3) == w / 256 / 256 / 256 % 256
    ensures w / 256 / 256 / 256 / 256 == 0
  {
  }

  lemma AndByBytes(a: Word, b: Word)
    ensures TableWord(AndTable, a, b) == And(a, b)
  {
    BytesAsQuotients(a);
    BytesAsQuotients(b);
    hide And, ByteOf;
    AndOneByte(a, b);
    AndOneByte(a / 256, b / 256);
    AndOneByte(a / 256 / 256, b / 256 / 256);
    AndOneByte(a / 256 / 256 / 256, b / 256 / 256 / 256);
    AndZero(0);
    ByteEntries(AndTable, a, b);
  }

  lemma OrByBytes(a: Word, b: Word)
    ensures TableWord(OrTable, a, b) == Or(a, b)
  {
    BytesAsQuotients(a);
    BytesAsQuotients(b);
    hide Or, ByteOf;
    OrOneByte(a, b);
    OrOneByte(a / 256, b / 256);
    OrOneByte(a / 256 / 256, b / 256 / 256);
    OrOneByte(a / 256 / 256 / 256, b / 256 / 256 / 256);
    OrZero(0);
    ByteEntries(OrTable, a, b);
  }

  lemma XorByBytes(a: Word, b: Word)
    ensures TableWord(XorTable, a, b) == Xor(a, b)
  {
    BytesAsQuotients(a);
    BytesAsQuotients(b);
    hide Xor, ByteOf;
    XorOneByte(a, b);
    XorOneByte(a / 256, b / 256);
    XorOneByte(a / 256 / 256, b / 256 / 256);
    XorOneByte(a / 256 / 256 / 256, b / 256 / 256 / 256);
    assert Xor(0, 0) == 0 by { XorAtZero(); }
    ByteEntries(XorTable, a, b);
  }

  lemma XorAtZero()
    ensures Xor(0, 0) == 0
  {
  }

  /** The byte operation of a table. */
  function ByteOp(t: Table, j: Byte, i: Byte): nat
    requires EntrySize(t) == 1
  {
    match t
    case AndTable => And(j, i)
    case OrTable => Or(j, i)
    case XorTable => Xor(j, i)
  }

  lemma ByteEntry(t: Table, j: Byte, i: Byte)
    requires EntrySize(t) == 1
    ensures ByteOp(t, j, i) < 256 && ByteOf(Entry(t, j, i), 0) == ByteOp(t, j, i)
  {
    ByteOpBound(t, j, i);
    EntryIs(t, j, i);
    hide ByteOp, Entry;
    ByteOfByte(ByteOp(t, j, i));
  }

  lemma EntryIs(t: Table, j: Byte, i: Byte)
    requires EntrySize(t) == 1 && ByteOp(t, j, i) < 256
    ensures Entry(t, j, i) == ByteOp(t, j, i)
  {
    hide And, Or, Xor, Wrap;
    WrapSmall(ByteOp(t, j, i));
  }

  lemma ByteOpBound(t: Table, j: Byte, i: Byte)
    requires EntrySize(t) == 1
    ensures ByteOp(t, j, i) < 256
  {
    hide And, Or, Xor, Pow2;
    WidthPowers();
    OrBound(j, i, 8);
    XorBound(j, i, 8);
  }

  lemma ByteEntries(t: Table, a: Word, b: Word)
    requires EntrySize(t) == 1
    ensures TableWord(t, a, b) == ByteOp(t, ByteOf(a, 0), ByteOf(b, 0)) + 0x100 * ByteOp(t, ByteOf(a, 1), ByteOf(b, 1))
                                  + 0x1_0000 * ByteOp(t, ByteOf(a, 2), ByteOf(b, 2)) + 0x100_0000 * ByteOp(t, ByteOf(a, 3), ByteOf(b, 3))
  {
    hide ByteOf, Entry, ByteOp, WordOf;
    ByteEntry(t, ByteOf(a, 0), ByteOf(b, 0));
    ByteEntry(t, ByteOf(a, 1), ByteOf(b, 1));
    ByteEntry(t, ByteOf(a, 2), ByteOf(b, 2));
    ByteEntry(t, ByteOf(a, 3), ByteOf(b, 3));
    WordOfIs(ByteOp(t, ByteOf(a, 0), ByteOf(b, 0)), ByteOp(t, ByteOf(a, 1), ByteOf(b, 1)),
             ByteOp(t, ByteOf(a, 2), ByteOf(b, 2)), ByteOp(t, ByteOf(a, 3), ByteOf(b, 3)));
  }

  // ----- the macro -----

  lemma LogicByteSteps(reg: nat, k: nat, l: Local, v: Byte)
    requires k < 4 && reg != TP
    requires var a := Wrap(LR(l, reg) + WordOf(AreaByte(l, VAR_B + k), AreaByte(l, VAR_A + k), AreaByte(l, VAR_D + 2), AreaByte(l, VAR_D + 3)));
             MemByte(l.mem, a) == v && Misses(LR(l, SP), a, 1)
    ensures var t := LExec(LogicByte(reg, k), l);
            Same(l, t, {TP}, {VAR_D, VAR_D + 1, VAR_C + k}) && AreaByte(t, VAR_C + k) == v
  {
    hide LExec, LR, AreaByte, AreaWord, Same, WordOf, MemByte, Misses, Wrap, PairBytes, LookupPair;
    LExecAppend(PairBytes(k), LookupPair(reg, k), l);
    var t1 := LExec(PairBytes(k), l);
    PairBytesRuns(k, l);
    SameReg(l, t1, {TP}, {VAR_D, VAR_D + 1}, reg);
    SameReg(l, t1, {TP}, {VAR_D, VAR_D + 1}, SP);
    SameMemory(l, t1, {TP}, {VAR_D, VAR_D + 1});
    var t2 := LExec(LookupPair(reg, k), t1);
    LookupPairRuns(reg, k, t1, v);
    SameWider(l, t1, {TP}, {VAR_D, VAR_D + 1}, {TP}, {VAR_D, VAR_D + 1, VAR_C + k});
    SameWider(t1, t2, {TP}, {VAR_C + k}, {TP}, {VAR_D, VAR_D + 1, VAR_C + k});
    SameChain(l, t1, t2, {TP}, {VAR_D, VAR_D + 1, VAR_C + k});
  }

  lemma PairBytesRuns(k: nat, l: Local)
    requires k < 4
    ensures var t := LExec(PairBytes(k), l);
            Same(l, t, {TP}, {VAR_D, VAR_D + 1})
            && AreaWord(t, VAR_D) == WordOf(AreaByte(l, VAR_B + k), AreaByte(l, VAR_A + k), AreaByte(l, VAR_D + 2), AreaByte(l, VAR_D + 3))
  {
    hide LExec, LR, AreaByte, LSet, SetByte, ByteOf, WordOf;
    Rules();
    LExec4(Lbu(TP, SP, VAR_A + k), Sb(TP, SP, VAR_D + 1), Lbu(TP, SP, VAR_B + k), Sb(TP, SP, VAR_D), l);
    ByteOfByte(AreaByte(l, VAR_A + k));
    ByteOfByte(AreaByte(l, VAR_B + k));
  }

  lemma LookupPairRuns(reg: nat, k: nat, l: Local, v: Byte)
    requires k < 4 && reg != TP
    requires var a := Wrap(LR(l, reg) + AreaWord(l, VAR_D)); MemByte(l.mem, a) == v && Misses(LR(l, SP), a, 1)
    ensures var t := LExec(LookupPair(reg, k), l);
            Same(l, t, {TP}, {VAR_C + k}) && AreaByte(t, VAR_C + k) == v
  {
    hide LExec, LR, AreaByte, AreaWord, LSet, SetByte, Touch, ByteOf, MemByte, Misses, Wrap;
    Rules();
    LExec4(Lw(TP, SP, VAR_D), Add(TP, reg, TP), Lbu(TP, TP, 0), Sb(TP, SP, VAR_C + k), l);
    ByteOfByte(v);
    WrapSmall(Wrap(LR(l, reg) + AreaWord(l, VAR_D)));
  }

  lemma LogicByteRuns(at: Layout, t: Table, reg: nat, k: nat, l: Local)
    requires Ready(at, l) && EntrySize(t) == 1 && k < 4 && reg != TP && LR(l, reg) == at.lut + Offset(t)
    requires AreaByte(l, VAR_D + 2) == 0 && AreaByte(l, VAR_D + 3) == 0
    ensures var u := LExec(LogicByte(reg, k), l);
            Same(l, u, {TP}, {VAR_D, VAR_D + 1, VAR_C + k})
            && AreaByte(u, VAR_C + k) == ByteOf(Entry(t, AreaByte(l, VAR_A + k), AreaByte(l, VAR_B + k)), 0)
  {
    hide *;
    var j, i := AreaByte(l, VAR_A + k), AreaByte(l, VAR_B + k);
    FetchByte(at, l, t, j, i);
    LutIndex(at, t, j, i);
    LogicByteSteps(reg, k, l, ByteOf(Entry(t, j, i), 0));
  }

  lemma LutIndex(at: Layout, t: Table, j: Byte, i: Byte)
    requires EntrySize(t) == 1
    ensures Wrap(at.lut + Offset(t) + WordOf(i, j, 0, 0)) == Wrap(at.lut + Position(t, j, 0, 0) + i)
  {
    WordOfIs(i, j, 0, 0);
  }

  /** Bytes `k` and up have been looked up, the lower ones are still to come. */
  ghost predicate LogicDone(t: Table, l: Local, u: Local, k: nat) {
    && Same(l, u, {TP}, Cells(VAR_C) + Cells(VAR_D))
    && AreaByte(u, VAR_D + 2) == 0 && AreaByte(u, VAR_D + 3) == 0
    && forall j: nat | k <= j < 4 :: ByteDone(t, l, u, j)
  }

  predicate ByteDone(t: Table, l: Local, u: Local, j: nat) {
    AreaByte(u, VAR_C + j) == ByteOf(Entry(t, AreaByte(l, VAR_A + j), AreaByte(l, VAR_B + j)), 0)
  }

  lemma LogicByteDone(at: Layout, t: Table, reg: nat, k: nat, l: Local, u: Local)
    requires Ready(at, l) && EntrySize(t) == 1 && reg !in {TP, SP} && LR(l, reg) == at.lut + Offset(t)
    requires k < 4 && LogicDone(t, l, u, k + 1)
    ensures LogicDone(t, l, LExec(LogicByte(reg, k), u), k)
  {
    hide LR, AreaByte, Ready, LExec, LogicByte, Entry, ByteOf, EntrySize, Offset;
    ReadyFrame(at, l, u, {TP}, Cells(VAR_C) + Cells(VAR_D));
    LogicByteRuns(at, t, reg, k, u);
    assert ByteDone(t, l, LExec(LogicByte(reg, k), u), k);
    assert VAR_C + k in Cells(VAR_C);
    forall j: nat | k < j < 4
      ensures ByteDone(t, l, LExec(LogicByte(reg, k), u), j)
    {
      assert ByteDone(t, l, u, j);
    }
  }

  lemma LogicBytesRuns(at: Layout, t: Table, reg: nat, l: Local)
    requires Ready(at, l) && EntrySize(t) == 1 && reg !in {TP, SP} && LR(l, reg) == at.lut + Offset(t)
    requires AreaWord(l, VAR_D) == 0
    ensures var u := LExec(LogicBytes(reg), l);
            Same(l, u, {TP}, Cells(VAR_C) + Cells(VAR_D))
            && AreaWord(u, VAR_C) == TableWord(t, AreaWord(l, VAR_A), AreaWord(l, VAR_B))
  {
    hide LR, AreaByte, Ready, LExec, LogicByte, Entry, ByteOf, WordOf, EntrySize, Offset, Same, Cells;
    Join4(LogicByte(reg, 3), LogicByte(reg, 2), LogicByte(reg, 1), LogicByte(reg, 0), l);
    LogicStart(t, l);
    LogicByteDone(at, t, reg, 3, l, l);
    var t1 := LExec(LogicByte(reg, 3), l);
    LogicByteDone(at, t, reg, 2, l, t1);
    var t2 := LExec(LogicByte(reg, 2), t1);
    LogicByteDone(at, t, reg, 1, l, t2);
    var t3 := LExec(LogicByte(reg, 1), t2);
    LogicByteDone(at, t, reg, 0, l, t3);
    LogicEnd(t, l, LExec(LogicByte(reg, 0), t3));
  }

  lemma LogicStart(t: Table, l: Local)
    requires AreaWord(l, VAR_D) == 0
    ensures LogicDone(t, l, l, 4)
  {
    hide LR, AreaByte, ByteOf, AreaWord;
    AreaWordBytes(l, VAR_D);
    BytesOfZero();
  }

  lemma LogicEnd(t: Table, l: Local, u: Local)
    requires LogicDone(t, l, u, 0)
    ensures AreaWord(u, VAR_C) == TableWord(t, AreaWord(l, VAR_A), AreaWord(l, VAR_B))
  {
    hide LR, AreaByte, ByteOf, WordOf, Same, Entry;
    AreaWordBytes(l, VAR_A);
    AreaWordBytes(l, VAR_B);
    assert ByteDone(t, l, u, 0) && ByteDone(t, l, u, 1) && ByteDone(t, l, u, 2) && ByteDone(t, l, u, 3);
  }

  lemma BytesOfZero()
    ensures forall k: nat :: k < 4 ==> ByteOf(0, k) == 0
  {
  }

  lemma AreaWordBytes(l: Local, k: int)
    ensures AreaByte(l, k) == ByteOf(AreaWord(l, k), 0) && AreaByte(l, k + 1) == ByteOf(AreaWord(l, k), 1)
    ensures AreaByte(l, k + 2) == ByteOf(AreaWord(l, k), 2) && AreaByte(l, k + 3) == ByteOf(AreaWord(l, k), 3)
  {
    hide AreaByte, WordOf, ByteOf;
    BytesOfWordOf(AreaByte(l, k), AreaByte(l, k + 1), AreaByte(l, k + 2), AreaByte(l, k + 3));
  }

  lemma LoadOne(r: nat, k: int, l: Local)
    requires IsLocal(SP, k, 4)
    ensures var t := LExec([Lw(r, SP, k)], l);
            Same(l, t, {r}, {}) && (r != X0 ==> LR(t, r) == AreaWord(l, k))
  {
    hide LExec, LR, AreaByte, LSet, AreaWord;
    Rules();
    LExec1(Lw(r, SP, k), l);
  }

  lemma LogicRuns(at: Layout, t: Table, rd: nat, rs1: nat, rs2: nat, l: Local)
    requires Ready(at, l) && EntrySize(t) == 1 && rd !in {X0, SP, TP}
    ensures var u := LExec(Logic(at, t, rd, rs1, rs2), l);
            Same(l, u, {rd, TP}, Cells(VAR_A) + Cells(VAR_B) + Cells(VAR_C) + Cells(VAR_D))
            && LR(u, rd) == TableWord(t, LR(l, rs1), LR(l, rs2))
  {
    hide LR, AreaWord, Ready, LExec, EntrySize, Offset, Same, StoreOperands, La, LogicBytes, TableWord;
    var addr := at.lut + Offset(t);
    Join5(StoreOperands(rs1, rs2), La(rd, addr), [Sw(X0, SP, VAR_D)], LogicBytes(rd), [Lw(rd, SP, VAR_C)], l);
    var rs, cs := {rd, TP}, Cells(VAR_A) + Cells(VAR_B) + Cells(VAR_C) + Cells(VAR_D);
    var t1 := LExec(StoreOperands(rs1, rs2), l);
    StoreOperandsRuns(rs1, rs2, l);
    SameWider(l, t1, {}, Cells(VAR_A) + Cells(VAR_B), rs, cs);
    var t2 := LExec(La(rd, addr), t1);
    OffsetInside(at, l, t);
    LaRuns(rd, addr, t1);
    SameWord(t1, t2, {rd}, {}, VAR_A);
    SameWord(t1, t2, {rd}, {}, VAR_B);
    SameWider(t1, t2, {rd}, {}, rs, cs);
    SameChain(l, t1, t2, rs, cs);
    var t3 := LExec([Sw(X0, SP, VAR_D)], t2);
    StoreOne(X0, VAR_D, t2);
    XZero(t2);
    SameWord(t2, t3, {}, Cells(VAR_D), VAR_A);
    SameWord(t2, t3, {}, Cells(VAR_D), VAR_B);
    SameReg(t2, t3, {}, Cells(VAR_D), rd);
    SameWider(t2, t3, {}, Cells(VAR_D), rs, cs);
    SameChain(l, t2, t3, rs, cs);
    ReadyFrame(at, l, t3, rs, cs);
    LogicTail(at, t, rd, l, t3);
  }

  lemma XZero(l: Local)
    ensures LR(l, X0) == 0
  {
  }

  lemma LogicTail(at: Layout, t: Table, rd: nat, l: Local, t3: Local)
    requires Ready(at, t3) && EntrySize(t) == 1 && rd !in {X0, SP, TP} && LR(t3, rd) == at.lut + Offset(t)
    requires AreaWord(t3, VAR_D) == 0
    requires Same(l, t3, {rd, TP}, Cells(VAR_A) + Cells(VAR_B) + Cells(VAR_C) + Cells(VAR_D))
    ensures var u := LExec([Lw(rd, SP, VAR_C)], LExec(LogicBytes(rd), t3));
            Same(l, u, {rd, TP}, Cells(VAR_A) + Cells(VAR_B) + Cells(VAR_C) + Cells(VAR_D))
            && LR(u, rd) == TableWord(t, AreaWord(t3, VAR_A), AreaWord(t3, VAR_B))
  {
    hide LR, AreaWord, Ready, LExec, EntrySize, Offset, Same, LogicBytes, TableWord;
    var rs, cs := {rd, TP}, Cells(VAR_A) + Cells(VAR_B) + Cells(VAR_C) + Cells(VAR_D);
    var t4 := LExec(LogicBytes(rd), t3);
    LogicBytesRuns(at, t, rd, t3);
    SameWider(t3, t4, {TP}, Cells(VAR_C) + Cells(VAR_D), rs, cs);
    SameChain(l, t3, t4, rs, cs);
    var t5 := LExec([Lw(rd, SP, VAR_C)], t4);
    LoadOne(rd, VAR_C, t4);
    SameWider(t4, t5, {rd}, {}, rs, cs);
    SameChain(l, t4, t5, rs, cs);
  }

  lemma StoreOperandsRuns(rs1: nat, rs2: nat, l: Local)
    ensures var t := LExec(StoreOperands(rs1, rs2), l);
            Same(l, t, {}, Cells(VAR_A) + Cells(VAR_B))
            && AreaWord(t, VAR_A) == LR(l, rs1) && AreaWord(t, VAR_B) == LR(l, rs2)
  {
    hide LR, AreaWord, LExec, Same;
    StoreTwo(rs1, VAR_A, rs2, VAR_B, l);
  }

  lemma OffsetInside(at: Layout, l: Local, t: Table)
    requires Ready(at, l)
    ensures 0 <= at.lut + Offset(t) < 0x1_0000_0000
  {
    hide TablesAt, SmallTablesAt;
  }
}
