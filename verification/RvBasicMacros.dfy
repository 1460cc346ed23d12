/**
 What the small macros of rvmini compute: address loads, byte extraction, constant left shifts, sign
 bit, complement and subtraction.
 */
module RvBasicMacros {
  import opened Bits
  import opened RvMachine
  import opened RvScratch
  import opened RvLut
  import opened RvMacros

  // ----- the setting of an expansion -----

  predicate Apart(a: int, n: int, b: int, m: int) {
    a + n <= b || b + m <= a
  }

  /** The symbol occupies `size` bytes, away from the scratch area and from the array `seq` writes to. */
  predicate Placed(at: Layout, sp: Word, a: Word, size: nat) {
    a + size <= 0x1_0000_0000 && Apart(a, size, sp - AREA, AREA) && Apart(a, size, at.checkSame, 256)
  }

  /** The read-only symbols, the `seq` array and the scratch area below `sp` do not overlap. */
  predicate Clear(at: Layout, sp: Word) {
    && sp >= AREA
    && at.checkSame + 256 <= 0x1_0000_0000 && Apart(at.checkSame, 256, sp - AREA, AREA)
    && Placed(at, sp, at.sameResult, 8) && Placed(at, sp, at.zero8, 256)
    && Placed(at, sp, at.slt1, 8) && Placed(at, sp, at.sltu1, 8) && Placed(at, sp, at.or1, 4)
    && Placed(at, sp, at.lut, LUT_SIZE)
  }

  function BoolWord(c: bool): Byte {
    if c then 1 else 0
  }

  /** The tables written out in inst-replace.h, lines 46-69. */
  ghost predicate SmallTablesAt(m: map<Word, Byte>, at: Layout) {
    && (forall a: Word :: at.sameResult <= a < at.sameResult + 5 ==> MemByte(m, a) == BoolWord(a == at.sameResult))
    && (forall a: Word :: at.zero8 <= a < at.zero8 + 256 ==> MemByte(m, a) == BoolWord(a != at.zero8))
    && (forall a: Word :: at.slt1 <= a < at.slt1 + 8 ==> MemByte(m, a) == BoolWord(a - at.slt1 in {1, 4, 5, 7}))
    && (forall a: Word :: at.sltu1 <= a < at.sltu1 + 8 ==> MemByte(m, a) == BoolWord(a - at.sltu1 in {1, 2, 3, 7}))
    && (forall a: Word :: at.or1 <= a < at.or1 + 4 ==> MemByte(m, a) == BoolWord(a != at.or1))
  }

  ghost predicate Ready(at: Layout, l: Local) {
    l.ok && Clear(at, LR(l, SP)) && TablesAt(l.mem, at.lut) && SmallTablesAt(l.mem, at)
  }

  lemma ReadyFrame(at: Layout, l: Local, t: Local, regs: set<nat>, cells: set<int>)
    requires Ready(at, l) && Same(l, t, regs, cells) && SP !in regs
    ensures Ready(at, t)
  {
    hide LExec, LR, Clear, TablesAt, SmallTablesAt;
  }

  /** A byte-table entry can be fetched. */
  lemma FetchByte(at: Layout, l: Local, t: Table, j: nat, i: Byte)
    requires Ready(at, l) && EntrySize(t) == 1 && j < 256
    ensures var a := Wrap(at.lut + Position(t, j, 0, 0) + i);
            a == at.lut + Offset(t) + j * 256 + i
            && MemByte(l.mem, a) == ByteOf(Entry(t, j, i), 0) && Misses(LR(l, SP), a, 1)
  {
    hide Entry, ByteOf, MemByte, SmallTablesAt, Clear, Offset, Wrap, Misses;
    BytePlace(t, j, i);
    LutInMemory(at, LR(l, SP), Offset(t) + j * 256 + i, 1);
    WrapSmall(at.lut + Offset(t) + j * 256 + i);
    assert Position(t, j, i, 0) == Offset(t) + j * 256 + i;
  }

  lemma BytePlace(t: Table, j: nat, i: Byte)
    requires EntrySize(t) == 1 && j < 256
    ensures Rows(t) == 256 && Offset(t) + j * 256 + i + 1 <= LUT_SIZE
  {
  }

  lemma WordPlace(t: Table, j: nat, i: Byte)
    requires EntrySize(t) == 4 && j < 32
    ensures Offset(t) + j * 1024 + i * 4 + 4 <= LUT_SIZE && Position(t, j, 0, 0) == Offset(t) + j * 1024
  {
  }

  lemma LutInMemory(at: Layout, sp: Word, k: nat, n: nat)
    requires Clear(at, sp) && 0 < n && k + n <= LUT_SIZE
    ensures at.lut + k + n <= 0x1_0000_0000 && Misses(sp, at.lut + k, n)
  {
  }

  /** A word-table entry can be fetched. */
  lemma FetchWord(at: Layout, l: Local, t: Table, j: nat, i: Byte)
    requires Ready(at, l) && EntrySize(t) == 4 && j < 32
    ensures var a := Wrap(at.lut + Position(t, j, 0, 0) + i * 4);
            a == at.lut + Offset(t) + j * 1024 + i * 4
            && MemWord(l.mem, a) == Entry(t, j, i) && Misses(LR(l, SP), a, 4)
  {
    hide Entry, ByteOf, MemByte, WordOf, SmallTablesAt, Clear, TablesAt, Offset, Misses, Wrap;
    WordPlace(t, j, i);
    LutInMemory(at, LR(l, SP), Offset(t) + j * 1024 + i * 4, 4);
    WrapSmall(at.lut + Offset(t) + j * 1024 + i * 4);
    FetchWordBytes(at, l, t, j, i);
    WordOfBytesOf(Entry(t, j, i));
  }

  lemma FetchWordBytes(at: Layout, l: Local, t: Table, j: nat, i: Byte)
    requires Ready(at, l) && EntrySize(t) == 4 && j < 32
    ensures var a := Wrap(at.lut + Position(t, j, 0, 0) + i * 4);
            && MemByte(l.mem, a) == ByteOf(Entry(t, j, i), 0) && MemByte(l.mem, Wrap(a + 1)) == ByteOf(Entry(t, j, i), 1)
            && MemByte(l.mem, Wrap(a + 2)) == ByteOf(Entry(t, j, i), 2) && MemByte(l.mem, Wrap(a + 3)) == ByteOf(Entry(t, j, i), 3)
  {
    hide Entry, ByteOf, MemByte, SmallTablesAt, Clear, Wrap, TablesAt, Position, EntrySize;
    var p := at.lut + Position(t, j, 0, 0) + i * 4;
    FetchWordByte(at, l, t, j, i, 0, p);
    FetchWordByte(at, l, t, j, i, 1, p);
    FetchWordByte(at, l, t, j, i, 2, p);
    FetchWordByte(at, l, t, j, i, 3, p);
  }

  lemma FetchWordByte(at: Layout, l: Local, t: Table, j: nat, i: Byte, k: nat, p: int)
    requires Ready(at, l) && EntrySize(t) == 4 && j < 32 && k < 4 && p == at.lut + Position(t, j, 0, 0) + i * 4
    ensures MemByte(l.mem, if k == 0 then Wrap(p) else Wrap(Wrap(p) + k)) == ByteOf(Entry(t, j, i), k)
  {
    hide Entry, ByteOf, MemByte, SmallTablesAt, Clear, Wrap;
    assert Rows(t) == 32;
    assert Position(t, j, i, k) == Position(t, j, 0, 0) + i * 4 + k;
    WrapPlus(p, k);
    assert MemByte(l.mem, Wrap(at.lut + Position(t, j, i, k))) == ByteOf(Entry(t, j, i), k);
  }

  lemma WrapPlus(x: int, k: int)
    ensures Wrap(Wrap(x) + k) == Wrap(x + k)
  {
    var q := WrapSplit(x);
    WrapShift(Wrap(x) + k, q);
  }

  lemma EntrySizes()
    ensures EntrySize(AndTable) == EntrySize(OrTable) == EntrySize(XorTable) == 1
    ensures EntrySize(SllTable) == EntrySize(SrlTable) == EntrySize(SraTable) == 4
  {
  }

  // ----- arithmetic on words -----

  lemma WrapSmall(x: int)
    requires 0 <= x < 0x1_0000_0000
    ensures Wrap(x) == x
  {
  }

  lemma WrapAdd(x: int, y: int)
    ensures Wrap(Wrap(x) + y) == Wrap(x + y)
    ensures Wrap(x + Wrap(y)) == Wrap(x + y)
  {
    WrapPlus(x, y);
    WrapPlus(y, x);
  }

  lemma ByteOfByte(b: Byte)
    ensures ByteOf(b, 0) == b
  {
  }

  lemma {:induction false} ShlWrap(x: nat, k: nat)
    ensures Wrap(Shl(Wrap(x), k)) == Wrap(Shl(x, k))
  {
    if k > 0 {
      ShlWrap(x, k - 1);
      DoubleWrap(Shl(Wrap(x), k - 1));
      DoubleWrap(Shl(x, k - 1));
    }
  }

  /** Multiples of 2^32 do not show. */
  lemma WrapShift(x: int, q: int)
    ensures Wrap(x + W32 * q) == Wrap(x)
  {
    ModPlusMultiple(x, q, W32);
  }

  lemma WrapSplit(x: int) returns (q: int)
    ensures x == Wrap(x) + W32 * q
  {
    q := x / W32;
  }

  lemma DoubleWrap(x: nat)
    ensures Wrap(Wrap(x) + Wrap(x)) == Wrap(2 * x)
  {
    hide Wrap;
    var q := WrapSplit(x);
    WrapShift(2 * x, -2 * q);
  }

  lemma ShlByConstant(x: nat)
    ensures Shl(x, 1) == 2 * x && Shl(x, 2) == 4 * x && Shl(x, 8) == 256 * x
    ensures Shl(x, 16) == 0x1_0000 * x && Shl(x, 24) == 0x100_0000 * x
  {
    ShlIsMul(x, 8);
    ShlIsMul(x, 16);
    ShlIsMul(x, 24);
    ShiftPowers();
    hide Pow2;
  }

  lemma ShiftPowers()
    ensures Pow2(8) == 0x100 && Pow2(16) == 0x1_0000 && Pow2(24) == 0x100_0000
  {
    WidthPowers();
    Pow2Add(16, 8);
    ShlIsMul(Pow2(16), 8);
    hide Pow2, Shl;
  }

  // ----- address loads -----

  lemma LaRuns(r: nat, addr: int, l: Local)
    requires 0 <= addr < 0x1_0000_0000 && r != X0
    ensures var t := LExec(La(r, addr), l);
            Same(l, t, {r}, {}) && LR(t, r) == addr
  {
    var low := (addr + 0x800) % 0x1000 - 0x800;
    var upper := (addr - low) / 0x1000 % 0x10_0000;
    UpperLower(addr);
    LaSteps(r, upper, low, l);
  }

  lemma LaSteps(r: nat, upper: nat, low: int, l: Local)
    requires r != X0
    ensures var t := LExec([Lui(r, upper), Addi(r, r, low)], l);
            Same(l, t, {r}, {}) && LR(t, r) == Wrap(Wrap(upper * 0x1000) + low)
  {
    LExec2(Lui(r, upper), Addi(r, r, low), l);
    hide LExec, LR, AreaByte, LSet, Wrap;
    Rules();
  }

  lemma UpperLower(addr: int)
    requires 0 <= addr < 0x1_0000_0000
    ensures var low := (addr + 0x800) % 0x1000 - 0x800;
            Wrap(Wrap((addr - low) / 0x1000 % 0x10_0000 * 0x1000) + low) == addr
  {
    var low := (addr + 0x800) % 0x1000 - 0x800;
    var upper := (addr - low) / 0x1000;
    assert addr == upper * 0x1000 + low && 0 <= upper <= 0x10_0000;
  }

  // ----- slots -----

  lemma StoreTwo(r1: nat, k1: int, r2: nat, k2: int, l: Local)
    requires IsLocal(SP, k1, 4) && IsLocal(SP, k2, 4) && Cells(k1) !! Cells(k2)
    ensures var t := LExec([Sw(r1, SP, k1), Sw(r2, SP, k2)], l);
            Same(l, t, {}, Cells(k1) + Cells(k2)) && AreaWord(t, k1) == LR(l, r1) && AreaWord(t, k2) == LR(l, r2)
  {
    hide LExec, AreaWord, Same, LR;
    assert [Sw(r1, SP, k1), Sw(r2, SP, k2)] == [Sw(r1, SP, k1)] + [Sw(r2, SP, k2)];
    LExecAppend([Sw(r1, SP, k1)], [Sw(r2, SP, k2)], l);
    var t1 := LExec([Sw(r1, SP, k1)], l);
    StoreOne(r1, k1, l);
    SameReg(l, t1, {}, Cells(k1), r2);
    var t2 := LExec([Sw(r2, SP, k2)], t1);
    StoreOne(r2, k2, t1);
    SameWord(t1, t2, {}, Cells(k2), k1);
    SameWider(l, t1, {}, Cells(k1), {}, Cells(k1) + Cells(k2));
    SameWider(t1, t2, {}, Cells(k2), {}, Cells(k1) + Cells(k2));
    SameChain(l, t1, t2, {}, Cells(k1) + Cells(k2));
  }

  lemma StoreOne(r: nat, k: int, l: Local)
    requires IsLocal(SP, k, 4)
    ensures var t := LExec([Sw(r, SP, k)], l);
            Same(l, t, {}, Cells(k)) && AreaWord(t, k) == LR(l, r)
  {
    LExec1(Sw(r, SP, k), l);
    hide LExec, LR, AreaByte, LSet, SetWord, ByteOf, WordOf;
    Rules();
    WordOfBytesOf(LR(l, r));
  }

  lemma LoadTwo(r1: nat, k1: int, r2: nat, k2: int, l: Local)
    requires IsLocal(SP, k1, 4) && IsLocal(SP, k2, 4) && r1 != SP
    ensures var t := LExec([Lw(r1, SP, k1), Lw(r2, SP, k2)], l);
            Same(l, t, {r1, r2}, {})
            && (r1 != X0 && r1 != r2 ==> LR(t, r1) == AreaWord(l, k1)) && (r2 != X0 ==> LR(t, r2) == AreaWord(l, k2))
  {
    LExec2(Lw(r1, SP, k1), Lw(r2, SP, k2), l);
    hide LExec, LR, AreaByte, LSet, WordOf;
    Rules();
  }

  // ----- bytes and constant shifts -----

  lemma GetByteRuns(rd: nat, rs1: nat, k: nat, l: Local)
    requires k < 4
    ensures var t := LExec(GetByte(rd, rs1, k), l);
            Same(l, t, {rd}, Cells(VAR_C)) && (rd != X0 ==> LR(t, rd) == ByteOf(LR(l, rs1), k))
  {
    LExec2(Sw(rs1, SP, VAR_C), Lbu(rd, SP, VAR_C + k), l);
    hide LExec, LR, AreaByte, LSet, SetWord, ByteOf;
    Rules();
  }

  lemma AddRuns(rd: nat, rs1: nat, l: Local)
    ensures var t := LExec([Add(rd, rs1, rs1)], l);
            Same(l, t, {rd}, {}) && (rd != X0 ==> LR(t, rd) == Wrap(2 * LR(l, rs1)))
  {
    LExec1(Add(rd, rs1, rs1), l);
    hide LExec, LR, AreaByte, LSet, Wrap;
    Rules();
  }

  lemma {:induction false} DoublingRuns(rd: nat, n: nat, l: Local)
    ensures var t := LExec(Doubling(rd, n), l);
            Same(l, t, {rd}, {}) && (rd != X0 ==> LR(t, rd) == Wrap(Shl(LR(l, rd), n)))
  {
    if n > 0 {
      LExecAppend([Add(rd, rd, rd)], Doubling(rd, n - 1), l);
      AddRuns(rd, rd, l);
      var t1 := LExec([Add(rd, rd, rd)], l);
      DoublingRuns(rd, n - 1, t1);
      var v: nat := LR(l, rd);
      hide LR, AreaByte, Wrap, Shl, LExec;
      ShlWrap(2 * v, n - 1);
      ShlDouble(v, n - 1);
    } else {
      WrapSmall(LR(l, rd));
    }
  }

  lemma MoveRuns(rd: nat, rs1: nat, l: Local)
    ensures var t := LExec(Slli(rd, rs1, 0), l);
            Same(l, t, {rd}, {}) && (rd != X0 ==> LR(t, rd) == Wrap(Shl(LR(l, rs1), 0)))
  {
    assert rd == rs1 ==> LExec(Slli(rd, rs1, 0), l) == l;
    hide LR, AreaByte, LExec, LSet;
    Rules();
    LExec1(Mv(rd, rs1), l);
    WrapSmall(LR(l, rs1));
  }

  lemma SlliShortRuns(rd: nat, rs1: nat, imm: nat, l: Local)
    requires imm < 16
    ensures var t := LExec(Slli(rd, rs1, imm), l);
            Same(l, t, {rd}, {}) && (rd != X0 ==> LR(t, rd) == Wrap(Shl(LR(l, rs1), imm)))
  {
    hide LR, AreaByte, Wrap, Shl, LExec, LSet, Doubling;
    if imm == 0 {
      MoveRuns(rd, rs1, l);
    } else {
      LExecAppend([Add(rd, rs1, rs1)], Doubling(rd, imm - 1), l);
      AddRuns(rd, rs1, l);
      var t1 := LExec([Add(rd, rs1, rs1)], l);
      DoublingRuns(rd, imm - 1, t1);
      var v: nat := LR(l, rs1);
      ShlWrap(2 * v, imm - 1);
      ShlDouble(v, imm - 1);
    }
  }

  lemma MsbRuns(rd: nat, rs1: nat, l: Local)
    requires rd != SP
    ensures var t := LExec(Msb(rd, rs1), l);
            Same(l, t, {rd}, Cells(VAR_C)) && (rd != X0 ==> LR(t, rd) == LR(l, rs1) / 0x8000_0000)
  {
    var c1, c2, c3 := GetByte(rd, rs1, 3), Slli(rd, rd, 1), GetByte(rd, rd, 1);
    LExecAppend(c1 + c2, c3, l);
    LExecAppend(c1, c2, l);
    var t1 := LExec(c1, l);
    GetByteRuns(rd, rs1, 3, l);
    var t2 := LExec(c2, t1);
    SlliShortRuns(rd, rd, 1, t1);
    GetByteRuns(rd, rd, 1, t2);
    SignOfByte(LR(l, rs1));
  }

  lemma SignOfByte(w: Word)
    ensures ByteOf(Wrap(Shl(ByteOf(w, 3), 1)), 1) == w / 0x8000_0000
  {
    ShlByConstant(ByteOf(w, 3));
    hide Shl;
    WrapSmall(2 * ByteOf(w, 3));
    TopBitOf(w);
  }

  lemma TopBitOf(w: Word)
    ensures 2 * (w / 0x100 / 0x100 / 0x100) / 0x100 % 0x100 == w / 0x8000_0000
  {
    assert w / 0x100 / 0x100 / 0x100 == w / 0x100_0000;
    if w < 0x8000_0000 {
      assert w / 0x100_0000 < 128;
    } else {
      assert 128 <= w / 0x100_0000 < 256;
    }
  }

  // ----- complement and subtraction -----

  lemma NotByteRuns(at: Layout, k: nat, l: Local)
    requires k < 4 && Ready(at, l) && LR(l, TP) == at.lut + Position(XorTable, 0xff, 0, 0)
    ensures var t := LExec(NotByte(k), l);
            Same(l, t, {GP}, {VAR_D + k}) && AreaByte(t, VAR_D + k) == 255 - AreaByte(l, VAR_C + k)
  {
    hide *;
    assert EntrySize(XorTable) == 1 by { EntrySizes(); }
    var i := AreaByte(l, VAR_C + k);
    FetchByte(at, l, XorTable, 0xff, i);
    ComplementEntry(i);
    NotByteSteps(k, l, 255 - i);
  }

  lemma NotByteSteps(k: nat, l: Local, v: Byte)
    requires k < 4
    requires var a := Wrap(LR(l, TP) + AreaByte(l, VAR_C + k));
             MemByte(l.mem, a) == v && Misses(LR(l, SP), a, 1)
    ensures var t := LExec(NotByte(k), l);
            Same(l, t, {GP}, {VAR_D + k}) && AreaByte(t, VAR_D + k) == v
  {
    hide LExec, LR, AreaByte, LSet, SetByte, Touch, ByteOf, MemByte, Misses, Wrap;
    Rules();
    var a := Wrap(LR(l, TP) + AreaByte(l, VAR_C + k));
    LExec4(Lbu(GP, SP, VAR_C + k), Add(GP, GP, TP), Lbu(GP, GP, 0), Sb(GP, SP, VAR_D + k), l);
    ByteOfByte(v);
    WrapSmall(a);
  }

  lemma ComplementEntry(i: Byte)
    ensures ByteOf(Entry(XorTable, 0xff, i), 0) == 255 - i
  {
    ByteComplement(i);
    hide Xor;
    WrapSmall(255 - i);
    ByteOfByte(255 - i);
  }

  lemma ByteComplement(i: Byte)
    ensures Xor(0xff, i) == 255 - i
  {
    hide Xor, Pow2;
    assert Pow2(8) == 256 by { WidthPowers(); }
    XorOnes(i, 8);
    XorSymmetric(255, i);
  }

  lemma NotBytesRuns(at: Layout, l: Local)
    requires Ready(at, l) && LR(l, TP) == at.lut + Position(XorTable, 0xff, 0, 0)
    ensures var t := LExec(NotBytes(), l);
            Same(l, t, {GP}, Cells(VAR_D)) && AreaWord(t, VAR_D) == 0xFFFF_FFFF - AreaWord(l, VAR_C)
  {
    hide LR, AreaByte, Ready, Position, LExec, WordOf, Same, NotByte;
    Join4(NotByte(3), NotByte(2), NotByte(1), NotByte(0), l);
    NoCode(l, {GP}, Cells(VAR_D));
    var t1 := LExec(NotByte(3), l);
    NotByteNext(at, 3, l, l);
    var t2 := LExec(NotByte(2), t1);
    NotByteNext(at, 2, l, t1);
    var t3 := LExec(NotByte(1), t2);
    NotByteNext(at, 1, l, t2);
    NotByteNext(at, 0, l, t3);
    ComplementBytes(AreaByte(l, VAR_C), AreaByte(l, VAR_C + 1), AreaByte(l, VAR_C + 2), AreaByte(l, VAR_C + 3));
  }

  lemma NoCode(l: Local, regs: set<nat>, cells: set<int>)
    ensures Same(l, l, regs, cells)
  {
  }

  /** One more byte, with the other bytes of the result as they are. */
  lemma NotByteNext(at: Layout, k: nat, l: Local, t: Local)
    requires k < 4 && Ready(at, t) && Same(l, t, {GP}, Cells(VAR_D)) && LR(t, TP) == at.lut + Position(XorTable, 0xff, 0, 0)
    ensures var u := LExec(NotByte(k), t);
            && Ready(at, u) && Same(l, u, {GP}, Cells(VAR_D)) && LR(u, TP) == at.lut + Position(XorTable, 0xff, 0, 0)
            && AreaByte(u, VAR_D + k) == 255 - AreaByte(l, VAR_C + k)
            && forall j: int :: j != VAR_D + k ==> AreaByte(u, j) == AreaByte(t, j)
  {
    hide LR, AreaByte, Ready, Position, LExec, NotByte;
    var u := LExec(NotByte(k), t);
    NotByteRuns(at, k, t);
    ReadyFrame(at, t, u, {GP}, {VAR_D + k});
    SameWider(t, u, {GP}, {VAR_D + k}, {GP}, Cells(VAR_D));
  }

  lemma ComplementBytes(b0: Byte, b1: Byte, b2: Byte, b3: Byte)
    ensures WordOf(255 - b0, 255 - b1, 255 - b2, 255 - b3) == 0xFFFF_FFFF - WordOf(b0, b1, b2, b3)
  {
    WordOfIs(b0, b1, b2, b3);
    WordOfIs(255 - b0, 255 - b1, 255 - b2, 255 - b3);
  }

  lemma NotRuns(at: Layout, rd: nat, rs1: nat, l: Local)
    requires Ready(at, l)
    ensures var t := LExec(Not(at, rd, rs1), l);
            Same(l, t, {rd, TP}, Cells(SAVE_3) + Cells(VAR_C) + Cells(VAR_D))
            && (rd != X0 ==> LR(t, rd) == 0xFFFF_FFFF - LR(l, rs1))
  {
    hide LR, AreaByte, AreaWord, Ready, Position, LExec, Same, NotBytes, La, Cells;
    SlotsApart();
    var addr := at.lut + Position(XorTable, 0xff, 0, 0);
    var c1, c4 := [Sw(GP, SP, SAVE_3), Sw(rs1, SP, VAR_C)], [Lw(GP, SP, SAVE_3), Lw(rd, SP, VAR_D)];
    Join4(c1, La(TP, addr), NotBytes(), c4, l);
    var t1 := LExec(c1, l);
    StoreTwo(GP, SAVE_3, rs1, VAR_C, l);
    ReadyFrame(at, l, t1, {}, Cells(SAVE_3) + Cells(VAR_C));
    var t2 := LExec(La(TP, addr), t1);
    LutAddress(at, l, XorTable, 0xff);
    LaRuns(TP, addr, t1);
    SameWord(t1, t2, {TP}, {}, VAR_C);
    SameWord(t1, t2, {TP}, {}, SAVE_3);
    ReadyFrame(at, t1, t2, {TP}, {});
    var t3 := LExec(NotBytes(), t2);
    NotBytesRuns(at, t2);
    SameWord(t2, t3, {GP}, Cells(VAR_D), SAVE_3);
    var t4 := LExec(c4, t3);
    LoadTwo(GP, SAVE_3, rd, VAR_D, t3);
    NotRestores(rd, l, t1, t2, t3, t4);
  }

  lemma SlotsApart()
    ensures IsLocal(SP, SAVE_3, 4) && IsLocal(SP, VAR_C, 4) && IsLocal(SP, VAR_D, 4)
    ensures Cells(SAVE_3) !! Cells(VAR_C) && Cells(SAVE_3) !! Cells(VAR_D) && Cells(SAVE_3) !! {} && Cells(VAR_C) !! {}
  {
  }

  /** `gp` is given back. */
  lemma NotRestores(rd: nat, l: Local, t1: Local, t2: Local, t3: Local, t4: Local)
    requires Same(l, t1, {}, Cells(SAVE_3) + Cells(VAR_C)) && Same(t1, t2, {TP}, {}) && Same(t2, t3, {GP}, Cells(VAR_D))
    requires Same(t3, t4, {GP, rd}, {}) && (rd != GP ==> LR(t4, GP) == LR(l, GP))
    ensures Same(l, t4, {rd, TP}, Cells(SAVE_3) + Cells(VAR_C) + Cells(VAR_D))
  {
    hide Cells, LR, AreaByte;
  }

  lemma LutAddress(at: Layout, l: Local, t: Table, j: nat)
    requires Ready(at, l) && j < Rows(t)
    ensures 0 <= at.lut + Position(t, j, 0, 0) < 0x1_0000_0000
  {
    hide TablesAt, SmallTablesAt;
  }
}
