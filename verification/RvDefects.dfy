/**
 The four uses in which a macro of rvmini spoils what it still needs, and when they work all the same:
 `seqz` with `s0` or `sp` as its target, and `sltz` and `lb` with `sp`
 (abstract-machine/tools/rvmini/inst-replace.h, lines 120-124, 253-271, 568-574, 664-666).
 */
module RvDefects {
  import opened Bits
  import opened RvMachine
  import opened RvScratch
  import opened RvLut
  import opened RvMacros
  import opened RvBasicMacros
  import opened RvCompare
  import opened RvLogic
  import opened RvEqual
  import opened RvShift
  import opened RvShiftRuns
  import opened RvMemory
  import opened RvRefine
  import opened RvKeepsSp
  import opened RvSpec
  import opened RvLift
  import opened RvInstr

  /** The expansion has the instruction's effect. */
  ghost predicate Works(at: Layout, i: Instr, s: State) {
    Close(at, R(s, SP), Effect(i, s), Exec(Code(at, i), s))
  }

  // ----- stores that go astray -----

  /** Storing `v` at `a` does not show: the byte is scratch, or it holds `v` already. */
  predicate Harmless(at: Layout, s: State, a: Word, v: Byte) {
    R(s, SP) - AREA <= a < R(s, SP) || InCheck(at, a) || MemByte(s.mem, a) == v
  }

  predicate HarmlessWord(at: Layout, s: State, a: Word, w: Word) {
    && Harmless(at, s, a, ByteOf(w, 0)) && Harmless(at, s, Wrap(a + 1), ByteOf(w, 1))
    && Harmless(at, s, Wrap(a + 2), ByteOf(w, 2)) && Harmless(at, s, Wrap(a + 3), ByteOf(w, 3))
  }

  /** The memory outside the scratch area and the marking array is that of `s`. */
  ghost predicate MemoryKept(at: Layout, s: State, m: map<Word, Byte>) {
    forall a: Word :: Harmless(at, s, a, MemByte(m, a))
  }

  predicate InWord(a: Word, b: Word) {
    b == a || b == Wrap(a + 1) || b == Wrap(a + 2) || b == Wrap(a + 3)
  }

  lemma StoreWordAt(m: map<Word, Byte>, a: Word, w: Word, b: Word)
    ensures MemByte(StoreWord(m, a, w), a) == ByteOf(w, 0)
    ensures MemByte(StoreWord(m, a, w), Wrap(a + 1)) == ByteOf(w, 1)
    ensures MemByte(StoreWord(m, a, w), Wrap(a + 2)) == ByteOf(w, 2)
    ensures MemByte(StoreWord(m, a, w), Wrap(a + 3)) == ByteOf(w, 3)
    ensures !InWord(a, b) ==> MemByte(StoreWord(m, a, w), b) == MemByte(m, b)
  {
    hide ByteOf;
  }

  /** Storing a word over memory that is kept keeps it exactly when the word is harmless. */
  lemma StoreKeeps(at: Layout, s: State, m: map<Word, Byte>, a: Word, w: Word)
    requires forall b: Word :: InWord(a, b) || Harmless(at, s, b, MemByte(m, b))
    ensures MemoryKept(at, s, StoreWord(m, a, w)) <==> HarmlessWord(at, s, a, w)
  {
    hide Harmless, MemByte, StoreWord, ByteOf, Wrap;
    var m' := StoreWord(m, a, w);
    StoreWordAt(m, a, w, a);
    if MemoryKept(at, s, m') {
      assert Harmless(at, s, a, MemByte(m', a)) && Harmless(at, s, Wrap(a + 1), MemByte(m', Wrap(a + 1)));
      assert Harmless(at, s, Wrap(a + 2), MemByte(m', Wrap(a + 2))) && Harmless(at, s, Wrap(a + 3), MemByte(m', Wrap(a + 3)));
    }
    if HarmlessWord(at, s, a, w) {
      forall b: Word
        ensures Harmless(at, s, b, MemByte(m', b))
      {
        StoreWordAt(m, a, w, b);
      }
    }
  }

  lemma AreaAddresses(sp: Word, k: int, a: Word)
    requires sp >= AREA && -AREA <= k <= -4 && InWord(Wrap(sp + k), a)
    ensures sp - AREA <= a < sp
  {
  }

  /** A word stored in a scratch slot does not show. */
  lemma SlotKept(at: Layout, s: State, k: int, w: Word, a: Word)
    requires R(s, SP) >= AREA && -AREA <= k <= -4
    ensures Harmless(at, s, a, MemByte(StoreWord(s.mem, Wrap(R(s, SP) + k), w), a))
  {
    hide MemByte, StoreWord, Wrap, InWord, InCheck;
    if InWord(Wrap(R(s, SP) + k), a) {
      AreaAddresses(R(s, SP), k, a);
    } else {
      StoreWordAt(s.mem, Wrap(R(s, SP) + k), w, a);
    }
  }

  // ----- sltz sp -----

  /** The code of `sltz sp, rs`, without the slot that it fills first. */
  lemma SltzCode(at: Layout, rs: nat, s: State)
    ensures var i := IsNegative(SP, rs);
            Exec(Code(at, i), s)
            == Exec([Sw(SP, SP, VAR_C), Lbu(SP, SP, VAR_C + 1)], Exec([Sw(rs, SP, VAR_C), Lbu(SP, SP, VAR_C + 3), Add(SP, SP, SP)], s))
  {
    hide Exec;
    var c1, c2 := [Sw(rs, SP, VAR_C), Lbu(SP, SP, VAR_C + 3), Add(SP, SP, SP)], [Sw(SP, SP, VAR_C), Lbu(SP, SP, VAR_C + 1)];
    assert Doubling(SP, 0) == [];
    assert Slli(SP, SP, 1) == [Add(SP, SP, SP)];
    assert Code(at, IsNegative(SP, rs)) == c1 + c2;
    ExecAppend(c1, c2, s);
  }

  /** Where `sltz` stores, and what: twice the top byte of the operand. */
  function TwiceTop(x: Word): Word {
    2 * ByteOf(x, 3)
  }

  lemma SltzFirst(rs: nat, s: State)
    ensures var t := Exec([Sw(rs, SP, VAR_C), Lbu(SP, SP, VAR_C + 3), Add(SP, SP, SP)], s);
            && t.mem == StoreWord(s.mem, Wrap(R(s, SP) + VAR_C), R(s, rs))
            && forall r: nat :: R(t, r) == R(SetR(s, SP, TwiceTop(R(s, rs))), r)
  {
    Exec3(Sw(rs, SP, VAR_C), Lbu(SP, SP, VAR_C + 3), Add(SP, SP, SP), s);
    hide Exec, StoreWord, MemByte, ByteOf, Wrap;
    StoreWordAt(s.mem, Wrap(R(s, SP) + VAR_C), R(s, rs), 0);
    WordAddresses(R(s, SP), VAR_C, 3);
    WrapSmall(TwiceTop(R(s, rs)));
  }

  lemma SltzSecond(t: State)
    ensures var u := Exec([Sw(SP, SP, VAR_C), Lbu(SP, SP, VAR_C + 1)], t);
            && u.mem == StoreWord(t.mem, Wrap(R(t, SP) + VAR_C), R(t, SP))
            && forall r: nat :: R(u, r) == R(SetR(t, SP, ByteOf(R(t, SP), 1)), r)
  {
    Exec2(Sw(SP, SP, VAR_C), Lbu(SP, SP, VAR_C + 1), t);
    hide Exec, StoreWord, MemByte, ByteOf, Wrap;
    StoreWordAt(t.mem, Wrap(R(t, SP) + VAR_C), R(t, SP), 0);
    WordAddresses(R(t, SP), VAR_C, 1);
  }

  lemma TwiceTopSign(x: Word)
    ensures ByteOf(TwiceTop(x), 1) == BoolWord(SignedWord(x) < 0)
  {
  }

  /**
   `sltz sp, rs` gets its truth value, but it uses a slot below the half finished result.  So it works
   exactly when the four bytes it stores there do not show.
   */
  lemma SltzToSpWorksExactlyWhen(at: Layout, rs: nat, s: State)
    requires Placement(at, s)
    ensures Works(at, IsNegative(SP, rs), s)
            <==> HarmlessWord(at, s, Wrap(TwiceTop(R(s, rs)) + VAR_C), TwiceTop(R(s, rs)))
  {
    hide Exec, Code, Close, StoreWord, MemByte, ByteOf, Wrap, Harmless, HarmlessWord, MemoryKept, TwiceTop, Clear, TablesAt, SmallTablesAt, InWord;
    var v := TwiceTop(R(s, rs));
    AreaBelow(at, s);
    SltzCode(at, rs, s);
    SltzFirst(rs, s);
    var t := Exec([Sw(rs, SP, VAR_C), Lbu(SP, SP, VAR_C + 3), Add(SP, SP, SP)], s);
    SltzSecond(t);
    TwiceTopSign(R(s, rs));
    forall b: Word
      ensures Harmless(at, s, b, MemByte(t.mem, b))
    {
      SlotKept(at, s, VAR_C, R(s, rs), b);
    }
    StoreKeeps(at, s, t.mem, Wrap(v + VAR_C), v);
    var u := Exec(Code(at, IsNegative(SP, rs)), s);
    SetOver(s, t, u, v, BoolWord(SignedWord(R(s, rs)) < 0));
    CloseIsKept(at, s, SP, BoolWord(SignedWord(R(s, rs)) < 0), u);
  }

  /** When the registers are right, all depends on the memory. */
  lemma CloseIsKept(at: Layout, s: State, rd: nat, v: Word, u: State)
    requires forall r: nat :: r !in {TP, GP} ==> R(u, r) == R(SetR(s, rd, v), r)
    ensures Close(at, R(s, SP), SetR(s, rd, v), u) <==> MemoryKept(at, s, u.mem)
  {
    hide MemByte, InCheck, R;
    assert SetR(s, rd, v).mem == s.mem;
    if Close(at, R(s, SP), SetR(s, rd, v), u) {
      assert forall a: Word :: Harmless(at, s, a, MemByte(u.mem, a));
    }
    if MemoryKept(at, s, u.mem) {
      forall a: Word | !(R(s, SP) - AREA <= a < R(s, SP)) && !InCheck(at, a)
        ensures MemByte(u.mem, a) == MemByte(s.mem, a)
      {
        assert Harmless(at, s, a, MemByte(u.mem, a));
      }
    }
  }

  /** Setting `sp` a second time. */
  lemma SetOver(s: State, t: State, u: State, v: Word, w: Word)
    requires forall r: nat :: R(t, r) == R(SetR(s, SP, v), r)
    requires forall r: nat :: R(u, r) == R(SetR(t, SP, w), r)
    ensures R(t, SP) == v && forall r: nat :: R(u, r) == R(SetR(s, SP, w), r)
  {
    forall r: nat
      ensures R(u, r) == R(SetR(s, SP, w), r)
    {
      assert R(u, r) == R(SetR(t, SP, w), r) && R(t, r) == R(SetR(s, SP, v), r);
    }
    assert R(t, SP) == R(SetR(s, SP, v), SP);
  }

  // ----- lb sp -----

  /** The byte that is loaded, and the memory after it has been stored below itself. */
  function Spilled(s: State, b: Byte): map<Word, Byte> {
    StoreWord(s.mem, Wrap(R(s, SP) + VAR_A), 0)[Wrap(b + VAR_A + 3) := b]
  }

  /** What the macro takes for the loaded byte in the top of a word. */
  function Misread(s: State, b: Byte): Word {
    MemWord(Spilled(s, b), Wrap(b + VAR_A))
  }

  lemma MisreadTop(s: State, b: Byte)
    ensures ByteOf(Misread(s, b), 3) == b
  {
    hide MemByte, StoreWord, WordOf, ByteOf;
    var m := Spilled(s, b);
    var a: int := Wrap(b + VAR_A);
    MiddleWrap(b);
    SetByteRead(StoreWord(s.mem, Wrap(R(s, SP) + VAR_A), 0), Wrap(b + VAR_A + 3), b);
    BytesOfWordOf(MemByte(m, a), MemByte(m, Wrap(a + 1)), MemByte(m, Wrap(a + 2)), MemByte(m, Wrap(a + 3)));
  }

  lemma MiddleWrap(x: int)
    ensures Wrap(Wrap(x + VAR_A) + 3) == Wrap(x + VAR_A + 3)
  {
  }

  lemma SetByteRead(m: map<Word, Byte>, a: Word, b: Byte)
    ensures MemByte(m[a := b], a) == b
    ensures forall c: Word :: c != a ==> MemByte(m[a := b], c) == MemByte(m, c)
  {
  }

  /** The first half of `lb sp`: the slots are below `sp` only until the byte is loaded. */
  function LbLoad(base: nat, off: int): seq<Base> {
    [Sw(X0, SP, VAR_A), Lbu(SP, base, off)] + [Sb(SP, SP, VAR_A + 3), Lw(SP, SP, VAR_A)]
  }

  lemma LbLoads(base: nat, off: int, b: Byte, s: State)
    requires b == MemByte(StoreWord(s.mem, Wrap(R(s, SP) + VAR_A), 0), Ea(s, base, off))
    ensures var t := Exec(LbLoad(base, off), s);
            && t.mem == Spilled(s, b)
            && forall r: nat :: R(t, r) == R(SetR(s, SP, Misread(s, b)), r)
  {
    var c1, c2 := [Sw(X0, SP, VAR_A), Lbu(SP, base, off)], [Sb(SP, SP, VAR_A + 3), Lw(SP, SP, VAR_A)];
    ExecAppend(c1, c2, s);
    Exec2(Sw(X0, SP, VAR_A), Lbu(SP, base, off), s);
    var t := Exec(c1, s);
    Exec2(Sb(SP, SP, VAR_A + 3), Lw(SP, SP, VAR_A), t);
    ByteOfByte(b);
    hide Exec, StoreWord, MemWord, MemByte, ByteOf, Wrap;
    SumOrder(b);
  }

  lemma SumOrder(b: Byte)
    ensures Wrap(b + (VAR_A + 3)) == Wrap(b + VAR_A + 3)
  {
  }

  /** The second half: the byte is taken from a slot below the misread word, and extended by a table. */
  function LbExtend(at: Layout): seq<Base> {
    [Sw(SP, SP, VAR_A)] + (La(TP, at.lut + Position(SraTable, 24, 0, 0)) + [Lbu(SP, SP, VAR_A + 3)])
    + ([Add(SP, SP, SP), Add(SP, SP, SP)] + [Add(TP, TP, SP), Lw(SP, TP, 0)])
  }

  lemma LbCode(at: Layout, base: nat, off: int, s: State)
    ensures Exec(Code(at, Load(SignedByte, SP, base, off)), s) == Exec(LbExtend(at), Exec(LbLoad(base, off), s))
  {
    hide Exec, La, Position;
    assert Doubling(SP, 0) == [];
    assert Doubling(SP, 1) == [Add(SP, SP, SP)];
    assert Slli(SP, SP, 2) == [Add(SP, SP, SP), Add(SP, SP, SP)];
    assert [Sw(X0, SP, VAR_A), Lbu(SP, base, off), Sb(SP, SP, VAR_A + 3), Lw(SP, SP, VAR_A)] == LbLoad(base, off);
    assert Code(at, Load(SignedByte, SP, base, off)) == LbLoad(base, off) + LbExtend(at);
    ExecAppend(LbLoad(base, off), LbExtend(at), s);
  }

  lemma LaSets(r: nat, addr: Word, s: State)
    requires r != X0
    ensures var t := Exec(La(r, addr), s); t.mem == s.mem && forall q: nat :: R(t, q) == R(SetR(s, r, addr), q)
  {
    var low := (addr + 0x800) % 0x1000 - 0x800;
    var upper := (addr - low) / 0x1000 % 0x10_0000;
    UpperLower(addr);
    LaTwo(r, upper, low, s);
    hide Exec, Wrap;
    assert La(r, addr) == [Lui(r, upper), Addi(r, r, low)];
  }

  lemma LaTwo(r: nat, upper: nat, low: int, s: State)
    requires r != X0
    ensures var t := Exec([Lui(r, upper), Addi(r, r, low)], s);
            t.mem == s.mem && forall q: nat :: R(t, q) == R(SetR(s, r, Wrap(Wrap(upper * 0x1000) + low)), q)
  {
    Exec2(Lui(r, upper), Addi(r, r, low), s);
    hide Exec, Wrap;
  }

  lemma LbByte(addr: Word, s: State)
    ensures var t := Exec([Sw(SP, SP, VAR_A)] + (La(TP, addr) + [Lbu(SP, SP, VAR_A + 3)]), s);
            && t.mem == StoreWord(s.mem, Wrap(R(s, SP) + VAR_A), R(s, SP))
            && R(t, SP) == ByteOf(R(s, SP), 3) && R(t, TP) == addr
            && forall r: nat :: r !in {SP, TP} ==> R(t, r) == R(s, r)
  {
    hide La, StoreWord, MemByte, ByteOf, Wrap;
    ExecAppend([Sw(SP, SP, VAR_A)], La(TP, addr) + [Lbu(SP, SP, VAR_A + 3)], s);
    Exec1(Sw(SP, SP, VAR_A), s);
    var t := Exec([Sw(SP, SP, VAR_A)], s);
    ExecAppend(La(TP, addr), [Lbu(SP, SP, VAR_A + 3)], t);
    LaSets(TP, addr, t);
    var u := Exec(La(TP, addr), t);
    hide Exec;
    assert forall r: nat :: R(t, r) == R(s, r);
    LbSlot(s, u, addr);
  }

  lemma LbSlot(s: State, u: State, addr: Word)
    requires u.mem == StoreWord(s.mem, Wrap(R(s, SP) + VAR_A), R(s, SP))
    requires forall r: nat :: R(u, r) == R(SetR(s, TP, addr), r)
    ensures var t := Exec([Lbu(SP, SP, VAR_A + 3)], u);
            && t.mem == u.mem && R(t, SP) == ByteOf(R(s, SP), 3) && R(t, TP) == addr
            && forall r: nat :: r !in {SP, TP} ==> R(t, r) == R(s, r)
  {
    hide StoreWord, MemByte, ByteOf, Wrap;
    Exec1(Lbu(SP, SP, VAR_A + 3), u);
    hide Exec;
    assert R(u, SP) == R(SetR(s, TP, addr), SP) && R(u, TP) == R(SetR(s, TP, addr), TP);
    StoreWordAt(s.mem, Wrap(R(s, SP) + VAR_A), R(s, SP), 0);
    WordAddresses(R(s, SP), VAR_A, 3);
    forall r: nat | r !in {SP, TP}
      ensures R(u, r) == R(s, r)
    {
      assert R(u, r) == R(SetR(s, TP, addr), r);
    }
  }

  lemma LbLookup(b: Byte, s: State)
    requires R(s, SP) == b
    ensures var t := Exec([Add(SP, SP, SP), Add(SP, SP, SP)] + [Add(TP, TP, SP), Lw(SP, TP, 0)], s);
            && t.mem == s.mem && R(t, SP) == MemWord(s.mem, Wrap(R(s, TP) + 4 * b))
            && forall r: nat :: r !in {SP, TP} ==> R(t, r) == R(s, r)
  {
    ExecAppend([Add(SP, SP, SP), Add(SP, SP, SP)], [Add(TP, TP, SP), Lw(SP, TP, 0)], s);
    Exec2(Add(SP, SP, SP), Add(SP, SP, SP), s);
    var t := Exec([Add(SP, SP, SP), Add(SP, SP, SP)], s);
    Exec2(Add(TP, TP, SP), Lw(SP, TP, 0), t);
    hide Exec, MemWord, Wrap;
    WrapSmall(2 * b);
    WrapSmall(4 * b);
    WrapSmall(Wrap(R(s, TP) + 4 * b));
  }

  lemma LbExtends(at: Layout, s: State)
    requires 0 <= at.lut + Position(SraTable, 24, 0, 0) < 0x1_0000_0000
    ensures var t := Exec(LbExtend(at), s);
            && t.mem == StoreWord(s.mem, Wrap(R(s, SP) + VAR_A), R(s, SP))
            && R(t, SP) == MemWord(t.mem, Wrap(at.lut + Position(SraTable, 24, 0, 0) + ByteOf(R(s, SP), 3) * 4))
            && forall r: nat :: r !in {SP, TP} ==> R(t, r) == R(s, r)
  {
    hide Exec, La, StoreWord, MemWord, ByteOf, Wrap, Position, R;
    var addr := at.lut + Position(SraTable, 24, 0, 0);
    var c1 := [Sw(SP, SP, VAR_A)] + (La(TP, addr) + [Lbu(SP, SP, VAR_A + 3)]);
    ExecAppend(c1, [Add(SP, SP, SP), Add(SP, SP, SP)] + [Add(TP, TP, SP), Lw(SP, TP, 0)], s);
    LbByte(addr, s);
    LbLookup(ByteOf(R(s, SP), 3), Exec(c1, s));
  }

  /** A table entry is still there when the memory is kept. */
  lemma TableKept(at: Layout, s: State, m: map<Word, Byte>, b: Byte)
    requires Placement(at, s) && MemoryKept(at, s, m)
    ensures MemWord(m, Wrap(at.lut + Position(SraTable, 24, 0, 0) + b * 4)) == Entry(SraTable, 24, b)
  {
    hide Entry, Position, MemByte, WordOf, Wrap, TablesAt, SmallTablesAt, Clear, R, InCheck;
    var a := Wrap(at.lut + Position(SraTable, 24, 0, 0) + b * 4);
    SplitReady(at, s);
    assert EntrySize(SraTable) == 4;
    FetchWord(at, Split(s), SraTable, 24, b);
    LutKept(at, s, m, b, 0);
    LutKept(at, s, m, b, 1);
    LutKept(at, s, m, b, 2);
    LutKept(at, s, m, b, 3);
    RvRefine.ZeroOffset(a);
  }

  lemma SraEntry(at: Layout, sp: Word, b: Byte, k: nat)
    requires Clear(at, sp) && k < 4
    ensures var a := Wrap(Wrap(at.lut + Position(SraTable, 24, 0, 0) + b * 4) + k);
            !(sp - AREA <= a < sp) && !InCheck(at, a)
  {
    WordPlace(SraTable, 24, b) by { assert EntrySize(SraTable) == 4; }
    var n := Offset(SraTable) + 24 * 1024 + b * 4 + k;
    assert at.lut + n < at.lut + LUT_SIZE <= 0x1_0000_0000;
    hide Position, Wrap, Offset;
    WrapSmall(at.lut + n - k);
    WrapSmall(at.lut + n);
  }

  lemma LutKept(at: Layout, s: State, m: map<Word, Byte>, b: Byte, k: nat)
    requires Placement(at, s) && MemoryKept(at, s, m) && k < 4
    ensures var a := Wrap(Wrap(at.lut + Position(SraTable, 24, 0, 0) + b * 4) + k); MemByte(m, a) == MemByte(s.mem, a)
  {
    hide MemByte, TablesAt, SmallTablesAt, R, Position, Wrap, Clear, InCheck;
    var a := Wrap(Wrap(at.lut + Position(SraTable, 24, 0, 0) + b * 4) + k);
    assert Harmless(at, s, a, MemByte(m, a));
    SraEntry(at, R(s, SP), b, k);
  }

  /** The word that goes astray does not show, nor does the byte, unless the word covers it. */
  predicate LbHarmless(at: Layout, s: State, b: Byte) {
    var w := Misread(s, b);
    && HarmlessWord(at, s, Wrap(w + VAR_A), w)
    && (Harmless(at, s, Wrap(b + VAR_A + 3), b) || InWord(Wrap(w + VAR_A), Wrap(b + VAR_A + 3)))
  }

  lemma LbMemory(at: Layout, s: State, b: Byte)
    requires R(s, SP) >= AREA
    ensures var w := Misread(s, b);
            MemoryKept(at, s, StoreWord(Spilled(s, b), Wrap(w + VAR_A), w)) <==> LbHarmless(at, s, b)
  {
    hide Harmless, HarmlessWord, MemByte, StoreWord, Wrap, Misread, InWord, MemoryKept;
    var w, m, x := Misread(s, b), Spilled(s, b), Wrap(b + VAR_A + 3);
    var a := Wrap(w + VAR_A);
    SetByteRead(StoreWord(s.mem, Wrap(R(s, SP) + VAR_A), 0), x, b);
    forall c: Word | c != x
      ensures Harmless(at, s, c, MemByte(m, c))
    {
      SlotKept(at, s, VAR_A, 0, c);
    }
    if InWord(a, x) || Harmless(at, s, x, b) {
      StoreKeeps(at, s, m, a, w);
    } else {
      StoreWordAt(m, a, w, x);
      KeptAt(at, s, StoreWord(m, a, w), x);
    }
  }

  lemma KeptAt(at: Layout, s: State, m: map<Word, Byte>, x: Word)
    ensures MemoryKept(at, s, m) ==> Harmless(at, s, x, MemByte(m, x))
  {
    hide Harmless, MemByte;
  }

  /** The byte that is loaded is not in a slot. */
  lemma LoadedByte(base: nat, off: int, s: State)
    requires R(s, SP) >= AREA && StaysAbove(Load(SignedByte, SP, base, off), s)
    ensures MemByte(StoreWord(s.mem, Wrap(R(s, SP) + VAR_A), 0), Ea(s, base, off)) == MemByte(s.mem, Ea(s, base, off))
  {
    hide MemByte, StoreWord, Wrap, InWord;
    var a := Ea(s, base, off);
    assert Accesses(Load(SignedByte, SP, base, off), s, a);
    if InWord(Wrap(R(s, SP) + VAR_A), a) {
      AreaAddresses(R(s, SP), VAR_A, a);
    }
    StoreWordAt(s.mem, Wrap(R(s, SP) + VAR_A), 0, a);
  }

  /**
   `lb sp` uses slots below two half finished results.  It works exactly when the word and the byte it
   stores there do not show: the sign extension is then right, too.
   */
  lemma LbToSpWorksExactlyWhen(at: Layout, base: nat, off: int, s: State)
    requires Placement(at, s) && StaysAbove(Load(SignedByte, SP, base, off), s)
    ensures Works(at, Load(SignedByte, SP, base, off), s) <==> LbHarmless(at, s, MemByte(s.mem, Ea(s, base, off)))
  {
    hide Exec, Code, Close, StoreWord, MemByte, MemWord, ByteOf, Wrap, LbHarmless, MemoryKept, Clear, TablesAt, SmallTablesAt, Position,
         SignExtend8, LbLoad, LbExtend, Misread, Spilled, Entry, Sra, WordOf, Placement;
    var b := MemByte(s.mem, Ea(s, base, off));
    var w := Misread(s, b);
    AreaBelow(at, s);
    LoadedByte(base, off, s);
    LbCode(at, base, off, s);
    LbLoads(base, off, b, s);
    var t := Exec(LbLoad(base, off), s);
    SraPlace(at, s);
    LbExtends(at, t);
    assert R(t, SP) == R(SetR(s, SP, w), SP);
    var u := Exec(LbExtend(at), t);
    MisreadTop(s, b);
    LbMemory(at, s, b);
    if MemoryKept(at, s, u.mem) {
      TableKept(at, s, u.mem, b);
      EntryExtends(b);
      LbRegisters(s, t, u, w, SignExtend8(b));
      CloseIsKept(at, s, SP, SignExtend8(b), u);
    } else if Close(at, R(s, SP), SetR(s, SP, SignExtend8(b)), u) {
      CloseMemoryKept(at, s, SP, SignExtend8(b), u);
    }
  }

  lemma SraPlace(at: Layout, s: State)
    requires Placement(at, s)
    ensures 0 <= at.lut + Position(SraTable, 24, 0, 0) < 0x1_0000_0000
  {
    hide TablesAt, SmallTablesAt;
  }

  lemma EntryExtends(b: Byte)
    ensures Entry(SraTable, 24, b) == SignExtend8(b)
  {
    hide Entry, Sra, WordOf, SignExtend8;
    BytesOfWordOf(0, 0, 0, b);
    TopByteShift(WordOf(0, 0, 0, b));
    SignExtensions(0, b);
  }

  lemma CloseMemoryKept(at: Layout, s: State, rd: nat, v: Word, u: State)
    requires Close(at, R(s, SP), SetR(s, rd, v), u)
    ensures MemoryKept(at, s, u.mem)
  {
    hide MemByte, InCheck, R;
    assert SetR(s, rd, v).mem == s.mem;
  }

  lemma LbRegisters(s: State, t: State, u: State, w: Word, v: Word)
    requires forall r: nat :: R(t, r) == R(SetR(s, SP, w), r)
    requires R(u, SP) == v && forall r: nat :: r !in {SP, TP} ==> R(u, r) == R(t, r)
    ensures forall r: nat :: r !in {TP, GP} ==> R(u, r) == R(SetR(s, SP, v), r)
  {
    forall r: nat | r !in {TP, GP}
      ensures R(u, r) == R(SetR(s, SP, v), r)
    {
      if r != SP {
        assert R(u, r) == R(t, r) && R(t, r) == R(SetR(s, SP, w), r);
      }
    }
  }

  // ----- seqz -----

  /** The memory after `seqz` has filled its two slots. */
  function SeqzSaved(s: State, rs: nat): map<Word, Byte> {
    StoreWord(StoreWord(s.mem, Wrap(R(s, SP) + VAR_A), R(s, rs)), Wrap(R(s, SP) + SAVE_1), R(s, S0))
  }

  lemma SeqzSaves(s: State, rs: nat)
    ensures Exec(SeqzEnter(rs), s).mem == SeqzSaved(s, rs)
  {
    hide StoreWord, Wrap;
    Exec2(Sw(rs, SP, VAR_A), Sw(S0, SP, SAVE_1), s);
  }

  /** `seqz` up to the load of the result, and without the restoring of `s0`. */
  function SeqzResult(at: Layout, rs: nat): (seq<Base>, seq<Base>) {
    (SeqzEnter(rs) + ZeroBytes(at) + La(TP, at.sameResult) + [Add(TP, TP, GP)], [Lbu(SP, TP, 0)])
  }

  lemma SeqzResultCode(at: Layout, rs: nat)
    ensures var (c1, c2) := SeqzResult(at, rs);
            Seqz(at, SP, rs) == c1 + c2 + [Lw(S0, SP, SAVE_1)] && KeepsSp(c1) && Ending(c2)
  {
    hide ZeroBytes, La, KeepsSp, SeqzEnter;
    ZeroBytesKeeps(at);
    LaKeeps(TP, at.sameResult);
    SeqzEdges(rs);
    Append4(SeqzEnter(rs), ZeroBytes(at), La(TP, at.sameResult), [Add(TP, TP, GP)]);
    assert SeqzLeave(SP) == [Add(TP, TP, GP)] + ([Lbu(SP, TP, 0)] + [Lw(S0, SP, SAVE_1)]);
  }

  lemma SeqzEdges(rs: nat)
    ensures KeepsSp(SeqzEnter(rs)) && KeepsSp([Add(TP, TP, GP)])
  {
  }

  /** The result is loaded, and nothing stored since the slots were filled. */
  lemma SeqzResultRuns(at: Layout, rs: nat, l: Local)
    requires Ready(at, l)
    ensures var t1 := LExec(SeqzEnter(rs), l); var t := LExec(SeqzResult(at, rs).0 + SeqzResult(at, rs).1, l);
            && t1.ok && Same(l, t1, {}, Cells(VAR_A) + Cells(SAVE_1))
            && Same(t1, t, {GP, TP, S0, SP}, {}) && LR(t, SP) == BoolWord(LR(l, rs) == 0)
  {
    hide LExec, LR, AreaWord, Ready, Same, SeqzEnter, ZeroBytes, La, Cells, Wrap;
    Join5(SeqzEnter(rs), ZeroBytes(at), La(TP, at.sameResult), [Add(TP, TP, GP)], [Lbu(SP, TP, 0)], l);
    var t1 := LExec(SeqzEnter(rs), l);
    SeqzEnterRuns(rs, l);
    ReadyFrame(at, l, t1, {}, Cells(VAR_A) + Cells(SAVE_1));
    ReadyOk(at, t1);
    SeqzSearch(at, t1);
    DifferingMeaning(LR(l, rs), 0);
  }

  /** From the filled slot to the result in `sp`. */
  lemma SeqzSearch(at: Layout, t1: Local)
    requires Ready(at, t1)
    ensures var t3 := LExec(La(TP, at.sameResult), LExec(ZeroBytes(at), t1));
            var t := LExec([Lbu(SP, TP, 0)], LExec([Add(TP, TP, GP)], t3));
            Same(t1, t, {GP, TP, S0, SP}, {}) && LR(t, SP) == BoolWord(Differing(AreaWord(t1, VAR_A), 0) == 0)
  {
    hide LExec, LR, AreaWord, Ready, Same, ZeroBytes, La, Differing;
    var t2 := LExec(ZeroBytes(at), t1);
    ZeroBytesRuns(at, t1);
    ReadyFrame(at, t1, t2, {GP, TP, S0}, {});
    var t3 := LExec(La(TP, at.sameResult), t2);
    LaRuns(TP, at.sameResult, t2);
    SameReg(t2, t3, {TP}, {}, GP);
    ReadyFrame(at, t2, t3, {TP}, {});
    DifferingMeaning(AreaWord(t1, VAR_A), 0);
    SeqzFetch(at, t3);
    SeqzFrame(t1, t2, t3, LExec([Add(TP, TP, GP)], t3), LExec([Lbu(SP, TP, 0)], LExec([Add(TP, TP, GP)], t3)));
  }

  lemma SeqzFetch(at: Layout, t3: Local)
    requires Ready(at, t3) && LR(t3, TP) == at.sameResult && LR(t3, GP) < 5
    ensures var t4 := LExec([Add(TP, TP, GP)], t3); var t := LExec([Lbu(SP, TP, 0)], t4);
            && Same(t3, t4, {TP}, {}) && Same(t4, t, {SP}, {}) && LR(t, SP) == BoolWord(LR(t3, GP) == 0)
  {
    hide LExec, LR, Ready, Same, Wrap, MemByte, Misses;
    var t4 := LExec([Add(TP, TP, GP)], t3);
    SameResult(at, t3, LR(t3, GP));
    AddPairRuns(TP, TP, GP, t3);
    SameReg(t3, t4, {TP}, {}, SP);
    SameMemory(t3, t4, {TP}, {});
    LoadAtTp(SP, t4);
  }

  lemma ReadyOk(at: Layout, l: Local)
    requires Ready(at, l)
    ensures l.ok
  {
  }

  lemma SeqzFrame(t1: Local, t2: Local, t3: Local, t4: Local, t5: Local)
    requires Same(t1, t2, {GP, TP, S0}, {}) && Same(t2, t3, {TP}, {}) && Same(t3, t4, {TP}, {}) && Same(t4, t5, {SP}, {})
    ensures Same(t1, t5, {GP, TP, S0, SP}, {})
  {
    hide Same;
    var rs := {GP, TP, S0, SP};
    SameWider(t1, t2, {GP, TP, S0}, {}, rs, {});
    SameWider(t2, t3, {TP}, {}, rs, {});
    SameWider(t3, t4, {TP}, {}, rs, {});
    SameWider(t4, t5, {SP}, {}, rs, {});
    SameChain(t1, t2, t3, rs, {});
    SameChain(t1, t3, t4, rs, {});
    SameChain(t1, t4, t5, rs, {});
  }

  /** Two machine states whose local views agree in all bytes hold the same memory. */
  lemma SameBytes(sp: Word, s: State, l: Local, t: State, lt: Local, regs: set<nat>)
    requires Refines(sp, s, l) && Refines(sp, t, lt) && Same(l, lt, regs, {})
    ensures forall a: Word :: MemByte(t.mem, a) == MemByte(s.mem, a)
  {
    hide MemByte, AreaByte, LR;
    forall a: Word
      ensures MemByte(t.mem, a) == MemByte(s.mem, a)
    {
      if sp - AREA <= a < sp {
        AddressesDiffer(sp, a - sp);
        assert AreaByte(lt, a - sp) == AreaByte(l, a - sp);
      }
    }
  }

  /** The word that `seqz sp` takes for the saved `s0`: the one before the address 0 or 1. */
  function SeqzRestored(s: State, rs: nat): Word {
    MemWord(SeqzSaved(s, rs), Wrap(BoolWord(R(s, rs) == 0) + SAVE_1))
  }

  lemma SeqzToSpRuns(at: Layout, rs: nat, s: State)
    requires Placement(at, s)
    ensures var u := Exec(Seqz(at, SP, rs), s); var v := BoolWord(R(s, rs) == 0);
            && MemoryKept(at, s, u.mem) && R(u, S0) == SeqzRestored(s, rs)
            && forall r: nat :: r !in {TP, GP, S0} ==> R(u, r) == R(SetR(s, SP, v), r)
  {
    hide Exec, LExec, Seqz, SeqzEnter, SeqzResult, Split, Same, SeqzSaved, MemByte, MemWord, KeepsSp, Ending, Refines, LR, R, Wrap, Clear,
         TablesAt, SmallTablesAt, Placement, Ready, MemoryKept, Step;
    var sp, l, v := R(s, SP), Split(s), BoolWord(R(s, rs) == 0);
    var (c1, c2) := SeqzResult(at, rs);
    SplitReady(at, s);
    SeqzResultCode(at, rs);
    SeqzResultRuns(at, rs, l);
    var u1, t1, u, t := Exec(SeqzEnter(rs), s), LExec(SeqzEnter(rs), l), Exec(c1 + c2, s), LExec(c1 + c2, l);
    SameMemory(t1, t, {GP, TP, S0, SP}, {});
    LateRefines(c1, c2, sp, s, l);
    SeqzEdges(rs);
    ExecRefines(SeqzEnter(rs), sp, s, l);
    SeqzSaves(s, rs);
    SameBytes(sp, u1, t1, u, t, {GP, TP, S0, SP});
    ExecAppend(c1 + c2, [Lw(S0, SP, SAVE_1)], s);
    Exec1(Lw(S0, SP, SAVE_1), u);
    SeqzSavedKept(at, s, rs, u.mem);
    SameRegisters(sp, u, t, SP);
    SeqzLoad(u, Wrap(v + SAVE_1), SeqzSaved(s, rs));
    forall r: nat | r !in {TP, GP, S0}
      ensures R(u, r) == R(SetR(s, SP, v), r)
    {
      SeqzRegister(sp, s, l, t1, u, t, v, r);
    }
  }

  lemma SeqzRegister(sp: Word, s: State, l: Local, t1: Local, u: State, t: Local, v: Word, r: nat)
    requires l == Split(s) && Refines(sp, u, t) && LR(t, SP) == v && r !in {TP, GP, S0}
    requires Same(l, t1, {}, Cells(VAR_A) + Cells(SAVE_1)) && Same(t1, t, {GP, TP, S0, SP}, {})
    ensures R(u, r) == R(SetR(s, SP, v), r)
  {
    hide AreaByte, MemByte, Cells;
    SameRegisters(sp, u, t, r);
    if r != SP {
      assert LR(t, r) == LR(t1, r) == LR(l, r);
    }
  }

  /** The load that was to restore `s0`. */
  lemma SeqzLoad(u: State, a: Word, m: map<Word, Byte>)
    requires Ea(u, SP, SAVE_1) == a && forall b: Word :: MemByte(u.mem, b) == MemByte(m, b)
    ensures var w := Step(Lw(S0, SP, SAVE_1), u);
            w.mem == u.mem && R(w, S0) == MemWord(m, a) && forall r: nat :: r != S0 ==> R(w, r) == R(u, r)
  {
    hide MemByte, Wrap;
  }

  lemma SeqzSavedKept(at: Layout, s: State, rs: nat, m: map<Word, Byte>)
    requires Placement(at, s) && forall a: Word :: MemByte(m, a) == MemByte(SeqzSaved(s, rs), a)
    ensures MemoryKept(at, s, m)
  {
    hide MemByte, StoreWord, Wrap, InWord, InCheck, TablesAt, SmallTablesAt, Clear;
    AreaBelow(at, s);
    var m1, b := StoreWord(s.mem, Wrap(R(s, SP) + VAR_A), R(s, rs)), Wrap(R(s, SP) + SAVE_1);
    forall a: Word
      ensures Harmless(at, s, a, MemByte(m, a))
    {
      SlotKept(at, s, VAR_A, R(s, rs), a);
      if InWord(b, a) {
        AreaAddresses(R(s, SP), SAVE_1, a);
      } else {
        StoreWordAt(m1, b, R(s, S0), a);
      }
    }
  }

  /** A register set to the wrong value is seen. */
  lemma CloseValue(at: Layout, s: State, rd: nat, v: Word, w: Word, u: State)
    requires Close(at, R(s, SP), SetR(s, rd, v), u) && !Reserved(rd)
    ensures Close(at, R(s, SP), SetR(s, rd, w), u) <==> rd == X0 || v == w
  {
    hide MemByte, InCheck;
    if rd != X0 {
      assert R(u, rd) == R(SetR(s, rd, v), rd);
      assert R(SetR(s, rd, w), rd) == w;
    }
  }

  lemma SeqzElsewhere(at: Layout, rd: nat, rs: nat, s: State)
    requires Placement(at, s) && !Reserved(rd) && rd != SP
    ensures Works(at, IsZero(rd, rs), s) <==> (rd == S0 ==> R(s, S0) == BoolWord(R(s, rs) == 0))
  {
    hide LR, LExec, Seqz, Exec, Same, AllCells, Cells, Ready, Placement, Refines, Split, KeepsSp, Close, R, SetR;
    SplitReady(at, s);
    var l, code := Split(s), Seqz(at, rd, rs);
    var t := LExec(code, l);
    SeqzRuns(at, rd, rs, l);
    SeqzKeeps(at, rd, rs);
    ManyCells();
    SameWider(l, t, {rd, TP, GP}, Cells(VAR_A) + Cells(SAVE_1), {rd, TP, GP}, AllCells());
    var v := if rd == S0 then R(s, S0) else BoolWord(R(s, rs) == 0);
    NoEnding();
    assert code + [] == code;
    LiftEnding(at, s, code, [], rd, v);
    CloseValue(at, s, rd, v, BoolWord(R(s, rs) == 0), Exec(code, s));
  }

  lemma SeqzToSp(at: Layout, rs: nat, s: State)
    requires Placement(at, s)
    ensures Works(at, IsZero(SP, rs), s) <==> R(s, S0) == SeqzRestored(s, rs)
  {
    hide Exec, Seqz, Placement, MemByte, InCheck, SeqzRestored;
    SeqzToSpRuns(at, rs, s);
    var u, v := Exec(Seqz(at, SP, rs), s), BoolWord(R(s, rs) == 0);
    assert R(SetR(s, SP, v), S0) == R(s, S0);
    if R(s, S0) == SeqzRestored(s, rs) {
      CloseIsKept(at, s, SP, v, u);
    }
  }

  /**
   `seqz` restores `s0` after it has loaded its result (lines 268-270).  With `s0` as the target the
   result is lost; with `sp` as the target `s0` is restored from below the result, 0 or 1, and not
   from its slot.  So these work exactly when `s0` holds already what it gets, and every other target
   is safe.
   */
  lemma SeqzWorksExactlyWhen(at: Layout, rd: nat, rs: nat, s: State)
    requires Placement(at, s) && !Reserved(rd)
    ensures Works(at, IsZero(rd, rs), s)
            <==> && (rd == S0 ==> R(s, S0) == BoolWord(R(s, rs) == 0))
                 && (rd == SP ==> R(s, S0) == SeqzRestored(s, rs))
  {
    hide Works, Placement, SeqzRestored;
    if rd == SP {
      SeqzToSp(at, rs, s);
    } else {
      SeqzElsewhere(at, rd, rs, s);
    }
  }
}
