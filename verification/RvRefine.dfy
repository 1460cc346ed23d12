/**
 Execution seen from inside a macro (`RvScratch.Local`) agrees with execution on the machine.
 */
module RvRefine {
  import opened RvMachine
  import opened RvScratch

  /** `l` is the state `s` with the scratch area below `sp` split off. */
  ghost predicate Refines(sp: Word, s: State, l: Local) {
    && sp >= AREA && s.regs == l.regs
    && (forall k: int :: -AREA <= k < 0 ==> AreaByte(l, k) == MemByte(s.mem, Wrap(sp + k)))
    && (forall a: Word :: !(sp - AREA <= a < sp) ==> MemByte(s.mem, a) == MemByte(l.mem, a))
  }

  function Split(s: State): Local {
    Local(s.regs, map k: int {:trigger Wrap(R(s, SP) + k)} | -AREA <= k < 0 :: MemByte(s.mem, Wrap(R(s, SP) + k)), s.mem, true)
  }

  lemma SplitRefines(s: State)
    requires R(s, SP) >= AREA
    ensures Refines(R(s, SP), s, Split(s))
  {
  }

  /** The register an instruction writes. */
  function Target(i: Base): nat {
    match i
    case Add(rd, _, _) => rd
    case Addi(rd, _, _) => rd
    case Lui(rd, _) => rd
    case Lw(rd, _, _) => rd
    case Lbu(rd, _, _) => rd
    case Sw(_, _, _) => X0
    case Sb(_, _, _) => X0
    case Jalr(rd, _, _) => rd
  }

  /** Straight-line code that leaves the stack pointer alone. */
  predicate KeepsSp(code: seq<Base>) {
    forall k :: 0 <= k < |code| ==> Target(code[k]) != SP && !code[k].Jalr?
  }

  lemma KeepsSpAppend(c1: seq<Base>, c2: seq<Base>)
    requires KeepsSp(c1) && KeepsSp(c2)
    ensures KeepsSp(c1 + c2)
  {
    hide Target;
  }

  lemma SameRegisters(sp: Word, s: State, l: Local, r: nat)
    requires Refines(sp, s, l)
    ensures R(s, r) == LR(l, r)
  {
  }

  lemma LoadByteAgrees(sp: Word, s: State, l: Local, base: nat, off: int)
    requires Refines(sp, s, l) && LR(l, SP) == sp
    requires IsLocal(base, off, 1) || Misses(sp, LEa(l, base, off), 1)
    ensures MemByte(s.mem, Ea(s, base, off)) == if IsLocal(base, off, 1) then AreaByte(l, off) else MemByte(l.mem, LEa(l, base, off))
  {
    hide MemByte, AreaByte;
    SameRegisters(sp, s, l, base);
  }

  lemma WordAddresses(sp: Word, off: int, k: int)
    ensures Wrap(Wrap(sp + off) + k) == Wrap(sp + (off + k))
  {
  }

  lemma MissesEach(sp: Word, a: Word, k: nat)
    requires sp >= AREA && Misses(sp, a, 4) && k < 4
    ensures !(sp - AREA <= Wrap(a + k) < sp)
  {
  }

  lemma LoadWordAgrees(sp: Word, s: State, l: Local, base: nat, off: int)
    requires Refines(sp, s, l) && LR(l, SP) == sp
    requires IsLocal(base, off, 4) || Misses(sp, LEa(l, base, off), 4)
    ensures MemWord(s.mem, Ea(s, base, off)) == if IsLocal(base, off, 4) then AreaWord(l, off) else MemWord(l.mem, LEa(l, base, off))
  {
    hide MemByte, AreaByte, WordOf, Misses, Wrap, Refines, LR, R;
    SameRegisters(sp, s, l, base);
    if IsLocal(base, off, 4) {
      LocalByte(sp, s, l, off, 0);
      LocalByte(sp, s, l, off, 1);
      LocalByte(sp, s, l, off, 2);
      LocalByte(sp, s, l, off, 3);
    } else {
      var a := LEa(l, base, off);
      OtherByte(sp, s, l, a, 0);
      OtherByte(sp, s, l, a, 1);
      OtherByte(sp, s, l, a, 2);
      OtherByte(sp, s, l, a, 3);
    }
    ZeroOffset(LEa(l, base, off));
  }

  lemma LocalByte(sp: Word, s: State, l: Local, off: int, k: nat)
    requires Refines(sp, s, l) && -AREA <= off && off + 4 <= 0 && k < 4
    ensures MemByte(s.mem, Wrap(Wrap(sp + off) + k)) == AreaByte(l, off + k)
  {
    hide MemByte, AreaByte, Wrap;
    WordAddresses(sp, off, k);
  }

  lemma OtherByte(sp: Word, s: State, l: Local, a: Word, k: nat)
    requires Refines(sp, s, l) && Misses(sp, a, 4) && k < 4
    ensures MemByte(s.mem, Wrap(a + k)) == MemByte(l.mem, Wrap(a + k))
  {
    MissesEach(sp, a, k);
    hide MemByte, Wrap, Misses;
  }

  lemma ZeroOffset(a: Word)
    ensures Wrap(a + 0) == a
  {
  }

  lemma AddressesDiffer(sp: Word, k: int)
    requires sp >= AREA && -AREA <= k < 0
    ensures sp - AREA <= Wrap(sp + k) < sp && Wrap(sp + k) == sp + k
  {
  }

  lemma StoreByteAgrees(sp: Word, s: State, l: Local, base: nat, off: int, b: Byte)
    requires Refines(sp, s, l) && LR(l, SP) == sp
    requires IsLocal(base, off, 1) || Misses(sp, LEa(l, base, off), 1)
    ensures var s' := s.(mem := s.mem[Ea(s, base, off) := b]);
            if IsLocal(base, off, 1) then Refines(sp, s', SetByte(l, off, b))
            else Refines(sp, s', SetMem(l, l.mem[LEa(l, base, off) := b]))
  {
    hide Refines, LR, MemByte, AreaByte;
    SameRegisters(sp, s, l, base);
    AreaSize(sp, s, l);
    if IsLocal(base, off, 1) {
      StoreArea(sp, s.regs, s.mem, l, off, b);
    } else {
      StoreOutside(sp, s.regs, s.mem, l, LEa(l, base, off), b);
    }
  }

  lemma AreaSize(sp: Word, s: State, l: Local)
    requires Refines(sp, s, l)
    ensures sp >= AREA
  {
  }

  /** Storing the four bytes of a word one after the other. */
  lemma StoreWordAgrees(sp: Word, s: State, l: Local, base: nat, off: int, w: Word)
    requires Refines(sp, s, l) && LR(l, SP) == sp
    requires IsLocal(base, off, 4) || Misses(sp, LEa(l, base, off), 4)
    ensures var s' := s.(mem := StoreWord(s.mem, Ea(s, base, off), w));
            if IsLocal(base, off, 4) then Refines(sp, s', SetWord(l, off, w))
            else Refines(sp, s', SetMem(l, StoreWord(l.mem, LEa(l, base, off), w)))
  {
    hide ByteOf, R, LR, Refines, MemByte, AreaByte, Misses;
    SameRegisters(sp, s, l, base);
    AreaSize(sp, s, l);
    if IsLocal(base, off, 4) {
      StoreAreaWord(sp, s, l, off, w);
    } else {
      StoreOutsideWord(sp, s, l, LEa(l, base, off), w);
    }
  }

  lemma StoreAreaWord(sp: Word, s: State, l: Local, off: int, w: Word)
    requires Refines(sp, s, l) && -AREA <= off <= -4
    ensures Refines(sp, s.(mem := StoreWord(s.mem, Wrap(sp + off), w)), SetWord(l, off, w))
  {
    hide ByteOf, Refines, Wrap;
    var m1, l1 := s.mem[Wrap(sp + off) := ByteOf(w, 0)], SetByte(l, off, ByteOf(w, 0));
    StoreArea(sp, s.regs, s.mem, l, off, ByteOf(w, 0));
    var m2, l2 := m1[Wrap(sp + (off + 1)) := ByteOf(w, 1)], SetByte(l1, off + 1, ByteOf(w, 1));
    StoreArea(sp, s.regs, m1, l1, off + 1, ByteOf(w, 1));
    var m3, l3 := m2[Wrap(sp + (off + 2)) := ByteOf(w, 2)], SetByte(l2, off + 2, ByteOf(w, 2));
    StoreArea(sp, s.regs, m2, l2, off + 2, ByteOf(w, 2));
    StoreArea(sp, s.regs, m3, l3, off + 3, ByteOf(w, 3));
    WordAddresses(sp, off, 1);
    WordAddresses(sp, off, 2);
    WordAddresses(sp, off, 3);
  }

  lemma StoreOutsideWord(sp: Word, s: State, l: Local, a: Word, w: Word)
    requires Refines(sp, s, l) && sp >= AREA && Misses(sp, a, 4)
    ensures Refines(sp, s.(mem := StoreWord(s.mem, a, w)), SetMem(l, StoreWord(l.mem, a, w)))
  {
    hide ByteOf, Refines, Wrap, Misses;
    MissesEach(sp, a, 0);
    MissesEach(sp, a, 1);
    MissesEach(sp, a, 2);
    MissesEach(sp, a, 3);
    ZeroOffset(a);
    var b0, b1, b2, b3 := ByteOf(w, 0), ByteOf(w, 1), ByteOf(w, 2), ByteOf(w, 3);
    StoreOutside(sp, s.regs, s.mem, l, a, b0);
    var m1, l1 := s.mem[a := b0], SetMem(l, l.mem[a := b0]);
    StoreOutside(sp, s.regs, m1, l1, Wrap(a + 1), b1);
    var m2, l2 := m1[Wrap(a + 1) := b1], SetMem(l1, l1.mem[Wrap(a + 1) := b1]);
    StoreOutside(sp, s.regs, m2, l2, Wrap(a + 2), b2);
    var m3, l3 := m2[Wrap(a + 2) := b2], SetMem(l2, l2.mem[Wrap(a + 2) := b2]);
    StoreOutside(sp, s.regs, m3, l3, Wrap(a + 3), b3);
  }

  lemma StoreArea(sp: Word, regs: map<nat, Word>, m: map<Word, Byte>, l: Local, k: int, b: Byte)
    requires Refines(sp, State(regs, m), l) && -AREA <= k < 0
    ensures Refines(sp, State(regs, m[Wrap(sp + k) := b]), SetByte(l, k, b))
  {
    var s, m', l' := State(regs, m), m[Wrap(sp + k) := b], SetByte(l, k, b);
    AddressesDiffer(sp, k);
    forall j: int | -AREA <= j < 0
      ensures AreaByte(l', j) == MemByte(m', Wrap(sp + j))
    {
      AddressesDiffer(sp, j);
      assert AreaByte(l, j) == MemByte(s.mem, Wrap(sp + j));
    }
    forall x: Word | !(sp - AREA <= x < sp)
      ensures MemByte(m', x) == MemByte(l'.mem, x)
    {
      assert MemByte(s.mem, x) == MemByte(l.mem, x);
    }
  }

  lemma StoreOutside(sp: Word, regs: map<nat, Word>, m: map<Word, Byte>, l: Local, a: Word, b: Byte)
    requires Refines(sp, State(regs, m), l) && !(sp - AREA <= a < sp)
    ensures Refines(sp, State(regs, m[a := b]), SetMem(l, l.mem[a := b]))
  {
    var s, m', l' := State(regs, m), m[a := b], SetMem(l, l.mem[a := b]);
    forall j: int | -AREA <= j < 0
      ensures AreaByte(l', j) == MemByte(m', Wrap(sp + j))
    {
      AddressesDiffer(sp, j);
      assert AreaByte(l, j) == MemByte(s.mem, Wrap(sp + j));
    }
    forall x: Word | !(sp - AREA <= x < sp)
      ensures MemByte(m', x) == MemByte(l'.mem, x)
    {
      assert MemByte(s.mem, x) == MemByte(l.mem, x);
    }
  }

  lemma SetRefines(sp: Word, s: State, l: Local, r: nat, v: Word)
    requires Refines(sp, s, l)
    ensures Refines(sp, SetR(s, r, v), LSet(l, r, v))
  {
    hide LR, MemByte, AreaByte;
    SameArea(l, LSet(l, r, v));
  }

  lemma SameArea(l: Local, t: Local)
    requires t.area == l.area
    ensures forall k :: AreaByte(t, k) == AreaByte(l, k)
  {
  }

  lemma TouchRefines(sp: Word, s: State, l: Local, base: nat, off: int, size: nat)
    requires Refines(sp, s, l)
    ensures Refines(sp, s, Touch(l, base, off, size))
  {
    hide LR, MemByte, AreaByte, Misses;
    SameArea(l, Touch(l, base, off, size));
  }

  lemma StepRefines(i: Base, sp: Word, s: State, l: Local)
    requires Refines(sp, s, l) && LR(l, SP) == sp && LStep(i, l).ok && !i.Jalr?
    ensures l.ok && Refines(sp, Step(i, s), LStep(i, l))
  {
    hide Refines, LR, R, SetR, LSet, MemByte, AreaByte, MemWord, AreaWord, StoreWord, SetWord, SetByte, ByteOf, Misses, Wrap;
    Rules();
    match i {
      case Add(rd, rs1, rs2) =>
        SameRegisters(sp, s, l, rs1);
        SameRegisters(sp, s, l, rs2);
        SetRefines(sp, s, l, rd, Wrap(LR(l, rs1) + LR(l, rs2)));
      case Addi(rd, rs1, imm) =>
        SameRegisters(sp, s, l, rs1);
        SetRefines(sp, s, l, rd, Wrap(LR(l, rs1) + imm));
      case Lui(rd, upper) =>
        SetRefines(sp, s, l, rd, Wrap(upper * 0x1000));
      case Lw(rd, base, off) =>
        LoadWordAgrees(sp, s, l, base, off);
        TouchRefines(sp, s, l, base, off, 4);
        SetRefines(sp, s, if IsLocal(base, off, 4) then l else Touch(l, base, off, 4), rd, MemWord(s.mem, Ea(s, base, off)));
      case Lbu(rd, base, off) =>
        LoadByteAgrees(sp, s, l, base, off);
        TouchRefines(sp, s, l, base, off, 1);
        SetRefines(sp, s, if IsLocal(base, off, 1) then l else Touch(l, base, off, 1), rd, MemByte(s.mem, Ea(s, base, off)));
      case Sw(rs, base, off) =>
        SameRegisters(sp, s, l, rs);
        TouchRefines(sp, s, l, base, off, 4);
        TouchKeeps(l, base, off, 4);
        StoreWordAgrees(sp, s, if IsLocal(base, off, 4) then l else Touch(l, base, off, 4), base, off, LR(l, rs));
      case Sb(rs, base, off) =>
        SameRegisters(sp, s, l, rs);
        TouchRefines(sp, s, l, base, off, 1);
        TouchKeeps(l, base, off, 1);
        StoreByteAgrees(sp, s, if IsLocal(base, off, 1) then l else Touch(l, base, off, 1), base, off, ByteOf(LR(l, rs), 0));
    }
  }

  lemma TouchKeeps(l: Local, base: nat, off: int, size: nat)
    ensures LEa(Touch(l, base, off, size), base, off) == LEa(l, base, off)
    ensures LR(Touch(l, base, off, size), SP) == LR(l, SP)
  {
  }

  lemma {:induction false} OkAtStart(code: seq<Base>, l: Local)
    requires LExec(code, l).ok
    ensures l.ok
  {
    if code != [] {
      OkAtStart(code[1..], LStep(code[0], l));
      hide LExec, Misses, LR, StoreWord, SetWord;
      StepOk(code[0], l);
    }
  }

  lemma StepOk(i: Base, l: Local)
    requires LStep(i, l).ok
    ensures l.ok
  {
    hide Misses, LR, LSet, SetByte, SetWord, SetMem, MemWord, MemByte, StoreWord, ByteOf, AreaWord;
    Rules();
  }

  lemma StepKeepsSp(i: Base, l: Local)
    requires Target(i) != SP
    ensures LR(LStep(i, l), SP) == LR(l, SP)
  {
    hide Misses, LR, LSet, SetByte, SetWord, SetMem, Touch, MemWord, MemByte, StoreWord, ByteOf, AreaWord;
    Rules();
  }

  /** Straight-line code that keeps the stack pointer: what holds of the local run holds of the machine run. */
  lemma {:induction false} ExecRefines(code: seq<Base>, sp: Word, s: State, l: Local)
    requires Refines(sp, s, l) && LR(l, SP) == sp && KeepsSp(code) && LExec(code, l).ok
    ensures Refines(sp, Exec(code, s), LExec(code, l))
  {
    if code != [] {
      var l1 := LStep(code[0], l);
      OkAtStart(code[1..], l1);
      StepRefines(code[0], sp, s, l);
      StepKeepsSp(code[0], l);
      assert KeepsSp(code[1..]);
      ExecRefines(code[1..], sp, Step(code[0], s), l1);
    }
  }
}
