/**
 The main theorem on rvmini: every run of a program is a run of its expansion.

 inst-replace.h promises that a compiled program may use all of RV32I although the processor has eight
 instructions, as long as the program keeps off `tp`, `gp` and the memory below `sp`
 (abstract-machine/tools/rvmini/inst-replace.h, lines 1-12).
 */
module RvSimulation {
  import opened Bits
  import opened RvMachine
  import opened RvScratch
  import opened RvLut
  import opened RvMacros
  import opened RvBasicMacros
  import opened RvCompare
  import opened RvEqual
  import opened RvRefine
  import opened RvKeepsSp
  import opened RvSpec
  import opened RvLift
  import opened RvInstr
  import opened RvBranch
  import opened RvProgram

  // ----- straight-line instructions -----

  predicate NoJump(code: seq<Base>) {
    forall k :: 0 <= k < |code| ==> !code[k].Jalr?
  }

  lemma KeepsSpNoJump(code: seq<Base>)
    requires KeepsSp(code)
    ensures NoJump(code)
  {
  }

  lemma EndingNoJump(c1: seq<Base>, c2: seq<Base>)
    requires KeepsSp(c1) && Ending(c2)
    ensures NoJump(c1 + c2)
  {
  }

  lemma StraightCode(at: Layout, i: Instr)
    requires Accepted(i) && !IsControl(i)
    ensures NoJump(Code(at, i))
  {
    hide Code, KeepsSp, Ending, TopByteIndex;
    if i.Plain? {
      PlainCode(at, i);
    } else if i.StoreHalf? {
      ShHalfKeeps(i.rs, i.base, i.off);
      KeepsSpNoJump(ShHalf(i.rs, i.base, i.off));
      StoreCode(at, i);
    } else if TopByteToSp(i) {
      TopByteCode(at, i.rs1);
      var (c1, c2) := TopByteIndex(at, i.rs1);
      EndingNoJump(c1, c2);
      StoreCode(at, i);
    } else {
      var c1, c2 := CodeEnds(at, i);
      EndingNoJump(c1, c2);
    }
  }

  lemma PlainCode(at: Layout, i: Instr)
    requires i.Plain? && Accepted(i)
    ensures NoJump(Code(at, i))
  {
  }

  lemma StoreCode(at: Layout, i: Instr)
    ensures i.StoreHalf? ==> Code(at, i) == ShHalf(i.rs, i.base, i.off)
    ensures TopByteToSp(i) ==> Code(at, i) == ShiftRightImm(at, true, SP, i.rs1, 24)
  {
    hide ShHalf, ShiftRightImm;
  }

  lemma NextAddress(at: Layout, p: seq<Instr>, start: int, k: nat, next: Word, target: Word)
    requires k < |p|
    ensures Addr(at, p, start, k + 1) == Addr(at, p, start, k) + 4 * |Expand(at, p[k], next, target)|
  {
    hide Expand, Size;
    SizeFixed(at, p[k], next, target);
  }

  lemma LinkedAt(at: Layout, p: seq<Instr>, start: int, image: map<Word, Base>, k: nat)
    requires Linked(at, p, start, image) && k < |p|
    ensures CodeAt(image, Addr(at, p, start, k), Expand(at, p[k], AddrWord(at, p, start, k + 1), TargetWord(at, p, start, k)))
  {
    hide Expand, CodeAt, Addr, AddrWord, TargetWord, Linkable;
  }

  /** What has to hold before an instruction for its expansion to do its work. */
  ghost predicate Matches(at: Layout, junk: iset<Word>, s: State, t: State) {
    Agree(junk, s, t) && TablesIn(at, t)
  }

  lemma StraightRun(at: Layout, p: seq<Instr>, start: int, image: map<Word, Base>, c: Config, c': Config,
                    junk: iset<Word>, t: State) returns (n: nat, t': State)
    requires Linked(at, p, start, image) && Next(at, p, start, c, c') && !IsControl(p[c.k])
    requires Fair(at, p[c.k], c.st, junk) && Matches(at, junk, c.st, t)
    ensures Run(image, Machine(t, AddrWord(at, p, start, c.k)), n) == Machine(t', AddrWord(at, p, start, c'.k))
    ensures Matches(at, JunkAfter(at, p[c.k], c.st, junk), c'.st, t')
  {
    hide Linked, Run, Code, Effect, Exec, Agree, TablesIn, JunkAfter, Addr, CodeAt, Linkable, StaysAbove, Clear, Accepted, Step;
    LinkedLinkable(at, p, start, image);
    var i := p[c.k];
    var next, target := AddrWord(at, p, start, c.k + 1), TargetWord(at, p, start, c.k);
    LinkedAt(at, p, start, image, c.k);
    assert Expand(at, i, next, target) == Code(at, i);
    StraightCode(at, i);
    RunStraight(image, Addr(at, p, start, c.k), Code(at, i), t);
    NextAddress(at, p, start, c.k, next, target);
    StepStraightAgrees(at, i, junk, c.st, t);
    n, t' := |Code(at, i)|, Exec(Code(at, i), t);
  }

  lemma LinkedLinkable(at: Layout, p: seq<Instr>, start: int, image: map<Word, Base>)
    requires Linked(at, p, start, image)
    ensures Linkable(at, p, start)
  {
  }

  // ----- control transfers -----

  /** Addresses of instructions survive the clearing of the lowest bit. */
  lemma AddrIsTarget(at: Layout, p: seq<Instr>, start: int, k: nat)
    requires Linkable(at, p, start) && k <= |p|
    ensures JumpTarget(AddrWord(at, p, start, k)) == AddrWord(at, p, start, k)
  {
    hide Size;
    AddrBounds(at, p, start, k);
    EvenAddress(Addr(at, p, start, k), start);
    hide Addr;
  }

  lemma EvenAddress(a: int, start: int)
    requires (a - start) % 4 == 0 && start % 2 == 0
    ensures a % 2 == 0
  {
    var q := (a - start) / 4;
    assert a == start + (2 * q) * 2;
    ModPlusMultiple(start, 2 * q, 2);
  }

  /** Junk only grows at a control transfer. */
  lemma ControlJunk(at: Layout, i: Instr, junk: iset<Word>, s: State)
    requires IsControl(i)
    ensures junk <= JunkAfter(at, i, s, junk)
    ensures forall a: Word :: InArea(R(s, SP), a) || InCheck(at, a) ==> a in JunkAfter(at, i, s, junk)
  {
    assert !IsStore(i);
  }

  /** Registers set to the same value on both sides, and memory touched only where it may be. */
  lemma ControlAgrees(at: Layout, i: Instr, junk: iset<Word>, s: State, t: State, u: State, rd: nat, v: Word)
    requires Fair(at, i, s, junk) && IsControl(i) && Matches(at, junk, s, t) && Close(at, R(s, SP), t, u)
    ensures Matches(at, JunkAfter(at, i, s, junk), SetR(s, rd, v), SetR(u, rd, v))
  {
    hide JunkAfter, R, MemByte, Clear, TablesIn, InTables, InArea, InCheck, StaysAbove, Accepted, SetR;
    ControlJunk(at, i, junk, s);
    SameSp(junk, s, t);
    ControlTables(at, i, t, u);
    var j := JunkAfter(at, i, s, junk);
    CloseMemory(at, R(s, SP), t, u);
    forall a: Word | a !in j
      ensures MemByte(u.mem, a) == MemByte(s.mem, a)
    {
      assert MemByte(t.mem, a) == MemByte(s.mem, a);
    }
    forall r: nat | r !in {TP, GP}
      ensures R(u, r) == R(s, r)
    {
      assert R(t, r) == R(s, r);
    }
    SetBoth(at, j, s, u, rd, v);
  }

  lemma CloseMemory(at: Layout, sp: Word, t: State, u: State)
    requires Close(at, sp, t, u)
    ensures forall a: Word :: !InArea(sp, a) && !InCheck(at, a) ==> MemByte(u.mem, a) == MemByte(t.mem, a)
    ensures forall r: nat :: r !in {TP, GP} ==> R(u, r) == R(t, r)
  {
    hide MemByte, R;
  }

  lemma ControlTables(at: Layout, i: Instr, t: State, u: State)
    requires TablesIn(at, t) && Clear(at, R(t, SP)) && Close(at, R(t, SP), t, u)
    ensures TablesIn(at, u)
  {
    hide R, MemByte, Clear, TablesIn, InTables, Close;
    TablesSurvive(at, i, t, t, u);
  }

  lemma SetBoth(at: Layout, j: iset<Word>, s: State, u: State, rd: nat, v: Word)
    requires Agree(j, s, u) && TablesIn(at, u)
    ensures Matches(at, j, SetR(s, rd, v), SetR(u, rd, v))
  {
    hide MemByte, R, TablesAt, SmallTablesAt;
    SameSet(j, s, u, rd, v);
  }

  lemma LaExec(r: nat, addr: Word, s: State)
    requires r != X0
    ensures exists v: Word :: Exec(La(r, addr), s) == SetR(SetR(s, r, v), r, addr)
    ensures NoJump(La(r, addr)) && |La(r, addr)| == 2
  {
    var low := (addr + 0x800) % 0x1000 - 0x800;
    var upper := (addr - low) / 0x1000 % 0x10_0000;
    UpperLower(addr);
    LaPair(r, upper, low, s);
    hide Exec, Wrap, SetR;
    assert La(r, addr) == [Lui(r, upper), Addi(r, r, low)];
  }

  lemma LaPair(r: nat, upper: nat, low: int, s: State)
    requires r != X0
    ensures var v := Wrap(upper * 0x1000);
            Exec([Lui(r, upper), Addi(r, r, low)], s) == SetR(SetR(s, r, v), r, Wrap(v + low))
  {
    Exec2(Lui(r, upper), Addi(r, r, low), s);
    hide Exec, Wrap;
  }

  lemma SetTwice(s: State, r: nat, v: Word, w: Word)
    ensures SetR(SetR(s, r, v), r, w) == SetR(s, r, w)
  {
    if r != X0 {
      assert s.regs[r := v][r := w] == s.regs[r := w];
    }
  }

  /** `jal`: load the address, then jump through the same register. */
  lemma CallRuns(image: map<Word, Base>, pc: int, r: nat, target: Word, s: State)
    requires r != X0 && CodeAt(image, pc, La(r, target) + [Jalr(r, r, 0)])
    ensures 0 <= pc && pc + 12 < 0x1_0000_0000
    ensures Run(image, Machine(s, pc), 3) == Machine(SetR(s, r, pc + 12), JumpTarget(target))
  {
    hide CodeAt, Run, Exec, La, SetR, JumpTarget, R;
    LaExec(r, target, s);
    var v: Word :| Exec(La(r, target), s) == SetR(SetR(s, r, v), r, target);
    CodeAtSplit(image, pc, La(r, target), [Jalr(r, r, 0)]);
    CodeAtRange(image, pc, La(r, target) + [Jalr(r, r, 0)]);
    RunStraight(image, pc, La(r, target), s);
    SetTwice(s, r, v, target);
    var u := SetR(s, r, target);
    RunJump(image, pc + 8, r, r, 0, u);
    RunAppend(image, Machine(s, pc), 2, 1);
    SetTwice(s, r, target, pc + 12);
    SetRead(s, r, target);
    ZeroOffset(target);
  }

  lemma SetRead(s: State, r: nat, v: Word)
    requires r != X0
    ensures R(SetR(s, r, v), r) == v
  {
  }

  lemma CloseTp(at: Layout, sp: Word, t: State, v: Word)
    ensures Close(at, sp, t, SetR(t, TP, v)) && Close(at, sp, t, t)
  {
  }

  lemma JumpRun(at: Layout, p: seq<Instr>, start: int, image: map<Word, Base>, c: Config, c': Config,
                junk: iset<Word>, t: State) returns (n: nat, t': State)
    requires Linked(at, p, start, image) && Next(at, p, start, c, c') && p[c.k].Jump?
    requires Fair(at, p[c.k], c.st, junk) && Matches(at, junk, c.st, t)
    ensures Run(image, Machine(t, AddrWord(at, p, start, c.k)), n) == Machine(t', AddrWord(at, p, start, c'.k))
    ensures Matches(at, JunkAfter(at, p[c.k], c.st, junk), c'.st, t')
  {
    hide Linked, Run, La, SetR, Exec, JunkAfter, Addr, CodeAt, Linkable, StaysAbove, Clear, Matches, JumpTarget, R;
    LinkedLinkable(at, p, start, image);
    var i := p[c.k];
    var r := if i.rd == X0 then TP else i.rd;
    var pc, next, target := AddrWord(at, p, start, c.k), AddrWord(at, p, start, c.k + 1), AddrWord(at, p, start, i.target);
    LinkedAt(at, p, start, image, c.k);
    CallRuns(image, pc, r, target, t);
    CallSize(r, target);
    NextAddress(at, p, start, c.k, next, target);
    AddrIsTarget(at, p, start, i.target);
    n, t' := 3, SetR(t, r, next);
    CloseTp(at, R(c.st, SP), t, next);
    SetZero(c.st, t', next);
    if i.rd == X0 {
      ControlAgrees(at, i, junk, c.st, t, t', X0, next);
    } else {
      ControlAgrees(at, i, junk, c.st, t, t, i.rd, next);
    }
  }

  lemma CallSize(r: nat, target: Word)
    ensures |La(r, target) + [Jalr(r, r, 0)]| == 3
  {
  }

  lemma SetZero(s: State, t: State, v: Word)
    ensures SetR(s, X0, v) == s && SetR(t, X0, v) == t
  {
  }

  lemma JumpRegRun(at: Layout, p: seq<Instr>, start: int, image: map<Word, Base>, c: Config, c': Config,
                   junk: iset<Word>, t: State) returns (n: nat, t': State)
    requires Linked(at, p, start, image) && Next(at, p, start, c, c') && p[c.k].JumpReg?
    requires Fair(at, p[c.k], c.st, junk) && Matches(at, junk, c.st, t)
    ensures Run(image, Machine(t, AddrWord(at, p, start, c.k)), n) == Machine(t', AddrWord(at, p, start, c'.k))
    ensures Matches(at, JunkAfter(at, p[c.k], c.st, junk), c'.st, t')
  {
    hide Linked, Run, SetR, JunkAfter, Addr, CodeAt, Linkable, StaysAbove, Clear, JumpTarget, R, TablesIn;
    LinkedLinkable(at, p, start, image);
    var i := p[c.k];
    var pc, next, target := AddrWord(at, p, start, c.k), AddrWord(at, p, start, c.k + 1), TargetWord(at, p, start, c.k);
    LinkedAt(at, p, start, image, c.k);
    RunJump(image, pc, i.rd, i.rs1, i.off, t);
    NextAddress(at, p, start, c.k, next, target);
    assert R(t, i.rs1) == R(c.st, i.rs1);
    n, t' := 1, SetR(t, i.rd, next);
    CloseTp(at, R(c.st, SP), t, next);
    ControlAgrees(at, i, junk, c.st, t, t, i.rd, next);
  }

  /** The alternatives in the order in which the test chooses them. */
  function Select(test: bool, target: Word, next: Word): seq<Base> {
    if test then BranchSelect(target, next) else BranchSelect(next, target)
  }

  function BranchCode(at: Layout, c: Cond, rs1: nat, rs2: nat, next: Word, target: Word): seq<Base> {
    BranchTest(at, c, rs1, rs2).0 + Select(BranchTest(at, c, rs1, rs2).1, target, next) + [Lw(TP, TP, VAR_B)]
  }

  lemma BranchExpands(at: Layout, i: Instr, next: Word, target: Word)
    requires i.Branch?
    ensures Expand(at, i, next, target) == BranchCode(at, i.c, i.rs1, i.rs2, next, target) + [Jalr(X0, TP, 0)]
    ensures NoJump(BranchCode(at, i.c, i.rs1, i.rs2, next, target))
  {
    hide BranchTest, BranchSelect, KeepsSp;
    var test := BranchTest(at, i.c, i.rs1, i.rs2);
    var select := Select(test.1, target, next);
    assert [Lw(TP, TP, VAR_B), Jalr(X0, TP, 0)] == [Lw(TP, TP, VAR_B)] + [Jalr(X0, TP, 0)];
    assert test.0 + (select + ([Lw(TP, TP, VAR_B)] + [Jalr(X0, TP, 0)])) == test.0 + select + [Lw(TP, TP, VAR_B)] + [Jalr(X0, TP, 0)];
    TestKeepsSp(at, i.c, i.rs1, i.rs2);
    BranchSelectKeeps(target, next);
    BranchSelectKeeps(next, target);
    KeepsSpAppend(test.0, select);
    LoadKeeps();
    KeepsSpAppend(test.0 + select, [Lw(TP, TP, VAR_B)]);
    KeepsSpNoJump(test.0 + select + [Lw(TP, TP, VAR_B)]);
  }

  lemma LoadKeeps()
    ensures KeepsSp([Lw(TP, TP, VAR_B)])
  {
  }

  lemma BranchRuns(at: Layout, image: map<Word, Base>, pc: int, i: Instr, next: Word, target: Word, s: State)
    requires i.Branch? && !Reserved(i.rs1) && !Reserved(i.rs2) && Placement(at, s)
    requires CodeAt(image, pc, Expand(at, i, next, target))
    ensures 0 <= pc < 0x1_0000_0000
    ensures var code := BranchCode(at, i.c, i.rs1, i.rs2, next, target);
            var t := Exec(code, s);
            && Run(image, Machine(s, pc), |code| + 1)
               == Machine(t, JumpTarget(if Taken(i.c, R(s, i.rs1), R(s, i.rs2)) then target else next))
            && Close(at, R(s, SP), s, t)
  {
    hide CodeAt, Run, Exec, Expand, R, Close, Placement, Taken, BranchTest, BranchSelect, JumpTarget, NoJump;
    var code := BranchCode(at, i.c, i.rs1, i.rs2, next, target);
    BranchExpands(at, i, next, target);
    CodeAtSplit(image, pc, code, [Jalr(X0, TP, 0)]);
    CodeAtRange(image, pc, code + [Jalr(X0, TP, 0)]);
    BranchCorrect(at, i.c, i.rs1, i.rs2, next, target, s);
    var t := Exec(code, s);
    StraightEnds(image, pc, code, s);
    RunJump(image, pc + 4 * |code|, X0, TP, 0, t);
    RunAppend(image, Machine(s, pc), |code|, 1);
    ZeroOffset(R(t, TP));
  }

  lemma StraightEnds(image: map<Word, Base>, pc: int, code: seq<Base>, s: State)
    requires CodeAt(image, pc, code) && NoJump(code)
    ensures 0 <= pc && pc + 4 * |code| < 0x1_0000_0000
    ensures Run(image, Machine(s, pc), |code|) == Machine(Exec(code, s), pc + 4 * |code|)
  {
    hide CodeAt, Run, Exec;
    RunStraight(image, pc, code, s);
  }

  lemma BranchRun(at: Layout, p: seq<Instr>, start: int, image: map<Word, Base>, c: Config, c': Config,
                  junk: iset<Word>, t: State) returns (n: nat, t': State)
    requires Linked(at, p, start, image) && Next(at, p, start, c, c') && p[c.k].Branch?
    requires Fair(at, p[c.k], c.st, junk) && Matches(at, junk, c.st, t)
    ensures Run(image, Machine(t, AddrWord(at, p, start, c.k)), n) == Machine(t', AddrWord(at, p, start, c'.k))
    ensures Matches(at, JunkAfter(at, p[c.k], c.st, junk), c'.st, t')
  {
    hide Linked, Run, SetR, JunkAfter, Addr, CodeAt, Linkable, StaysAbove, Clear, JumpTarget, R, TablesIn, Taken, Expand, Placement,
         BranchTest, BranchSelect, Exec, Close;
    LinkedLinkable(at, p, start, image);
    var i := p[c.k];
    var pc, next, target := AddrWord(at, p, start, c.k), AddrWord(at, p, start, c.k + 1), TargetWord(at, p, start, c.k);
    LinkedAt(at, p, start, image, c.k);
    AgreePlacement(at, i, junk, c.st, t);
    BranchRuns(at, image, pc, i, next, target, t);
    assert R(t, i.rs1) == R(c.st, i.rs1) && R(t, i.rs2) == R(c.st, i.rs2);
    AddrIsTarget(at, p, start, c.k + 1);
    AddrIsTarget(at, p, start, i.target);
    var code := BranchCode(at, i.c, i.rs1, i.rs2, next, target);
    n, t' := |code| + 1, Exec(code, t);
    SetZero(c.st, t', 0);
    ControlAgrees(at, i, junk, c.st, t, t', X0, 0);
  }

  // ----- one instruction, and whole runs -----

  /** From one instruction boundary of the original program to the next. */
  lemma InstructionSimulated(at: Layout, p: seq<Instr>, start: int, image: map<Word, Base>, c: Config, c': Config,
                             junk: iset<Word>, t: State) returns (n: nat, t': State)
    requires Linked(at, p, start, image) && Next(at, p, start, c, c')
    requires Fair(at, p[c.k], c.st, junk) && Matches(at, junk, c.st, t)
    ensures Run(image, Machine(t, AddrWord(at, p, start, c.k)), n) == Machine(t', AddrWord(at, p, start, c'.k))
    ensures Matches(at, JunkAfter(at, p[c.k], c.st, junk), c'.st, t')
  {
    hide Linked, Run, JunkAfter, Addr, Matches, Fair;
    match p[c.k] {
      case Branch(_, _, _, _) => n, t' := BranchRun(at, p, start, image, c, c', junk, t);
      case Jump(_, _) => n, t' := JumpRun(at, p, start, image, c, c', junk, t);
      case JumpReg(_, _, _) => n, t' := JumpRegRun(at, p, start, image, c, c', junk, t);
      case _ => n, t' := StraightRun(at, p, start, image, c, c', junk, t);
    }
  }

  /** A run of the original program, from boundary to boundary. */
  ghost predicate IsRun(at: Layout, p: seq<Instr>, start: int, cs: seq<Config>)
    requires Linkable(at, p, start)
  {
    && cs != [] && cs[0].k <= |p|
    && forall j: nat | j + 1 < |cs| :: Next(at, p, start, cs[j], cs[j + 1])
  }

  /** The junk at boundary `j`, when there is none at the start. */
  ghost function JunkAt(at: Layout, p: seq<Instr>, cs: seq<Config>, j: nat): iset<Word>
    requires j < |cs| && forall i :: 0 <= i < j ==> cs[i].k < |p|
  {
    if j == 0 then iset{} else JunkAfter(at, p[cs[j - 1].k], cs[j - 1].st, JunkAt(at, p, cs, j - 1))
  }

  lemma RunInside(at: Layout, p: seq<Instr>, start: int, cs: seq<Config>, j: nat)
    requires Linkable(at, p, start) && IsRun(at, p, start, cs) && j < |cs|
    ensures cs[j].k <= |p| && (j + 1 < |cs| ==> cs[j].k < |p|)
  {
    hide Linkable;
    if j > 0 {
      assert Next(at, p, start, cs[j - 1], cs[j - 1 + 1]);
    }
    if j + 1 < |cs| {
      assert Next(at, p, start, cs[j], cs[j + 1]);
    }
  }

  /** The assumptions of inst-replace.h hold at every instruction of the run. */
  ghost predicate FairRun(at: Layout, p: seq<Instr>, start: int, cs: seq<Config>)
    requires Linkable(at, p, start) && IsRun(at, p, start, cs)
  {
    forall j: nat | j + 1 < |cs| :: FairStep(at, p, start, cs, j)
  }

  ghost predicate FairStep(at: Layout, p: seq<Instr>, start: int, cs: seq<Config>, j: nat)
    requires Linkable(at, p, start) && IsRun(at, p, start, cs) && j + 1 < |cs|
  {
    RunBounds(at, p, start, cs);
    Fair(at, p[cs[j].k], cs[j].st, JunkAt(at, p, cs, j))
  }

  lemma RunBounds(at: Layout, p: seq<Instr>, start: int, cs: seq<Config>)
    requires Linkable(at, p, start) && IsRun(at, p, start, cs)
    ensures forall j: nat | j < |cs| :: cs[j].k <= |p|
    ensures forall j: nat | j + 1 < |cs| :: cs[j].k < |p|
  {
    hide Linkable, IsRun;
    forall j: nat | j < |cs|
      ensures cs[j].k <= |p| && (j + 1 < |cs| ==> cs[j].k < |p|)
    {
      RunInside(at, p, start, cs, j);
    }
  }

  /** At boundary `j` the machine, after `n` steps from `t`, is in state `u` at the same instruction. */
  ghost predicate Boundary(at: Layout, p: seq<Instr>, start: int, image: map<Word, Base>, cs: seq<Config>, t: State,
                           j: nat, n: nat, u: State)
    requires Linkable(at, p, start) && IsRun(at, p, start, cs) && j < |cs|
  {
    RunBounds(at, p, start, cs);
    && Run(image, Machine(t, AddrWord(at, p, start, cs[0].k)), n) == Machine(u, AddrWord(at, p, start, cs[j].k))
    && Matches(at, JunkAt(at, p, cs, j), cs[j].st, u)
  }

  /**
   Compiled programs simulate: along every run of the program that meets the assumptions, the machine
   that executes the expansion passes the same instruction boundaries in the same order, and at each of
   them has the same registers, but for `tp` and `gp`, and the same memory, but for the junk.
   */
  lemma {:induction false} ProgramSimulated(at: Layout, p: seq<Instr>, start: int, image: map<Word, Base>, cs: seq<Config>, t: State, j: nat)
    returns (marks: seq<nat>, states: seq<State>)
    requires Linked(at, p, start, image) && IsRun(at, p, start, cs) && FairRun(at, p, start, cs)
    requires Matches(at, iset{}, cs[0].st, t)
    requires j < |cs|
    ensures |marks| == |states| == j + 1 && marks[0] == 0
    ensures forall i: nat | i < j :: marks[i] <= marks[i + 1]
    ensures forall i: nat | i <= j :: Boundary(at, p, start, image, cs, t, i, marks[i], states[i])
    decreases j
  {
    hide Linked, Run, JunkAfter, Addr, Matches, Fair, IsRun, FairRun, Next, Linkable, FairStep, Boundary;
    LinkedLinkable(at, p, start, image);
    if j == 0 {
      marks, states := [0], [t];
      BoundaryZero(at, p, start, image, cs, t);
    } else {
      marks, states := ProgramSimulated(at, p, start, image, cs, t, j - 1);
      var n, u := BoundaryStep(at, p, start, image, cs, t, j - 1, marks[j - 1], states[j - 1]);
      marks, states := marks + [n], states + [u];
    }
  }

  lemma BoundaryZero(at: Layout, p: seq<Instr>, start: int, image: map<Word, Base>, cs: seq<Config>, t: State)
    requires Linkable(at, p, start) && IsRun(at, p, start, cs) && Matches(at, iset{}, cs[0].st, t)
    ensures Boundary(at, p, start, image, cs, t, 0, 0, t)
  {
    hide MachineStep, JunkAfter, Addr, Matches, Linkable, IsRun;
    RunBounds(at, p, start, cs);
  }

  lemma BoundaryStep(at: Layout, p: seq<Instr>, start: int, image: map<Word, Base>, cs: seq<Config>, t: State, j: nat, n: nat, u: State)
    returns (n': nat, u': State)
    requires Linked(at, p, start, image) && IsRun(at, p, start, cs) && j + 1 < |cs| && FairRun(at, p, start, cs)
    requires Boundary(at, p, start, image, cs, t, j, n, u)
    ensures n <= n' && Boundary(at, p, start, image, cs, t, j + 1, n', u')
  {
    hide Linked, Run, JunkAfter, Addr, Matches, Fair, Next, Linkable;
    LinkedLinkable(at, p, start, image);
    RunBounds(at, p, start, cs);
    assert Next(at, p, start, cs[j], cs[j + 1]);
    assert FairStep(at, p, start, cs, j);
    var k: nat;
    k, u' := InstructionSimulated(at, p, start, image, cs[j], cs[j + 1], JunkAt(at, p, cs, j), u);
    n' := n + k;
    RunAppend(image, Machine(t, AddrWord(at, p, start, cs[0].k)), n, k);
  }
}
