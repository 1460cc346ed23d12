/**
 Straight-line code seen from inside one macro expansion.

 The macros keep their temporaries in seven words below `sp`.  `Local` is the machine state with that
 area split off the memory: byte `k` of the area (counted down from `sp`, so `-28 <= k < 0`) has its
 own cell.  Execution on a `Local` state agrees with execution on the machine state as long as `sp`
 stays put and every other memory access misses the area; `ok` records the latter.
 */
module RvScratch {
  import opened RvMachine

  const AREA: int := 28

  datatype Local = Local(regs: map<nat, Word>, area: map<int, Byte>, mem: map<Word, Byte>, ok: bool)

  function LR(l: Local, r: nat): Word {
    if r != X0 && r in l.regs then l.regs[r] else 0
  }

  function LSet(l: Local, r: nat, v: Word): Local {
    if r == X0 then l else l.(regs := l.regs[r := v])
  }

  function AreaByte(l: Local, k: int): Byte {
    if k in l.area then l.area[k] else 0
  }

  function AreaWord(l: Local, k: int): Word {
    WordOf(AreaByte(l, k), AreaByte(l, k + 1), AreaByte(l, k + 2), AreaByte(l, k + 3))
  }

  function LEa(l: Local, base: nat, off: int): Word {
    Wrap(LR(l, base) + off)
  }

  /** `size` bytes at `off(base)` lie in the scratch area. */
  predicate IsLocal(base: nat, off: int, size: nat) {
    base == SP && -AREA <= off && off + size <= 0
  }

  /** `size` bytes at address `a` miss the scratch area below `sp`. */
  predicate Misses(sp: Word, a: Word, size: nat) {
    a + size <= sp - AREA || (sp <= a && a + size <= 0x1_0000_0000 + sp - AREA)
  }

  function SetByte(l: Local, k: int, b: Byte): Local {
    l.(area := l.area[k := b])
  }

  function SetWord(l: Local, k: int, w: Word): Local {
    l.(area := l.area[k := ByteOf(w, 0)][k + 1 := ByteOf(w, 1)][k + 2 := ByteOf(w, 2)][k + 3 := ByteOf(w, 3)])
  }

  /** A memory access outside the area, at `off(base)`. */
  function Touch(l: Local, base: nat, off: int, size: nat): Local {
    l.(ok := l.ok && Misses(LR(l, SP), LEa(l, base, off), size))
  }

  function SetMem(l: Local, m: map<Word, Byte>): Local {
    l.(mem := m)
  }

  function LStep(i: Base, l: Local): Local {
    match i
    case Add(rd, rs1, rs2) => LSet(l, rd, Wrap(LR(l, rs1) + LR(l, rs2)))
    case Addi(rd, rs1, imm) => LSet(l, rd, Wrap(LR(l, rs1) + imm))
    case Lui(rd, upper) => LSet(l, rd, Wrap(upper * 0x1000))
    case Lw(rd, base, off) =>
      if IsLocal(base, off, 4) then LSet(l, rd, AreaWord(l, off))
      else LSet(Touch(l, base, off, 4), rd, MemWord(l.mem, LEa(l, base, off)))
    case Lbu(rd, base, off) =>
      if IsLocal(base, off, 1) then LSet(l, rd, AreaByte(l, off))
      else LSet(Touch(l, base, off, 1), rd, MemByte(l.mem, LEa(l, base, off)))
    case Sw(rs, base, off) =>
      if IsLocal(base, off, 4) then SetWord(l, off, LR(l, rs))
      else SetMem(Touch(l, base, off, 4), StoreWord(l.mem, LEa(l, base, off), LR(l, rs)))
    case Sb(rs, base, off) =>
      if IsLocal(base, off, 1) then SetByte(l, off, ByteOf(LR(l, rs), 0))
      else SetMem(Touch(l, base, off, 1), l.mem[LEa(l, base, off) := ByteOf(LR(l, rs), 0)])
    case Jalr(_, _, _) => l
  }

  lemma Rules()
    ensures forall l, r, v: Word, q {:trigger LR(LSet(l, r, v), q)} :: LR(LSet(l, r, v), q) == if q == r && r != X0 then v else LR(l, q)
    ensures forall l, k, b: Byte, q {:trigger LR(SetByte(l, k, b), q)} :: LR(SetByte(l, k, b), q) == LR(l, q)
    ensures forall l, k, w: Word, q {:trigger LR(SetWord(l, k, w), q)} :: LR(SetWord(l, k, w), q) == LR(l, q)
    ensures forall l, b, o, n, q {:trigger LR(Touch(l, b, o, n), q)} :: LR(Touch(l, b, o, n), q) == LR(l, q)
    ensures forall l, m, q {:trigger LR(SetMem(l, m), q)} :: LR(SetMem(l, m), q) == LR(l, q)
    ensures forall l, r, v: Word, j {:trigger AreaByte(LSet(l, r, v), j)} :: AreaByte(LSet(l, r, v), j) == AreaByte(l, j)
    ensures forall l, k, b: Byte, j {:trigger AreaByte(SetByte(l, k, b), j)} :: AreaByte(SetByte(l, k, b), j) == if j == k then b else AreaByte(l, j)
    ensures forall l, k, w: Word, j {:trigger AreaByte(SetWord(l, k, w), j)} ::
              AreaByte(SetWord(l, k, w), j) == if k <= j < k + 4 then ByteOf(w, j - k) else AreaByte(l, j)
    ensures forall l, b, o, n, j {:trigger AreaByte(Touch(l, b, o, n), j)} :: AreaByte(Touch(l, b, o, n), j) == AreaByte(l, j)
    ensures forall l, m, j {:trigger AreaByte(SetMem(l, m), j)} :: AreaByte(SetMem(l, m), j) == AreaByte(l, j)
    ensures forall l, r, v: Word {:trigger LSet(l, r, v)} :: LSet(l, r, v).mem == l.mem && LSet(l, r, v).ok == l.ok
    ensures forall l, k, b: Byte {:trigger SetByte(l, k, b)} :: SetByte(l, k, b).mem == l.mem && SetByte(l, k, b).ok == l.ok
    ensures forall l, k, w: Word {:trigger SetWord(l, k, w)} :: SetWord(l, k, w).mem == l.mem && SetWord(l, k, w).ok == l.ok
    ensures forall l, m {:trigger SetMem(l, m)} :: SetMem(l, m).mem == m && SetMem(l, m).ok == l.ok
    ensures forall l, b, o, n {:trigger Touch(l, b, o, n)} ::
              Touch(l, b, o, n).mem == l.mem && Touch(l, b, o, n).ok == (l.ok && Misses(LR(l, SP), LEa(l, b, o), n))
  {
  }

  function LExec(code: seq<Base>, l: Local): Local {
    if code == [] then l else LExec(code[1..], LStep(code[0], l))
  }

  lemma {:induction false} LExecAppend(c1: seq<Base>, c2: seq<Base>, l: Local)
    ensures LExec(c1 + c2, l) == LExec(c2, LExec(c1, l))
  {
    if c1 == [] {
      assert c1 + c2 == c2;
    } else {
      assert (c1 + c2)[1..] == c1[1..] + c2;
      LExecAppend(c1[1..], c2, LStep(c1[0], l));
    }
  }

  lemma LExec1(a: Base, l: Local)
    ensures LExec([a], l) == LStep(a, l)
  {
    assert [a][1..] == [];
  }

  lemma LExec2(a: Base, b: Base, l: Local)
    ensures LExec([a, b], l) == LStep(b, LStep(a, l))
  {
    assert [a, b][1..] == [b];
    LExec1(b, LStep(a, l));
  }

  lemma LExec3(a: Base, b: Base, c: Base, l: Local)
    ensures LExec([a, b, c], l) == LStep(c, LStep(b, LStep(a, l)))
  {
    assert [a, b, c][1..] == [b, c];
    LExec2(b, c, LStep(a, l));
  }

  lemma LExec4(a: Base, b: Base, c: Base, d: Base, l: Local)
    ensures LExec([a, b, c, d], l) == LStep(d, LStep(c, LStep(b, LStep(a, l))))
  {
    assert [a, b, c, d][1..] == [b, c, d];
    LExec3(b, c, d, LStep(a, l));
  }

  lemma Join3(c1: seq<Base>, c2: seq<Base>, c3: seq<Base>, l: Local)
    ensures LExec(c1 + c2 + c3, l) == LExec(c3, LExec(c2, LExec(c1, l)))
  {
    LExecAppend(c1 + c2, c3, l);
    LExecAppend(c1, c2, l);
  }

  lemma Join4(c1: seq<Base>, c2: seq<Base>, c3: seq<Base>, c4: seq<Base>, l: Local)
    ensures LExec(c1 + c2 + c3 + c4, l) == LExec(c4, LExec(c3, LExec(c2, LExec(c1, l))))
  {
    LExecAppend(c1 + c2 + c3, c4, l);
    Join3(c1, c2, c3, l);
  }

  lemma Join5(c1: seq<Base>, c2: seq<Base>, c3: seq<Base>, c4: seq<Base>, c5: seq<Base>, l: Local)
    ensures LExec(c1 + c2 + c3 + c4 + c5, l) == LExec(c5, LExec(c4, LExec(c3, LExec(c2, LExec(c1, l)))))
  {
    LExecAppend(c1 + c2 + c3 + c4, c5, l);
    Join4(c1, c2, c3, c4, l);
  }

  lemma Join6(c1: seq<Base>, c2: seq<Base>, c3: seq<Base>, c4: seq<Base>, c5: seq<Base>, c6: seq<Base>, l: Local)
    ensures LExec(c1 + c2 + c3 + c4 + c5 + c6, l) == LExec(c6, LExec(c5, LExec(c4, LExec(c3, LExec(c2, LExec(c1, l))))))
  {
    LExecAppend(c1 + c2 + c3 + c4 + c5, c6, l);
    Join5(c1, c2, c3, c4, c5, l);
  }

  // ----- frames -----

  /** The four bytes of the scratch word at offset `k`. */
  function Cells(k: int): set<int> {
    {k, k + 1, k + 2, k + 3}
  }

  /** Nothing but the registers `regs` and the scratch bytes `cells` has changed. */
  ghost predicate Same(l: Local, t: Local, regs: set<nat>, cells: set<int>) {
    && t.mem == l.mem && t.ok == l.ok
    && (forall r: nat :: r !in regs ==> LR(t, r) == LR(l, r))
    && (forall k: int :: k !in cells ==> AreaByte(t, k) == AreaByte(l, k))
  }

  lemma SameWider(l: Local, t: Local, r1: set<nat>, c1: set<int>, r2: set<nat>, c2: set<int>)
    requires Same(l, t, r1, c1) && r1 <= r2 && c1 <= c2
    ensures Same(l, t, r2, c2)
  {
  }

  /** Two steps inside one frame. */
  lemma SameChain(l: Local, t: Local, u: Local, r: set<nat>, c: set<int>)
    requires Same(l, t, r, c) && Same(t, u, r, c)
    ensures Same(l, u, r, c)
  {
  }

  /** A register that is given back is outside the frame. */
  lemma SameDrop(l: Local, t: Local, r: set<nat>, c: set<int>, q: nat)
    requires Same(l, t, r, c) && LR(t, q) == LR(l, q)
    ensures Same(l, t, r - {q}, c)
  {
  }

  lemma SameReg(l: Local, t: Local, regs: set<nat>, cells: set<int>, r: nat)
    requires Same(l, t, regs, cells) && r !in regs
    ensures LR(t, r) == LR(l, r)
  {
  }

  lemma SameCell(l: Local, t: Local, regs: set<nat>, cells: set<int>, k: int)
    requires Same(l, t, regs, cells) && k !in cells
    ensures AreaByte(t, k) == AreaByte(l, k)
  {
  }

  lemma SameMemory(l: Local, t: Local, regs: set<nat>, cells: set<int>)
    requires Same(l, t, regs, cells)
    ensures t.mem == l.mem && t.ok == l.ok
  {
  }

  /** A scratch word outside the frame keeps its contents. */
  lemma SameWord(l: Local, t: Local, regs: set<nat>, cells: set<int>, k: int)
    requires Same(l, t, regs, cells) && Cells(k) !! cells
    ensures AreaWord(t, k) == AreaWord(l, k)
  {
    assert k in Cells(k) && k + 1 in Cells(k) && k + 2 in Cells(k) && k + 3 in Cells(k);
  }
}
