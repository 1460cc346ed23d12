/**
 The machine that rvmini programs run on: the eight base instructions
 (abstract-machine/tools/rvmini/inst-replace.h, lines 2-3), with a register file and a byte memory.
 The meaning of the instructions is that of the RISC-V Unprivileged ISA manual, sections 2.4 to 2.6,
 for RV32I.
 */
module RvMachine {
  import opened Bits

  type Word = w: int | 0 <= w < 0x1_0000_0000

  type Byte = b: int | 0 <= b < 0x100

  // Register numbers, by ABI name.
  const X0: nat := 0
  const SP: nat := 2
  const GP: nat := 3
  const TP: nat := 4
  const S0: nat := 8
  const S1: nat := 9

  /** Registers and memory cells that were never written read as zero. */
  datatype State = State(regs: map<nat, Word>, mem: map<Word, Byte>)

  datatype Base =
    | Add(rd: nat, rs1: nat, rs2: nat)
    | Addi(rd: nat, rs1: nat, imm: int)
    | Lui(rd: nat, upper: nat)
    | Lw(rd: nat, base: nat, off: int)
    | Lbu(rd: nat, base: nat, off: int)
    | Sw(rs: nat, base: nat, off: int)
    | Sb(rs: nat, base: nat, off: int)
    | Jalr(rd: nat, rs1: nat, off: int)

  function Wrap(x: int): Word {
    x % W32
  }

  /** Register read; x0 is always zero. */
  function R(s: State, r: nat): Word {
    if r != X0 && r in s.regs then s.regs[r] else 0
  }

  /** Register write; writes to x0 are dropped. */
  function SetR(s: State, r: nat, v: Word): State {
    if r == X0 then s else s.(regs := s.regs[r := v])
  }

  function MemByte(m: map<Word, Byte>, a: Word): Byte {
    if a in m then m[a] else 0
  }

  /** Byte `k` of a word, little endian. */
  function ByteOf(w: Word, k: nat): Byte
    requires k < 4
  {
    if k == 0 then w % 0x100
    else if k == 1 then w / 0x100 % 0x100
    else if k == 2 then w / 0x100 / 0x100 % 0x100
    else w / 0x100 / 0x100 / 0x100
  }

  /** The number that bytes make, little endian. */
  function Number(bytes: seq<Byte>): nat {
    if bytes == [] then 0 else bytes[0] + 0x100 * Number(bytes[1..])
  }

  function WordOf(b0: Byte, b1: Byte, b2: Byte, b3: Byte): Word {
    NumberOfFour(b0, b1, b2, b3);
    Number([b0, b1, b2, b3])
  }

  lemma NumberOfFour(b0: Byte, b1: Byte, b2: Byte, b3: Byte)
    ensures Number([b0, b1, b2, b3]) == b0 + 0x100 * b1 + 0x1_0000 * b2 + 0x100_0000 * b3
  {
    assert [b3][1..] == [] && Number([b3]) == b3;
    assert [b2, b3][1..] == [b3] && Number([b2, b3]) == b2 + 0x100 * Number([b3]);
    assert [b1, b2, b3][1..] == [b2, b3] && Number([b1, b2, b3]) == b1 + 0x100 * Number([b2, b3]);
    assert [b0, b1, b2, b3][1..] == [b1, b2, b3];
  }

  lemma WordOfIs(b0: Byte, b1: Byte, b2: Byte, b3: Byte)
    ensures WordOf(b0, b1, b2, b3) == b0 + 0x100 * b1 + 0x1_0000 * b2 + 0x100_0000 * b3
  {
    NumberOfFour(b0, b1, b2, b3);
    hide Number;
  }

  lemma LowestByte(b: Byte, rest: nat)
    ensures (b + 0x100 * rest) % 0x100 == b && (b + 0x100 * rest) / 0x100 == rest
  {
    DivModUnique(b + 0x100 * rest, 0x100, rest, b);
  }

  lemma BytesOfWordOf(b0: Byte, b1: Byte, b2: Byte, b3: Byte)
    ensures var w := WordOf(b0, b1, b2, b3);
            ByteOf(w, 0) == b0 && ByteOf(w, 1) == b1 && ByteOf(w, 2) == b2 && ByteOf(w, 3) == b3
  {
    var m2: nat := b2 + 0x100 * b3;
    var m1: nat := b1 + 0x100 * m2;
    WordOfIs(b0, b1, b2, b3);
    LowestByte(b0, m1);
    LowestByte(b1, m2);
    LowestByte(b2, b3);
  }

  lemma WordOfBytesOf(w: Word)
    ensures WordOf(ByteOf(w, 0), ByteOf(w, 1), ByteOf(w, 2), ByteOf(w, 3)) == w
  {
    WordOfIs(ByteOf(w, 0), ByteOf(w, 1), ByteOf(w, 2), ByteOf(w, 3));
  }

  function MemWord(m: map<Word, Byte>, a: Word): Word {
    WordOf(MemByte(m, a), MemByte(m, Wrap(a + 1)), MemByte(m, Wrap(a + 2)), MemByte(m, Wrap(a + 3)))
  }

  function StoreWord(m: map<Word, Byte>, a: Word, w: Word): map<Word, Byte> {
    m[a := ByteOf(w, 0)][Wrap(a + 1) := ByteOf(w, 1)][Wrap(a + 2) := ByteOf(w, 2)][Wrap(a + 3) := ByteOf(w, 3)]
  }

  /** Effective address. */
  function Ea(s: State, base: nat, off: int): Word {
    Wrap(R(s, base) + off)
  }

  /** What a base instruction does to registers and memory; a jump is taken by `MachineStep`. */
  function Step(i: Base, s: State): State {
    match i
    case Add(rd, rs1, rs2) => SetR(s, rd, Wrap(R(s, rs1) + R(s, rs2)))
    case Addi(rd, rs1, imm) => SetR(s, rd, Wrap(R(s, rs1) + imm))
    case Lui(rd, upper) => SetR(s, rd, Wrap(upper * 0x1000))
    case Lw(rd, base, off) => SetR(s, rd, MemWord(s.mem, Ea(s, base, off)))
    case Lbu(rd, base, off) => SetR(s, rd, MemByte(s.mem, Ea(s, base, off)))
    case Sw(rs, base, off) => s.(mem := StoreWord(s.mem, Ea(s, base, off), R(s, rs)))
    case Sb(rs, base, off) => s.(mem := s.mem[Ea(s, base, off) := ByteOf(R(s, rs), 0)])
    case Jalr(_, _, _) => s
  }

  /** Straight-line execution. */
  function Exec(code: seq<Base>, s: State): State {
    if code == [] then s else Exec(code[1..], Step(code[0], s))
  }

  lemma {:induction false} ExecAppend(c1: seq<Base>, c2: seq<Base>, s: State)
    ensures Exec(c1 + c2, s) == Exec(c2, Exec(c1, s))
  {
    if c1 == [] {
      assert c1 + c2 == c2;
    } else {
      assert (c1 + c2)[1..] == c1[1..] + c2;
      ExecAppend(c1[1..], c2, Step(c1[0], s));
    }
  }

  lemma Exec1(a: Base, s: State)
    ensures Exec([a], s) == Step(a, s)
  {
    assert [a][1..] == [];
  }

  lemma Exec2(a: Base, b: Base, s: State)
    ensures Exec([a, b], s) == Step(b, Step(a, s))
  {
    assert [a, b][1..] == [b];
    Exec1(b, Step(a, s));
  }

  lemma Exec3(a: Base, b: Base, c: Base, s: State)
    ensures Exec([a, b, c], s) == Step(c, Step(b, Step(a, s)))
  {
    assert [a, b, c][1..] == [b, c];
    Exec2(b, c, Step(a, s));
  }
}
