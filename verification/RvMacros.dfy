/**
 The replacement macros of rvmini as code generators
 (abstract-machine/tools/rvmini/inst-replace.h, lines 42-725): each function returns the base
 instructions that the assembler emits for one macro call.

 `la` with a constant address becomes a `lui`/`addi` pair; `mv`, `li` with a 12-bit constant and `jr`
 are the usual pseudo-instructions for one `addi` or `jalr`.
 */
module RvMacros {
  import opened RvMachine
  import opened RvLut

  /** Addresses of the symbols in the read-only section. */
  datatype Layout = Layout(
    checkSame: Word, sameResult: Word, zero8: Word, slt1: Word, sltu1: Word, or1: Word, lut: Word)

  // Offsets of the scratch slots from `sp`.
  const SAVE_1: int := -4
  const SAVE_2: int := -8
  const SAVE_3: int := -12
  const VAR_A: int := -16
  const VAR_B: int := -20
  const VAR_C: int := -24
  const VAR_D: int := -28

  function La(r: nat, addr: int): seq<Base> {
    var low := (addr + 0x800) % 0x1000 - 0x800;
    [Lui(r, (addr - low) / 0x1000 % 0x10_0000), Addi(r, r, low)]
  }

  function Mv(rd: nat, rs: nat): Base {
    Addi(rd, rs, 0)
  }

  function GetByte(rd: nat, rs1: nat, k: nat): seq<Base> {
    [Sw(rs1, SP, VAR_C), Lbu(rd, SP, VAR_C + k)]
  }

  /** `add rd, rd, rd`, `n` times. */
  function Doubling(rd: nat, n: nat): seq<Base> {
    if n == 0 then [] else [Add(rd, rd, rd)] + Doubling(rd, n - 1)
  }

  function ShHalf(rs: nat, base: nat, off: int): seq<Base> {
    [Sb(rs, base, off)] + GetByte(TP, rs, 1) + [Sb(TP, base, off + 1)]
  }

  function Slli(rd: nat, rs1: nat, imm: nat): seq<Base>
    decreases imm
  {
    if imm == 0 then
      if rd != rs1 then [Mv(rd, rs1)] else []
    else if imm >= 24 then
      [Sw(X0, SP, VAR_A), Sb(rs1, SP, VAR_A + 3), Lw(rd, SP, VAR_A)] + Slli(rd, rd, imm - 24)
    else if imm >= 16 then
      [Sw(X0, SP, VAR_A)] + ShHalf(rs1, SP, VAR_A + 2) + [Lw(rd, SP, VAR_A)] + Slli(rd, rd, imm - 16)
    else
      [Add(rd, rs1, rs1)] + Doubling(rd, imm - 1)
  }

  /** The sign bit. */
  function Msb(rd: nat, rs1: nat): seq<Base> {
    GetByte(rd, rs1, 3) + Slli(rd, rd, 1) + GetByte(rd, rd, 1)
  }

  function NotByte(k: nat): seq<Base> {
    [Lbu(GP, SP, VAR_C + k), Add(GP, GP, TP), Lbu(GP, GP, 0), Sb(GP, SP, VAR_D + k)]
  }

  function NotBytes(): seq<Base> {
    NotByte(3) + NotByte(2) + NotByte(1) + NotByte(0)
  }

  function Not(at: Layout, rd: nat, rs1: nat): seq<Base> {
    [Sw(GP, SP, SAVE_3), Sw(rs1, SP, VAR_C)]
    + La(TP, at.lut + Position(XorTable, 0xff, 0, 0))
    + NotBytes()
    + [Lw(GP, SP, SAVE_3), Lw(rd, SP, VAR_D)]
  }

  function Sub(at: Layout, rd: nat, rs1: nat, rs2: nat): seq<Base> {
    Not(at, TP, rs2) + [Add(rd, rs1, TP), Addi(rd, rd, 1)]
  }

  /** `gp` becomes the three sign bits of `s0`, `s1` and `s0 - s1`, as a number. */
  function SignIndex(at: Layout): seq<Base> {
    Msb(GP, S0) + Slli(GP, GP, 1)
    + (Msb(TP, S1) + [Add(GP, GP, TP)] + Slli(GP, GP, 1))
    + (Sub(at, TP, S0, S1) + Msb(TP, TP) + [Add(GP, GP, TP)])
  }

  /** `s0` and `s1` become copies of the operands; their values are saved. */
  function SltEnter(rs1: nat, rs2: nat): seq<Base> {
    [Sw(S0, SP, SAVE_1), Sw(S1, SP, SAVE_2), Sw(rs2, SP, VAR_A), Mv(S0, rs1), Lw(S1, SP, VAR_A)]
  }

  function SltLeave(rd: nat): seq<Base> {
    [Add(TP, TP, GP), Lw(S1, SP, SAVE_2), Lw(S0, SP, SAVE_1), Lbu(rd, TP, 0)]
  }

  function SltTemplate(at: Layout, table: Word, rd: nat, rs1: nat, rs2: nat): seq<Base> {
    SltEnter(rs1, rs2) + SignIndex(at) + La(TP, table) + SltLeave(rd)
  }

  function PairBytes(k: nat): seq<Base> {
    [Lbu(TP, SP, VAR_A + k), Sb(TP, SP, VAR_D + 1), Lbu(TP, SP, VAR_B + k), Sb(TP, SP, VAR_D)]
  }

  function LookupPair(lutReg: nat, k: nat): seq<Base> {
    [Lw(TP, SP, VAR_D), Add(TP, lutReg, TP), Lbu(TP, TP, 0), Sb(TP, SP, VAR_C + k)]
  }

  function LogicByte(lutReg: nat, k: nat): seq<Base> {
    PairBytes(k) + LookupPair(lutReg, k)
  }

  function LogicBytes(lutReg: nat): seq<Base> {
    LogicByte(lutReg, 3) + LogicByte(lutReg, 2) + LogicByte(lutReg, 1) + LogicByte(lutReg, 0)
  }

  function StoreOperands(rs1: nat, rs2: nat): seq<Base> {
    [Sw(rs1, SP, VAR_A), Sw(rs2, SP, VAR_B)]
  }

  function Logic(at: Layout, t: Table, rd: nat, rs1: nat, rs2: nat): seq<Base> {
    StoreOperands(rs1, rs2) + La(rd, at.lut + Offset(t)) + [Sw(X0, SP, VAR_D)] + LogicBytes(rd) + [Lw(rd, SP, VAR_C)]
  }

  /** Marks the entry of the first byte with 1. */
  function MarkFirst(table: nat, rd: nat, k: nat): seq<Base> {
    [Lbu(rd, SP, VAR_A + k), Add(TP, table, rd), Addi(rd, X0, 1), Sb(rd, TP, 0)]
  }

  /** Marks the entry of the second byte with 0 and reads the first entry again. */
  function MarkSecond(table: nat, rd: nat, k: nat): seq<Base> {
    [Lbu(rd, SP, VAR_B + k), Add(rd, table, rd), Sb(X0, rd, 0), Lbu(rd, TP, 0)]
  }

  function Check8Same(table: nat, rd: nat, k: nat): seq<Base> {
    MarkFirst(table, rd, k) + MarkSecond(table, rd, k)
  }

  function CheckAdd(k: nat): seq<Base> {
    Check8Same(S0, S1, k) + [Add(GP, GP, S1)]
  }

  function SaveBoth(): seq<Base> {
    [Sw(S0, SP, SAVE_1), Sw(S1, SP, SAVE_2)]
  }

  function SeqEnter(rs1: nat, rs2: nat): seq<Base> {
    StoreOperands(rs1, rs2) + SaveBoth()
  }

  function SeqLeave(rd: nat): seq<Base> {
    [Add(TP, TP, GP), Lbu(rd, TP, 0), Lw(S1, SP, SAVE_2), Lw(S0, SP, SAVE_1)]
  }

  function CheckBytes(at: Layout): seq<Base> {
    La(S0, at.checkSame) + Check8Same(S0, GP, 0) + CheckAdd(1) + CheckAdd(2) + CheckAdd(3)
  }

  function Seq(at: Layout, rd: nat, rs1: nat, rs2: nat): seq<Base> {
    SeqEnter(rs1, rs2) + CheckBytes(at) + La(TP, at.sameResult) + SeqLeave(rd)
  }

  function Check8Zero(table: nat, rd: nat, k: nat): seq<Base> {
    [Lbu(rd, SP, VAR_A + k), Add(rd, table, rd), Lbu(rd, rd, 0)]
  }

  function ZeroAdd(k: nat): seq<Base> {
    Check8Zero(S0, TP, k) + [Add(GP, GP, TP)]
  }

  function ZeroBytes(at: Layout): seq<Base> {
    La(S0, at.zero8) + Check8Zero(S0, GP, 0) + ZeroAdd(1) + ZeroAdd(2) + ZeroAdd(3)
  }

  function SeqzEnter(rs1: nat): seq<Base> {
    [Sw(rs1, SP, VAR_A), Sw(S0, SP, SAVE_1)]
  }

  function SeqzLeave(rd: nat): seq<Base> {
    [Add(TP, TP, GP), Lbu(rd, TP, 0), Lw(S0, SP, SAVE_1)]
  }

  function Seqz(at: Layout, rd: nat, rs1: nat): seq<Base> {
    SeqzEnter(rs1) + ZeroBytes(at) + La(TP, at.sameResult) + SeqzLeave(rd)
  }

  /** Stores the two jump targets; `tp` is left pointing five words below the chosen one. */
  function BranchSelect(higher: Word, lower: Word): seq<Base> {
    Slli(TP, TP, 2) + [Add(TP, SP, TP)]
    + (La(GP, higher) + [Sw(GP, SP, VAR_A)]) + (La(GP, lower) + [Sw(GP, SP, VAR_B)])
  }

  /** Jumps to `higher` when `tp` is 1 and to `lower` when it is 0. */
  function BranchResolve(higher: Word, lower: Word): seq<Base> {
    BranchSelect(higher, lower) + [Lw(TP, TP, VAR_B), Jalr(X0, TP, 0)]
  }

  function GetShamt(at: Layout, rd: nat, rs1: nat): seq<Base> {
    [Sb(rs1, SP, VAR_B), Lbu(rd, SP, VAR_B)]
    + La(TP, at.lut + Position(AndTable, 0x1f, 0, 0))
    + [Add(rd, rd, TP), Lbu(rd, rd, 0)]
  }

  /** `base` becomes the address of the row of `t` that `rs2` selects. */
  function ShiftRow(at: Layout, t: Table, base: nat, rs2: nat): seq<Base> {
    GetShamt(at, base, rs2) + ByteUp(base) + Slli(base, base, 2) + La(TP, at.lut + Offset(t)) + [Add(base, base, TP)]
  }

  function ByteUp(r: nat): seq<Base> {
    [Sw(X0, SP, VAR_B), Sb(r, SP, VAR_B + 1), Lw(r, SP, VAR_B)]
  }

  function ShiftByte(base: nat, k: nat): seq<Base> {
    [Lbu(TP, SP, VAR_A + k)] + Slli(TP, TP, 2) + [Add(TP, base, TP), Lw(TP, TP, 0)]
  }

  function ShiftEnter(rs1: nat): seq<Base> {
    [Sw(S0, SP, SAVE_1), Sw(rs1, SP, VAR_A)]
  }

  function ShiftLeave(rd: nat): seq<Base> {
    [Lw(S0, SP, SAVE_1), Add(rd, GP, TP)]
  }

  function Sll(at: Layout, rd: nat, rs1: nat, rs2: nat): seq<Base> {
    ShiftEnter(rs1) + ShiftRow(at, SllTable, S0, rs2) + SllBody() + ShiftLeave(rd)
  }

  function SllByte3(): seq<Base> {
    ShiftByte(S0, 3) + [Sb(TP, SP, VAR_B + 3), Lw(GP, SP, VAR_B)]
  }

  function SllByte2(): seq<Base> {
    ShiftByte(S0, 2) + ShHalf(TP, SP, VAR_B + 2) + [Lw(TP, SP, VAR_B), Add(GP, GP, TP)]
  }

  function SllByte1(): seq<Base> {
    ShiftByte(S0, 1) + Slli(TP, TP, 8) + [Add(GP, GP, TP)]
  }

  /** `gp + tp` becomes the shifted word. */
  function SllBody(): seq<Base> {
    [Sw(X0, SP, VAR_B)] + SllByte3() + SllByte2() + SllByte1() + ShiftByte(S0, 0)
  }

  /** The fast path of `shift_right_template` for a shift by 24. */
  function ShiftRight24(at: Layout, arith: bool, rd: nat, rs1: nat): seq<Base> {
    if arith then
      [Sw(rs1, SP, VAR_A)] + La(TP, at.lut + Position(SraTable, 24, 0, 0))
      + [Lbu(rd, SP, VAR_A + 3)] + Slli(rd, rd, 2) + [Add(TP, TP, rd), Lw(rd, TP, 0)]
    else
      GetByte(rd, rs1, 3)
  }

  function LookupTo(k: nat, slot: int): seq<Base> {
    ShiftByte(S0, k) + [Sw(TP, SP, slot)]
  }

  function Combine0(): seq<Base> {
    [Lbu(GP, SP, VAR_B + 1), Lbu(TP, SP, VAR_C + 2), Add(GP, GP, TP)]
    + [Lbu(TP, SP, VAR_D + 3), Add(GP, GP, TP), Sw(GP, SP, VAR_D)]
  }

  function Combine1(): seq<Base> {
    [Lbu(GP, SP, VAR_B + 2), Lbu(TP, SP, VAR_C + 3), Add(GP, GP, TP), Sb(GP, SP, VAR_D + 1)]
  }

  function Combine2(): seq<Base> {
    [Lbu(GP, SP, VAR_B + 3), Sb(GP, SP, VAR_D + 2), Lw(GP, SP, VAR_D)]
  }

  function SraRow(arith: bool): seq<Base> {
    if arith then La(TP, Offset(SraTable) - Offset(SrlTable)) + [Add(S0, S0, TP)] else []
  }

  /** From the `srl` row in `s0`: `gp + tp` becomes the shifted word. */
  function ShiftRightBody(arith: bool): seq<Base> {
    (LookupTo(2, VAR_B) + LookupTo(1, VAR_C) + LookupTo(0, VAR_D))
    + (Combine0() + Combine1() + Combine2())
    + SraRow(arith) + ShiftByte(S0, 3)
  }

  function ShiftRight(at: Layout, arith: bool, rd: nat, rs1: nat, rs2: nat): seq<Base> {
    ShiftEnter(rs1) + ShiftRow(at, SrlTable, S0, rs2) + ShiftRightBody(arith) + ShiftLeave(rd)
  }

  function ShiftRightImm(at: Layout, arith: bool, rd: nat, rs1: nat, imm: nat): seq<Base> {
    if imm == 24 then ShiftRight24(at, arith, rd, rs1)
    else
      ShiftEnter(rs1) + La(S0, at.lut + Position(SrlTable, imm, 0, 0)) + ShiftRightBody(arith) + ShiftLeave(rd)
  }

  function Lb(at: Layout, rd: nat, base: nat, off: int): seq<Base> {
    [Sw(X0, SP, VAR_A), Lbu(rd, base, off), Sb(rd, SP, VAR_A + 3), Lw(rd, SP, VAR_A)]
    + ShiftRightImm(at, true, rd, rd, 24)
  }

  function Lhu(rd: nat, base: nat, off: int): seq<Base> {
    [Sw(X0, SP, VAR_A), Lbu(TP, base, off + 1), Sb(TP, SP, VAR_A + 1), Lw(TP, SP, VAR_A)]
    + [Lbu(rd, base, off), Add(rd, rd, TP)]
  }

  function Lh(at: Layout, rd: nat, base: nat, off: int): seq<Base> {
    [Sw(X0, SP, VAR_A), Lbu(GP, base, off + 1), Sb(GP, SP, VAR_A + 3), Lw(GP, SP, VAR_A)]
    + ShiftRightImm(at, true, GP, GP, 16)
    + [Lbu(rd, base, off), Add(rd, rd, GP)]
  }

  /** `tp` becomes 0 when `rs2` is positive and 1 otherwise. */
  function NotPositive(at: Layout, rs2: nat): seq<Base> {
    Msb(GP, rs2) + [Addi(TP, rs2, -1)] + Msb(TP, TP) + [Add(GP, GP, TP)]
    + La(TP, at.or1) + [Add(TP, GP, TP), Lbu(TP, TP, 0)]
  }
}
