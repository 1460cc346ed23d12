/**
 The instructions that rvmini accepts, what they mean, and what they expand to.

 The meaning follows the RISC-V Unprivileged ISA manual, sections 2.4 (integer computational), 2.5
 (control transfer) and 2.6 (load and store).  Control transfers name their target; the expansion of a
 program puts addresses in (`RvProgram`).
 */
module RvSpec {
  import opened Bits
  import opened RvMachine
  import opened RvScratch
  import opened RvLut
  import opened RvMacros
  import opened RvBasicMacros
  import opened RvCompare
  import opened RvMemory

  datatype Op = OpSub | OpSlt | OpSltu | OpAnd | OpOr | OpXor | OpSll | OpSrl | OpSra

  datatype Narrow = SignedByte | SignedHalf | UnsignedHalf

  datatype Cond = Eq | Ne | Lt | Ge | Ltu | Geu

  datatype Instr =
    | Plain(b: Base)                                             // the base instructions but jalr
    | RType(op: Op, rd: nat, rs1: nat, rs2: nat)
    | IType(op: Op, rd: nat, rs1: nat, imm: int)                 // slti, sltiu, andi, ori, xori
    | ShiftImm(op: Op, rd: nat, rs1: nat, shamt: nat)            // slli, srli, srai
    | Load(width: Narrow, rd: nat, base: nat, off: int)          // lb, lh, lhu
    | StoreHalf(rs: nat, base: nat, off: int)                    // sh
    | NotOf(rd: nat, rs: nat)                                    // the pseudo-instructions not, seqz, sltz
    | IsZero(rd: nat, rs: nat)
    | IsNegative(rd: nat, rs: nat)
    | Branch(c: Cond, rs1: nat, rs2: nat, target: nat)
    | Jump(rd: nat, target: nat)                                 // jal, and j and call
    | JumpReg(rd: nat, rs1: nat, off: int)                       // jalr

  // ----- meaning -----

  /** Register-register operations. */
  function Value(op: Op, a: Word, b: Word): Word {
    match op
    case OpSub => Wrap(a - b)
    case OpSlt => BoolWord(SignedWord(a) < SignedWord(b))
    case OpSltu => BoolWord(a < b)
    case OpAnd => Wrap(And(a, b))
    case OpOr => Wrap(Or(a, b))
    case OpXor => Wrap(Xor(a, b))
    case OpSll => Wrap(a * Pow2(b % 32))
    case OpSrl => Wrap(a / Pow2(b % 32))
    case OpSra => Wrap(SignedWord(a) / Pow2(b % 32))   // rounding down, as Dafny's division does here
  }

  function Loaded(width: Narrow, m: map<Word, Byte>, a: Word): Word {
    match width
    case SignedByte => SignExtend8(MemByte(m, a))
    case SignedHalf => SignExtend16(MemByte(m, a) + 0x100 * MemByte(m, Wrap(a + 1)))
    case UnsignedHalf => MemByte(m, a) + 0x100 * MemByte(m, Wrap(a + 1))
  }

  predicate IsControl(i: Instr) {
    i.Branch? || i.Jump? || i.JumpReg?
  }

  /** Registers and memory after an instruction that is not a control transfer. */
  function Effect(i: Instr, s: State): State {
    match i
    case Plain(b) => Step(b, s)
    case RType(op, rd, rs1, rs2) => SetR(s, rd, Value(op, R(s, rs1), R(s, rs2)))
    case IType(op, rd, rs1, imm) => SetR(s, rd, Value(op, R(s, rs1), Wrap(imm)))
    case ShiftImm(op, rd, rs1, shamt) => SetR(s, rd, Value(op, R(s, rs1), Wrap(shamt)))
    case Load(width, rd, base, off) => SetR(s, rd, Loaded(width, s.mem, Ea(s, base, off)))
    case StoreHalf(rs, base, off) =>
      s.(mem := s.mem[Ea(s, base, off) := ByteOf(R(s, rs), 0)][Wrap(Ea(s, base, off) + 1) := ByteOf(R(s, rs), 1)])
    case NotOf(rd, rs) => SetR(s, rd, 0xFFFF_FFFF - R(s, rs))
    case IsZero(rd, rs) => SetR(s, rd, BoolWord(R(s, rs) == 0))
    case IsNegative(rd, rs) => SetR(s, rd, BoolWord(SignedWord(R(s, rs)) < 0))
    case Branch(_, _, _, _) => s
    case Jump(_, _) => s
    case JumpReg(_, _, _) => s
  }

  predicate Taken(c: Cond, a: Word, b: Word) {
    match c
    case Eq => a == b
    case Ne => a != b
    case Lt => SignedWord(a) < SignedWord(b)
    case Ge => SignedWord(a) >= SignedWord(b)
    case Ltu => a < b
    case Geu => a >= b
  }

  // ----- expansion -----

  function LogicTable(op: Op): Table {
    match op
    case OpOr => OrTable
    case OpXor => XorTable
    case _ => AndTable
  }

  function OpCode(at: Layout, op: Op, rd: nat, rs1: nat, rs2: nat): seq<Base> {
    match op
    case OpSub => Sub(at, rd, rs1, rs2)
    case OpSlt => SltTemplate(at, at.slt1, rd, rs1, rs2)
    case OpSltu => SltTemplate(at, at.sltu1, rd, rs1, rs2)
    case OpSll => Sll(at, rd, rs1, rs2)
    case OpSrl => ShiftRight(at, false, rd, rs1, rs2)
    case OpSra => ShiftRight(at, true, rd, rs1, rs2)
    case _ => if rd == X0 then [] else Logic(at, LogicTable(op), rd, rs1, rs2)
  }

  function Code(at: Layout, i: Instr): seq<Base> {
    match i
    case Plain(b) => [b]
    case RType(op, rd, rs1, rs2) => OpCode(at, op, rd, rs1, rs2)
    case IType(op, rd, rs1, imm) => [Addi(TP, X0, imm)] + OpCode(at, op, rd, rs1, TP)
    case ShiftImm(op, rd, rs1, shamt) =>
      if op == OpSll then Slli(rd, rs1, shamt) else ShiftRightImm(at, op == OpSra, rd, rs1, shamt)
    case Load(width, rd, base, off) =>
      (match width
       case SignedByte => Lb(at, rd, base, off)
       case SignedHalf => Lh(at, rd, base, off)
       case UnsignedHalf => Lhu(rd, base, off))
    case StoreHalf(rs, base, off) => ShHalf(rs, base, off)
    case NotOf(rd, rs) => Not(at, rd, rs)
    case IsZero(rd, rs) => Seqz(at, rd, rs)
    case IsNegative(rd, rs) => Msb(rd, rs)
    case Branch(_, _, _, _) => []
    case Jump(_, _) => []
    case JumpReg(_, _, _) => []
  }

  /** The code that leaves a truth value in `tp`, and whether 1 means taken. */
  function BranchTest(at: Layout, c: Cond, rs1: nat, rs2: nat): (seq<Base>, bool) {
    match c
    case Eq =>
      (if rs2 == X0 then Seqz(at, TP, rs1) else if rs1 == X0 then Seqz(at, TP, rs2) else Seq(at, TP, rs1, rs2), true)
    case Ne =>
      (if rs2 == X0 then Seqz(at, TP, rs1) else if rs1 == X0 then Seqz(at, TP, rs2) else Seq(at, TP, rs1, rs2), false)
    case Lt =>
      if rs2 == X0 then (Msb(TP, rs1), true)
      else if rs1 == X0 then (NotPositive(at, rs2), false)
      else (SltTemplate(at, at.slt1, TP, rs1, rs2), true)
    case Ge =>
      if rs1 == X0 then (NotPositive(at, rs2), true) else (SltTemplate(at, at.slt1, TP, rs1, rs2), false)
    case Ltu => (SltTemplate(at, at.sltu1, TP, rs1, rs2), true)
    case Geu => (SltTemplate(at, at.sltu1, TP, rs1, rs2), false)
  }

  /** The whole expansion, once the address of the next instruction and of the target are known. */
  function Expand(at: Layout, i: Instr, next: Word, target: Word): seq<Base> {
    match i
    case Branch(c, rs1, rs2, _) =>
      var test := BranchTest(at, c, rs1, rs2);
      test.0 + (if test.1 then BranchResolve(target, next) else BranchResolve(next, target))
    case Jump(rd, _) =>
      if rd == X0 then La(TP, target) + [Jalr(TP, TP, 0)] else La(rd, target) + [Jalr(rd, rd, 0)]
    case JumpReg(rd, rs1, off) => [Jalr(rd, rs1, off)]
    case _ => Code(at, i)
  }

  // ----- what the macros demand of a program -----

  predicate Reserved(r: nat) {
    r == TP || r == GP
  }

  predicate PlainRegisters(b: Base) {
    match b
    case Add(rd, rs1, rs2) => !Reserved(rd) && !Reserved(rs1) && !Reserved(rs2)
    case Addi(rd, rs1, _) => !Reserved(rd) && !Reserved(rs1)
    case Lui(rd, _) => !Reserved(rd)
    case Lw(rd, base, _) => !Reserved(rd) && !Reserved(base)
    case Lbu(rd, base, _) => !Reserved(rd) && !Reserved(base)
    case Sw(rs, base, _) => !Reserved(rs) && !Reserved(base)
    case Sb(rs, base, _) => !Reserved(rs) && !Reserved(base)
    case Jalr(_, _, _) => false
  }

  predicate IsLogic(op: Op) {
    op in {OpAnd, OpOr, OpXor}
  }

  predicate OpAccepted(op: Op, rd: nat, rs1: nat, rs2: nat) {
    && !Reserved(rs1) && !Reserved(rd)
    && (IsLogic(op) && rd != X0 ==> rd != SP && rs1 != SP && rs2 != SP)   // .abort, line 178
  }

  /**
   The program's side of the bargain, instruction by instruction: no `tp` and `gp` (line 6), no operand
   that makes `logic` abort, and none of the four uses in which a macro spoils what it still needs:
   `seqz` aimed at `s0`, and `seqz`, `lb` and `sltz` aimed at `sp` (`RvDefects`).
   */
  predicate Accepted(i: Instr) {
    match i
    case Plain(b) => PlainRegisters(b)
    case RType(op, rd, rs1, rs2) => OpAccepted(op, rd, rs1, rs2) && !Reserved(rs2)
    case IType(op, rd, rs1, imm) => OpAccepted(op, rd, rs1, X0) && op in {OpSlt, OpSltu, OpAnd, OpOr, OpXor}
    case ShiftImm(op, rd, rs1, shamt) => !Reserved(rd) && !Reserved(rs1) && shamt < 32 && op in {OpSll, OpSrl, OpSra}
    case Load(width, rd, base, _) => !Reserved(rd) && !Reserved(base) && (width == SignedByte ==> rd != SP)
    case StoreHalf(rs, base, _) => !Reserved(rs) && !Reserved(base)
    case NotOf(rd, rs) => !Reserved(rd) && !Reserved(rs)
    case IsZero(rd, rs) => !Reserved(rd) && !Reserved(rs) && rd !in {S0, SP}
    case IsNegative(rd, rs) => !Reserved(rd) && rd != SP && !Reserved(rs)
    case Branch(_, rs1, rs2, _) => !Reserved(rs1) && !Reserved(rs2)
    case Jump(rd, _) => !Reserved(rd)
    case JumpReg(rd, rs1, _) => !Reserved(rd) && !Reserved(rs1)
  }
}
