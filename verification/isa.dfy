/** The sequential machine a programmer sees: one step per instruction, memory and registers updated at once. */
module Isa {
  import opened Words
  import opened Alu

  type Bank = s: seq<Word> | |s| == 32 witness seq(32, (i: nat) => 0)
  type Memory = s: seq<Word> | |s| == 1024 witness seq(1024, (i: nat) => 0)
  type RegNo = r: nat | r < 32
  type Offset = i: int | -0x8000 <= i < 0x8000

  const LINK: RegNo := 31

  function Opcode(ir: Word): nat { ir / 0x400_0000 }

  function RsField(ir: Word): RegNo { ir / 0x20_0000 % 32 }

  function RtField(ir: Word): RegNo { ir / 0x1_0000 % 32 }

  function RdField(ir: Word): RegNo { ir / 0x800 % 32 }

  function Immediate(ir: Word): Offset {
    var low := ir % 0x1_0000;
    if low < 0x8000 then low else low - 0x1_0000
  }

  datatype Instr =
    | Nop
    | Arith(f: Code, rs: RegNo, rt: RegNo, rd: RegNo)
    | Shift(right: bool, rs: RegNo, rd: RegNo)
    | AddImm(rs: RegNo, rt: RegNo, imm: Offset)
    | TestImm(f: Code, rs: RegNo, rt: RegNo, imm: Offset)
    | LoadWord(rs: RegNo, rt: RegNo, imm: Offset)
    | StoreWord(rs: RegNo, rt: RegNo, imm: Offset)
    | JumpReg(rs: RegNo)
    | JumpLink(rs: RegNo)
    | BranchOn(zero: bool, rs: RegNo, imm: Offset)
    | Stop

  function Decode(ir: Word): Instr {
    var op, rs, rt, rd := Opcode(ir), RsField(ir), RtField(ir), RdField(ir);
    if op < 4 then
      if ir / 32 % 2 == 1 then Arith(ir % 8, rs, rt, rd) else Shift(ir / 2 % 2 == 1, rs, rd)
    else if op < 8 then BranchOn(op % 2 == 0, rs, Immediate(ir))
    else if op < 16 then AddImm(rs, rt, Immediate(ir))
    else if op < 24 then if op % 2 == 0 then JumpReg(rs) else JumpLink(rs)
    else if op < 32 then TestImm(op % 8, rs, rt, Immediate(ir))
    else if op < 48 then
      if op / 8 % 2 == 1 then StoreWord(rs, rt, Immediate(ir)) else LoadWord(rs, rt, Immediate(ir))
    else if op < 56 then Nop
    else Stop
  }

  datatype State = State(pc: Word, regs: Bank, mem: Memory, halted: bool)

  /** The memory holds 1024 words and looks at ten address bits only. */
  function Cell(address: Word): nat { address % 1024 }

  function WriteReg(regs: Bank, r: RegNo, v: Word): Bank {
    if r == 0 then regs else regs[r := v]
  }

  /** Effect of an instruction; `a.pc` already points past it. */
  function Execute(i: Instr, a: State): State {
    match i
    case Nop => a
    case Arith(f, rs, rt, rd) => a.(regs := WriteReg(a.regs, rd, Compute(f, a.regs[rs], a.regs[rt])))
    case Shift(right, rs, rd) =>
      a.(regs := WriteReg(a.regs, rd, if right then a.regs[rs] / 2 else Wrap(2 * (a.regs[rs] as int))))
    case AddImm(rs, rt, imm) => a.(regs := WriteReg(a.regs, rt, Wrap(a.regs[rs] + imm)))
    case TestImm(f, rs, rt, imm) =>
      a.(regs := WriteReg(a.regs, rt, Bit(Related(f, Signed(a.regs[rs]), imm))))
    case LoadWord(rs, rt, imm) => a.(regs := WriteReg(a.regs, rt, a.mem[Cell(Wrap(a.regs[rs] + imm))]))
    case StoreWord(rs, rt, imm) => a.(mem := a.mem[Cell(Wrap(a.regs[rs] + imm)) := a.regs[rt]])
    case JumpReg(rs) => a.(pc := a.regs[rs])
    case JumpLink(rs) => a.(pc := a.regs[rs], regs := WriteReg(a.regs, LINK, a.pc))
    case BranchOn(zero, rs, imm) => if (a.regs[rs] == 0) == zero then a.(pc := Wrap(a.pc + imm)) else a
    case Stop => a.(halted := true)
  }

  function Current(a: State): Instr { Decode(a.mem[Cell(a.pc)]) }

  function Step(a: State): State {
    if a.halted then a else Execute(Current(a), a.(pc := Wrap(a.pc + 1)))
  }

  function Steps(a: State, n: nat): State {
    if n == 0 then a else Step(Steps(a, n - 1))
  }

  /** The states after the first, second, ..., n-th instruction. */
  function Trace(a: State, n: nat): (t: seq<State>)
    ensures |t| == n
  {
    if n == 0 then [] else Trace(a, n - 1) + [Steps(a, n)]
  }
}
