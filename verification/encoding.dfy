/** The instruction formats written out as numbers: where every field of a word sits, and an assembler that decoding
    undoes. */
module Encoding {
  import opened Words
  import opened Alu
  import opened Isa

  type Low16 = x: nat | x < 0x1_0000
  type Low11 = x: nat | x < 0x800
  type Op = x: nat | x < 64

  /** Operation in bits 31..26, two registers in 25..21 and 20..16, sixteen bits below. */
  function IWord(op: Op, rs: RegNo, rt: RegNo, low: Low16): Word {
    op * 0x400_0000 + rs * 0x20_0000 + rt * 0x1_0000 + low
  }

  /** The third register in bits 15..11. */
  function RWord(op: Op, rs: RegNo, rt: RegNo, rd: RegNo, low: Low11): Word {
    IWord(op, rs, rt, rd * 0x800 + low)
  }

  /** Dividing by a place value cuts the lower fields off. */
  lemma CutOff(high: nat, d: nat, low: nat)
    requires low < d
    ensures (high * d + low) / d == high && (high * d + low) % d == low
  {
    var x := high * d + low;
    var e := x / d - high;
    assert x == d * (x / d) + x % d;
    assert e >= 1 ==> d * e >= d;
    assert e <= -1 ==> d * e <= -(d as int);
    assert d * e == d * (x / d) - d * high;
  }

  /** The fields of every word, whatever stands in the others. */
  lemma Fields(op: Op, rs: RegNo, rt: RegNo, low: Low16)
    ensures var w := IWord(op, rs, rt, low);
            Opcode(w) == op && RsField(w) == rs && RtField(w) == rt && w % 0x1_0000 == low
  {
    var w := IWord(op, rs, rt, low);
    CutOff(op, 0x400_0000, rs * 0x20_0000 + rt * 0x1_0000 + low);
    CutOff(op * 32 + rs, 0x20_0000, rt * 0x1_0000 + low);
    CutOff(op, 32, rs);
    CutOff(op * 1024 + rs * 32 + rt, 0x1_0000, low);
    CutOff(op * 32 + rs, 32, rt);
  }

  lemma LowFields(op: Op, rs: RegNo, rt: RegNo, rd: RegNo, low: Low11)
    ensures var w := RWord(op, rs, rt, rd, low);
            RdField(w) == rd && w % 0x800 == low
  {
    var high := op * 1024 + rs * 32 + rt;
    assert RWord(op, rs, rt, rd, low) == (high * 32 + rd) * 0x800 + low;
    CutOff(high * 32 + rd, 0x800, low);
    CutOff(high, 32, rd);
  }

  lemma LowCode(w: nat, low: nat)
    requires w % 0x800 == low
    ensures w % 8 == low % 8
  {
    var q := w / 0x800;
    assert w == q * 0x800 + low;
    CutOff(q * 256 + low / 8, 8, low % 8);
  }

  /** Only the low eleven bits decide about the function code, bit 5 and bit 1. */
  lemma LowBits(w: Word, low: Low11)
    requires w % 0x800 == low
    ensures w % 8 == low % 8 && w / 32 % 2 == low / 32 % 2 && w / 2 % 2 == low / 2 % 2
  {
    LowCode(w, low);
    LowBit(w, low, 32);
    LowBit(w, low, 2);
  }

  lemma LowBit(w: nat, low: nat, d: nat)
    requires w % 0x800 == low && d in {2, 32}
    ensures w / d % 2 == low / d % 2
  {
    var q := w / 0x800;
    if d == 2 {
      CutOff(q * 1024 + low / 2, 2, low % 2);
      EvenPart(q * 512, low / 2);
    } else {
      CutOff(q * 64 + low / 32, 32, low % 32);
      EvenPart(q * 32, low / 32);
    }
  }

  lemma EvenPart(m: nat, x: nat)
    ensures (2 * m + x) % 2 == x % 2
  {
  }

  function SignedLow(low: Low16): Offset { if low < 0x8000 then low else low - 0x1_0000 }

  /** Every word of the two-register format is the instruction its operation says. */
  lemma DecodesImmediate(op: Op, rs: RegNo, rt: RegNo, low: Low16)
    requires op >= 4
    ensures Isa.Decode(IWord(op, rs, rt, low)) ==
            if op < 8 then BranchOn(op == 4 || op == 6, rs, SignedLow(low))
            else if op < 16 then AddImm(rs, rt, SignedLow(low))
            else if op < 24 then if op in {16, 18, 20, 22} then JumpReg(rs) else JumpLink(rs)
            else if op < 32 then TestImm(op - 24, rs, rt, SignedLow(low))
            else if op < 40 then LoadWord(rs, rt, SignedLow(low))
            else if op < 48 then StoreWord(rs, rt, SignedLow(low))
            else if op < 56 then Nop
            else Stop
  {
    hide Opcode, RsField, RtField, RdField, IWord;
    Fields(op, rs, rt, low);
    assert op / 8 == 4 <==> 32 <= op < 40;
    assert op / 8 == 5 <==> 40 <= op < 48;
  }

  /** Every word of the three-register format: bit 5 tells arithmetic from shifts, bit 1 a right shift. */
  lemma DecodesRegister(op: Op, rs: RegNo, rt: RegNo, rd: RegNo, low: Low11)
    requires op < 4
    ensures Isa.Decode(RWord(op, rs, rt, rd, low)) ==
            if low / 32 % 2 == 1 then Arith(low % 8, rs, rt, rd) else Shift(low / 2 % 2 == 1, rs, rd)
  {
    hide Opcode, RsField, RtField, RdField, IWord;
    Fields(op, rs, rt, rd * 0x800 + low);
    LowFields(op, rs, rt, rd, low);
    LowBits(RWord(op, rs, rt, rd, low), low);
  }

  function Field16(imm: Offset): Low16 { if imm < 0 then imm + 0x1_0000 else imm }

  /** One word for every instruction. */
  function Encode(i: Instr): Word {
    match i
    case Nop => 0xC000_0000
    case Arith(f, rs, rt, rd) => RWord(0, rs, rt, rd, 0x20 + f)
    case Shift(right, rs, rd) => RWord(0, rs, 0, rd, if right then 2 else 0)
    case AddImm(rs, rt, imm) => IWord(0x0B, rs, rt, Field16(imm))
    case TestImm(f, rs, rt, imm) => IWord(0x18 + f, rs, rt, Field16(imm))
    case LoadWord(rs, rt, imm) => IWord(0x23, rs, rt, Field16(imm))
    case StoreWord(rs, rt, imm) => IWord(0x2B, rs, rt, Field16(imm))
    case JumpReg(rs) => IWord(0x16, rs, 0, 0)
    case JumpLink(rs) => IWord(0x17, rs, 0, 0)
    case BranchOn(zero, rs, imm) => IWord(if zero then 4 else 5, rs, 0, Field16(imm))
    case Stop => 0xFC00_0000
  }

  /** Decoding undoes encoding. */
  lemma DecodeEncode(i: Instr)
    ensures Isa.Decode(Encode(i)) == i
  {
    hide Isa.Decode, IWord, RWord;
    match i
    case Nop =>
      assert IWord(48, 0, 0, 0) == 0xC000_0000 by { NopWord(); }
      DecodesImmediate(48, 0, 0, 0);
    case Arith(f, rs, rt, rd) => DecodesRegister(0, rs, rt, rd, 0x20 + f);
    case Shift(right, rs, rd) => DecodesRegister(0, rs, 0, rd, if right then 2 else 0);
    case AddImm(rs, rt, imm) => DecodesImmediate(0x0B, rs, rt, Field16(imm));
    case TestImm(f, rs, rt, imm) => DecodesImmediate(0x18 + f, rs, rt, Field16(imm));
    case LoadWord(rs, rt, imm) => DecodesImmediate(0x23, rs, rt, Field16(imm));
    case StoreWord(rs, rt, imm) => DecodesImmediate(0x2B, rs, rt, Field16(imm));
    case JumpReg(rs) => DecodesImmediate(0x16, rs, 0, 0);
    case JumpLink(rs) => DecodesImmediate(0x17, rs, 0, 0);
    case BranchOn(zero, rs, imm) => DecodesImmediate(if zero then 4 else 5, rs, 0, Field16(imm));
    case Stop =>
      assert IWord(63, 0, 0, 0) == 0xFC00_0000 by { NopWord(); }
      DecodesImmediate(63, 0, 0, 0);
  }

  lemma NopWord()
    ensures IWord(48, 0, 0, 0) == 0xC000_0000 && IWord(63, 0, 0, 0) == 0xFC00_0000
  {
  }

  // ---- The codes inside an instruction

  /** The three enables of a test: less, equal, greater. */
  lemma TestCodes(x: int, y: int)
    ensures !Related(0, x, y) && (Related(1, x, y) <==> x > y) && (Related(2, x, y) <==> x == y)
    ensures (Related(3, x, y) <==> x >= y) && (Related(4, x, y) <==> x < y) && (Related(5, x, y) <==> x != y)
    ensures (Related(6, x, y) <==> x <= y) && Related(7, x, y)
  {
  }

  /** The function codes: difference, sum, difference, sum, and bit by bit exclusive or, or, and, and. */
  lemma FunctionCodes(a: Word, b: Word, k: nat)
    requires k < 32
    ensures Compute(0, a, b) == Compute(2, a, b) == (a - b) % TWO_32
    ensures Compute(1, a, b) == Compute(3, a, b) == (a + b) % TWO_32
    ensures BitAt(Compute(4, a, b), k) <==> BitAt(a, k) != BitAt(b, k)
    ensures BitAt(Compute(5, a, b), k) <==> BitAt(a, k) || BitAt(b, k)
    ensures BitAt(Compute(6, a, b), k) <==> BitAt(a, k) && BitAt(b, k)
    ensures Compute(7, a, b) == Compute(6, a, b)
  {
    hide BitAt, Bits32, Wrap;
    WrapIsModulo(a - b);
    WrapIsModulo(a + b);
    Bits32At(XorGate, a, b, k);
    Bits32At(OrGate, a, b, k);
    Bits32At(AndGate, a, b, k);
  }

  /** A linking jump goes to the register named and leaves the address behind itself in register 31; no other register
      and no memory changes. Register 0 stays zero under every instruction. */
  lemma LinksAndZero(i: Instr, a: State)
    requires a.regs[0] == 0
    ensures Execute(i, a).regs[0] == 0
    ensures i.JumpLink? ==> Execute(i, a) == a.(pc := a.regs[i.rs], regs := a.regs[31 := a.pc])
    ensures i.JumpReg? ==> Execute(i, a) == a.(pc := a.regs[i.rs])
  {
    hide Compute, Related, Wrap, Cell;
  }

  // ---- One step of the machine, on numbers

  /** Registers after `v` was written to register `r`: every other one as before, and register 0 never written. */
  predicate Wrote(before: Bank, after: Bank, r: RegNo, v: Word) {
    forall k: RegNo :: after[k] == if k == r && k != 0 then v else before[k]
  }

  /** The word at PC, which is one of the 1024 words of the memory. */
  predicate AtPc(a: State, w: Word) { !a.halted && a.mem[a.pc % 1024] == w }

  /** Additive and testing instructions: the sixteen low bits count as a signed number; PC goes on by one. */
  lemma ImmediateStep(a: State, op: Op, rs: RegNo, rt: RegNo, low: Low16)
    requires AtPc(a, IWord(op, rs, rt, low)) && (8 <= op < 16 || 24 <= op < 32)
    ensures var b := Step(a);
            b == a.(pc := (a.pc + 1) % TWO_32, regs := b.regs)
            && Wrote(a.regs, b.regs, rt,
                     if op < 16 then (a.regs[rs] + SignedLow(low)) % TWO_32
                     else if Related(op - 24, Signed(a.regs[rs]), SignedLow(low)) then 1 else 0)
  {
    hide Isa.Decode, IWord, Related, Signed, Wrap;
    WrapIsModulo(a.pc + 1);
    WrapIsModulo(a.regs[rs] + SignedLow(low));
    DecodesImmediate(op, rs, rt, low);
  }

  /** Loads and stores: the address is a register plus the signed sixteen bits, cut to the 1024 words there are. */
  lemma MemoryStep(a: State, op: Op, rs: RegNo, rt: RegNo, low: Low16)
    requires AtPc(a, IWord(op, rs, rt, low)) && 32 <= op < 48
    ensures var b, cell := Step(a), (a.regs[rs] + SignedLow(low)) % TWO_32 % 1024;
            b == a.(pc := (a.pc + 1) % TWO_32, regs := b.regs, mem := b.mem)
            && (op < 40 ==> b.mem == a.mem && Wrote(a.regs, b.regs, rt, a.mem[cell]))
            && (op >= 40 ==> b.mem == a.mem[cell := a.regs[rt]] && b.regs == a.regs)
  {
    hide Isa.Decode, IWord, Wrap;
    WrapIsModulo(a.pc + 1);
    WrapIsModulo(a.regs[rs] + SignedLow(low));
    DecodesImmediate(op, rs, rt, low);
  }

  /** Jumps and branches: an odd jump leaves the next address in register 31; an even branch is taken on zero, an odd
      one on anything else, and counts from the next address. */
  lemma JumpStep(a: State, op: Op, rs: RegNo, rt: RegNo, low: Low16)
    requires AtPc(a, IWord(op, rs, rt, low)) && (4 <= op < 8 || 16 <= op < 24)
    ensures var b, next := Step(a), (a.pc + 1) % TWO_32;
            b == a.(pc := b.pc, regs := b.regs)
            && (if op in {17, 19, 21, 23} then Wrote(a.regs, b.regs, 31, next) else b.regs == a.regs)
            && b.pc == if op >= 16 then a.regs[rs]
                       else if (a.regs[rs] == 0) == (op in {4, 6}) then (next + SignedLow(low)) % TWO_32
                       else next
  {
    hide Isa.Decode, IWord, Wrap;
    WrapIsModulo(a.pc + 1);
    WrapIsModulo(Wrap(a.pc + 1) + SignedLow(low));
    DecodesImmediate(op, rs, rt, low);
  }

  /** The rest: operations 48 to 55 do nothing but go on, those from 56 on stop the machine behind themselves. */
  lemma OtherStep(a: State, op: Op, rs: RegNo, rt: RegNo, low: Low16)
    requires AtPc(a, IWord(op, rs, rt, low)) && op >= 48
    ensures Step(a) == a.(pc := (a.pc + 1) % TWO_32, halted := op >= 56)
  {
    hide Isa.Decode, IWord, Wrap;
    WrapIsModulo(a.pc + 1);
    DecodesImmediate(op, rs, rt, low);
  }

  /** The three-register format: arithmetic if bit 5 is set, otherwise a shift by one place, right if bit 1 is set; what
      is shifted in is 0. */
  lemma RegisterStep(a: State, op: Op, rs: RegNo, rt: RegNo, rd: RegNo, low: Low11)
    requires AtPc(a, RWord(op, rs, rt, rd, low)) && op < 4
    ensures var b := Step(a);
            b == a.(pc := (a.pc + 1) % TWO_32, regs := b.regs)
            && Wrote(a.regs, b.regs, rd,
                     if low / 32 % 2 == 1 then Compute(low % 8, a.regs[rs], a.regs[rt])
                     else if low / 2 % 2 == 1 then a.regs[rs] / 2
                     else 2 * a.regs[rs] % TWO_32)
  {
    hide Isa.Decode, RWord, Compute, Wrap;
    WrapIsModulo(a.pc + 1);
    WrapIsModulo(2 * (a.regs[rs] as int));
    DecodesRegister(op, rs, rt, rd, low);
  }
}
