/** What the control lines of each state make the netlist do, as plain register transfers. */
module Transfers {
  import opened Words
  import opened Alu
  import opened Control
  import opened Core
  import Isa

  function Written(f: Files, r: Isa.RegNo, v: Word): Files {
    var bank := Isa.WriteReg(f.a, r, v);
    Files(bank, bank, bank)
  }

  function Transfer(s: Ctl, busy: bool, r: Regs, di: Word): Regs {
    match s
    case Fetch => r.(ir := di)
    case Decode => r.(pc := Wrap(r.pc + 1), a := r.gpr.a[Isa.RsField(r.ir)], b := r.gpr.a[Isa.RtField(r.ir)])
    case Alu => r.(c := Compute(r.ir % 8, r.a, r.b))
    case TestI => r.(c := Bit(Related(Isa.Opcode(r.ir) % 8, Signed(r.a), Isa.Immediate(r.ir))))
    case AluI => r.(c := Wrap(r.a + Isa.Immediate(r.ir)))
    case ShiftSt => r.(c := if r.ir / 2 % 2 == 1 then r.a / 2 else Wrap(2 * (r.a as int)))
    case AddressCmp => r.(mar := Wrap(r.a + Isa.Immediate(r.ir)))
    case Load => if busy then r else r.(mdr := di)
    case CopyMdr2C => r.(c := r.mdr)
    case CopyGpr2Mdr => r.(mdr := r.b)
    case Wbr => r.(gpr := Written(r.gpr, Isa.RdField(r.ir), r.c))
    case Wbi => r.(gpr := Written(r.gpr, Isa.RtField(r.ir), r.c))
    case BTaken => r.(pc := Wrap(r.pc + Isa.Immediate(r.ir)))
    case Jr => r.(pc := r.a)
    case SavePc => r.(c := r.pc)
    case Jalr => r.(pc := r.a, gpr := Written(r.gpr, Isa.LINK, r.c))
    case _ => r
  }

  predicate Adds(s: Ctl) { s in {Decode, AluI, AddressCmp, BTaken, SavePc, Jr, Jalr} }

  /** The internal bus in the states that force an addition. */
  function SumValue(s: Ctl, r: Regs): Word {
    match s
    case Decode => Wrap(r.pc + 1)
    case SavePc => r.pc
    case Jr => r.a
    case Jalr => r.a
    case BTaken => Wrap(r.pc + Isa.Immediate(r.ir))
    case _ => Wrap(r.a + Isa.Immediate(r.ir))
  }

  /** The internal bus in the other states that use it. */
  function OtherValue(s: Ctl, r: Regs): Word {
    match s
    case Alu => Compute(r.ir % 8, r.a, r.b)
    case TestI => Bit(Related(Isa.Opcode(r.ir) % 8, Signed(r.a), Isa.Immediate(r.ir)))
    case ShiftSt => if r.ir / 2 % 2 == 1 then r.a / 2 else Wrap(2 * (r.a as int))
    case CopyMdr2C => r.mdr
    case _ => r.b
  }

  lemma SignExtendMeans(ir: Word, x: Word)
    ensures Signed(SignExtend(ir)) == Isa.Immediate(ir)
    ensures Wrap(x + SignExtend(ir)) == Wrap(x + Isa.Immediate(ir))
  {
    if SignExtend(ir) >= 0x8000_0000 {
      assert x + SignExtend(ir) == x + Isa.Immediate(ir) + TWO_32;
    }
  }

  lemma BusAdds(r: Regs, k: Lines)
    requires !k.dintSel && k.add && !k.test
    ensures InternalBus(r, k) == Wrap(Operand1(r, k) + Operand2(r, k))
  {
    AluAdds(Operand1(r, k), Operand2(r, k), if k.iType then Isa.Opcode(r.ir) % 8 else r.ir % 8);
  }

  lemma ShifterMeans(a: Word, right: bool)
    ensures Shifter(a, true, right) == if right then a / 2 else Wrap(2 * (a as int))
  {
  }

  lemma BusShifts(r: Regs, k: Lines)
    requires k.dintSel
    ensures InternalBus(r, k) == Shifter(Operand1(r, k), k.shift, r.ir / 2 % 2 == 1)
  {
  }

  lemma OperandsSelected(s: Ctl, busy: bool, r: Regs)
    requires Adds(s)
    ensures Operand1(r, ControlLines(s, busy)) == if s in {AluI, AddressCmp, Jr, Jalr} then r.a else r.pc
    ensures Operand2(r, ControlLines(s, busy)) ==
            if s == Decode then 1 else if s in {AluI, AddressCmp, BTaken} then SignExtend(r.ir) else 0
  {
  }

  lemma SelectedSum(s: Ctl, r: Regs, k: Lines, x: Word, y: Word)
    requires Adds(s) && !k.dintSel && k.add && !k.test
    requires Operand1(r, k) == x == if s in {AluI, AddressCmp, Jr, Jalr} then r.a else r.pc
    requires Operand2(r, k) == y ==
             if s == Decode then 1 else if s in {AluI, AddressCmp, BTaken} then SignExtend(r.ir) else 0
    ensures InternalBus(r, k) == SumValue(s, r)
  {
    BusAdds(r, k);
    if s in {AluI, AddressCmp, BTaken} {
      SignExtendMeans(r.ir, x);
    }
  }

  lemma AddingBus(s: Ctl, busy: bool, r: Regs)
    requires Adds(s)
    ensures InternalBus(r, ControlLines(s, busy)) == SumValue(s, r)
  {
    var k := ControlLines(s, busy);
    OperandsSelected(s, busy, r);
    SelectedSum(s, r, k, Operand1(r, k), Operand2(r, k));
  }

  lemma FunctionBus(s: Ctl, busy: bool, r: Regs)
    requires s in {Alu, TestI}
    ensures InternalBus(r, ControlLines(s, busy)) == OtherValue(s, r)
  {
    if s == Alu {
      AluComputes(r.a, r.b, r.ir % 8);
    } else {
      SignExtendMeans(r.ir, r.a);
      AluTests(r.a, SignExtend(r.ir), Isa.Opcode(r.ir) % 8);
    }
  }

  lemma ShiftingBus(s: Ctl, busy: bool, r: Regs)
    requires s in {ShiftSt, CopyMdr2C, CopyGpr2Mdr}
    ensures InternalBus(r, ControlLines(s, busy)) == OtherValue(s, r)
  {
    BusShifts(r, ControlLines(s, busy));
    if s == ShiftSt {
      ShifterMeans(r.a, r.ir / 2 % 2 == 1);
    }
  }

  /** With the bus carrying that value, the clock enables perform the transfer. */
  lemma LatchTransfers(s: Ctl, busy: bool, r: Regs, di: Word, dint: Word)
    requires Coherent(r.gpr)
    requires Adds(s) ==> dint == SumValue(s, r)
    requires s in {Alu, TestI, ShiftSt, CopyMdr2C, CopyGpr2Mdr} ==> dint == OtherValue(s, r)
    ensures Latch(r, ControlLines(s, busy), di, dint) == Transfer(s, busy, r, di)
  {
  }

  /** The control table and the netlist together perform exactly the transfers above. */
  lemma LinesTransfer(s: Ctl, busy: bool, r: Regs, di: Word)
    requires Coherent(r.gpr)
    ensures RegsNext(r, ControlLines(s, busy), di) == Transfer(s, busy, r, di)
  {
    if Adds(s) {
      AddingBus(s, busy, r);
    } else if s in {Alu, TestI} {
      FunctionBus(s, busy, r);
    } else if s in {ShiftSt, CopyMdr2C, CopyGpr2Mdr} {
      ShiftingBus(s, busy, r);
    }
    LatchTransfers(s, busy, r, di, InternalBus(r, ControlLines(s, busy)));
  }
}
