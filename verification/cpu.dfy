/** The processor core between the controller and its bus: register file, data path registers and bus master. */
module Core {
  import opened Words
  import opened Alu
  import opened Control
  import Isa

  // ---- Register file: three copies of one bank, read through three address multiplexers.

  datatype Files = Files(a: Isa.Bank, b: Isa.Bank, d: Isa.Bank)

  function RamWrite(bank: Isa.Bank, we: bool, adr: Isa.RegNo, v: Word): Isa.Bank {
    if we then bank[adr := v] else bank
  }

  function FilesNext(f: Files, gprWe: bool, aAdr: Isa.RegNo, bAdr: Isa.RegNo, dAdr: Isa.RegNo,
                     cAdr: Isa.RegNo, c: Word): Files
  {
    var we := gprWe && cAdr != 0;
    Files(RamWrite(f.a, we, if gprWe then cAdr else aAdr, c),
          RamWrite(f.b, we, if gprWe then cAdr else bAdr, c),
          RamWrite(f.d, we, if gprWe then cAdr else dAdr, c))
  }

  predicate Coherent(f: Files) {
    f.a == f.b == f.d && f.a[0] == 0
  }

  /** Whatever the control lines and addresses are, the copies stay equal and register 0 stays zero. */
  lemma CoherenceKept(f: Files, gprWe: bool, aAdr: Isa.RegNo, bAdr: Isa.RegNo, dAdr: Isa.RegNo,
                      cAdr: Isa.RegNo, c: Word)
    requires Coherent(f)
    ensures Coherent(FilesNext(f, gprWe, aAdr, bAdr, dAdr, cAdr, c))
    ensures FilesNext(f, gprWe, aAdr, bAdr, dAdr, cAdr, c).a == if gprWe then Isa.WriteReg(f.a, cAdr, c) else f.a
  {
  }

  // ---- Data path

  datatype Regs = Regs(pc: Word, ir: Word, a: Word, b: Word, c: Word, mar: Word, mdr: Word, gpr: Files)

  function SignExtend(ir: Word): Word {
    var low := ir % 0x1_0000;
    if low >= 0x8000 then 0xFFFF_0000 + low else low
  }

  function Operand1(r: Regs, k: Lines): Word {
    match k.s1Sel
    case 0 => r.pc
    case 1 => r.a
    case 2 => r.b
    case _ => r.mdr
  }

  function Operand2(r: Regs, k: Lines): Word {
    match k.s2Sel
    case 0 => r.b
    case 1 => SignExtend(r.ir)
    case 2 => 0
    case _ => 1
  }

  function Shifter(s: Word, shift: bool, right: bool): Word {
    if shift && right then s / 2 else if shift then s % 0x8000_0000 * 2 else s
  }

  /** The internal data bus: adder or shifter output. */
  function InternalBus(r: Regs, k: Lines): Word {
    if k.dintSel then Shifter(Operand1(r, k), k.shift, r.ir / 2 % 2 == 1)
    else AluEnv(Operand1(r, k), Operand2(r, k), k.add, k.test, if k.iType then Isa.Opcode(r.ir) % 8 else r.ir % 8)
  }

  function TargetReg(r: Regs, k: Lines): Isa.RegNo {
    if k.jLink then 31 else if k.iType then Isa.RtField(r.ir) else Isa.RdField(r.ir)
  }

  /** Output of the first register-file copy, which feeds both the A register and the branch test. */
  function PortA(r: Regs, k: Lines): Word {
    r.gpr.a[if k.gprWe then TargetReg(r, k) else Isa.RsField(r.ir)]
  }

  function PortB(r: Regs, k: Lines): Word {
    r.gpr.b[if k.gprWe then TargetReg(r, k) else Isa.RtField(r.ir)]
  }

  function BranchTaken(r: Regs, k: Lines): bool {
    (PortA(r, k) == 0) != (Isa.Opcode(r.ir) % 2 == 1)
  }

  /** Address output: eight high bits are cut off by the address unit. */
  function AddressOut(r: Regs, k: Lines): Word {
    (if k.aSel then r.mar else r.pc) % 0x100_0000
  }

  /** Every register after one clock edge on which `dint` stands on the internal bus. */
  function Latch(r: Regs, k: Lines, di: Word, dint: Word): Regs {
    Regs(
      pc := if k.pcCe then dint else r.pc,
      ir := if k.irCe then di else r.ir,
      a := if k.ace then PortA(r, k) else r.a,
      b := if k.bce then PortB(r, k) else r.b,
      c := if k.cce then dint else r.c,
      mar := if k.marCe then dint else r.mar,
      mdr := if k.mdrCe then if k.mdrSel then di else dint else r.mdr,
      gpr := FilesNext(r.gpr, k.gprWe, Isa.RsField(r.ir), Isa.RtField(r.ir), 0, TargetReg(r, k), r.c))
  }

  function RegsNext(r: Regs, k: Lines, di: Word): Regs {
    Latch(r, k, di, InternalBus(r, k))
  }

  // ---- Bus master

  datatype Mac = Wait4Req | Wait4Ack | StNext | Unused

  function NextMac(m: Mac, request: bool, ack: bool): Mac {
    match m
    case Wait4Req => if request then Wait4Ack else Wait4Req
    case Wait4Ack => if ack then StNext else Wait4Ack
    case StNext => Wait4Req
    case Unused => Unused
  }

  function Busy(request: bool, ack: bool): bool { request && !ack }

  // ---- Processor

  datatype Cpu = Cpu(ctl: Ctl, mac: Mac, r: Regs)

  /** What the outside world drives at one clock edge. */
  datatype Drive = Drive(stepEn: bool, ack: bool, di: Word)

  predicate Requests(c: Cpu) { ReadRequest(c.ctl) || WriteRequest(c.ctl) }

  function LinesOf(c: Cpu, ack: bool): Lines { ControlLines(c.ctl, Busy(Requests(c), ack)) }

  /** The address strobe is active (low on the pin). */
  predicate Strobe(c: Cpu) { c.mac == Wait4Ack }

  /** The stall flag for the analyzer (the pin `stop_n` is low). */
  predicate Stalled(c: Cpu, ack: bool) { Strobe(c) && !ack }

  function Address(c: Cpu): Word { AddressOut(c.r, LinesOf(c, false)) }

  function SenseOf(c: Cpu, d: Drive): Sense {
    Sense(d.stepEn, Busy(Requests(c), d.ack), c.r.ir / 32 % 2 == 1, BranchTaken(c.r, LinesOf(c, d.ack)),
          Isa.Opcode(c.r.ir))
  }

  function CpuNext(c: Cpu, d: Drive): Cpu {
    Cpu(NextCtl(c.ctl, SenseOf(c, d)), NextMac(c.mac, Requests(c), d.ack), RegsNext(c.r, LinesOf(c, d.ack), d.di))
  }

  /** A reset held over a clock edge: both state machines and PC are cleared, and with the controller in Init nothing
      enables any other register. */
  function CpuReset(c: Cpu): Cpu {
    Cpu(Init, Wait4Req, c.r.(pc := 0))
  }
}
