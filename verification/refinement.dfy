/** The processor on any handshaking memory executes exactly the sequential machine. */
module Refinement {
  import opened Words
  import opened Alu
  import opened Control
  import opened Core
  import Isa
  import opened Transfers

  // ---- The processor with an arbitrary slave that honours the handshake

  datatype System = System(cpu: Cpu, mem: Isa.Memory)

  /** The slave acknowledges only under the strobe, and drives the addressed word when it acknowledges a read. */
  predicate Honest(s: System, d: Drive) {
    d.ack ==> Strobe(s.cpu) && (WriteRequest(s.cpu.ctl) || d.di == s.mem[Isa.Cell(Address(s.cpu))])
  }

  function Next(s: System, d: Drive): System {
    System(CpuNext(s.cpu, d),
           if d.ack && WriteRequest(s.cpu.ctl) then s.mem[Isa.Cell(Address(s.cpu)) := s.cpu.r.mdr] else s.mem)
  }

  function Run(s: System, ds: seq<Drive>): System {
    if ds == [] then s else Next(Run(s, ds[..|ds| - 1]), ds[|ds| - 1])
  }

  ghost predicate HonestRun(s: System, ds: seq<Drive>) {
    ds == [] || (HonestRun(s, ds[..|ds| - 1]) && Honest(Run(s, ds[..|ds| - 1]), ds[|ds| - 1]))
  }

  /** An instruction retires on the edge that leaves its last state: back to Init or Fetch, or into Halt. */
  predicate Ends(from: Ctl, to: Ctl) {
    (from !in {Init, Fetch} && to in {Init, Fetch}) || (from == Decode && to == Halt)
  }

  predicate Retires(s: System, d: Drive) { Ends(s.cpu.ctl, CpuNext(s.cpu, d).ctl) }

  function Retired(s: System, ds: seq<Drive>): nat {
    if ds == [] then 0
    else Retired(s, ds[..|ds| - 1]) + (if Retires(Run(s, ds[..|ds| - 1]), ds[|ds| - 1]) then 1 else 0)
  }

  /** The state a programmer can see in the registers and memory of the hardware. */
  function Visible(s: System): Isa.State {
    Isa.State(s.cpu.r.pc, s.cpu.r.gpr.a, s.mem, s.cpu.ctl == Halt)
  }

  /** The processor as reset leaves it, with the register file in any coherent state and any memory image. */
  predicate Booted(s: System) {
    s.cpu.ctl == Init && s.cpu.mac == Wait4Req && s.cpu.r.pc == 0 && Coherent(s.cpu.r.gpr)
  }

  // ---- What every reachable state has in common with the sequential machine

  /** Where the bus master can be in each controller state. */
  predicate BusInv(c: Cpu) {
    match c.ctl
    case Fetch => c.mac != Unused
    case Load => c.mac in {Wait4Req, Wait4Ack}
    case Store => c.mac in {Wait4Req, Wait4Ack}
    case Decode => c.mac == StNext
    case CopyMdr2C => c.mac == StNext
    case Init => c.mac in {Wait4Req, StNext}
    case Halt => c.mac == Wait4Req
    case Spare => false
    case _ => c.mac == Wait4Req
  }

  /** `c` is the instruction of `a`, fetched and with its operands latched. */
  predicate Latched(r: Regs, a: Isa.State) {
    r.ir == a.mem[Isa.Cell(a.pc)] && r.pc == Wrap(a.pc + 1)
    && r.a == a.regs[Isa.RsField(r.ir)] && r.b == a.regs[Isa.RtField(r.ir)]
  }

  /** Progress of the current instruction: `a` is the sequential state before it. */
  predicate Midway(ctl: Ctl, r: Regs, a: Isa.State) {
    Latched(r, a) &&
    var i := Isa.Current(a);
    match ctl
    case Alu => i.Arith?
    case ShiftSt => i.Shift?
    case AluI => i.AddImm?
    case TestI => i.TestImm?
    case Wbr =>
      (i.Arith? && r.c == Compute(i.f, r.a, r.b))
      || (i.Shift? && r.c == if i.right then r.a / 2 else Wrap(2 * (r.a as int)))
    case Wbi =>
      (i.AddImm? && r.c == Wrap(r.a + i.imm)) || (i.TestImm? && r.c == Bit(Related(i.f, Signed(r.a), i.imm)))
      || (i.LoadWord? && r.c == a.mem[Isa.Cell(Wrap(r.a + i.imm))])
    case AddressCmp => i.LoadWord? || i.StoreWord?
    case Load => i.LoadWord? && r.mar == Wrap(r.a + i.imm)
    case CopyMdr2C => i.LoadWord? && r.mdr == a.mem[Isa.Cell(Wrap(r.a + i.imm))]
    case CopyGpr2Mdr => i.StoreWord? && r.mar == Wrap(r.a + i.imm)
    case Store => i.StoreWord? && r.mar == Wrap(r.a + i.imm) && r.mdr == r.b
    case Jr => i.JumpReg?
    case SavePc => i.JumpLink?
    case Jalr => i.JumpLink? && r.c == r.pc
    case Branch => i.BranchOn?
    case BTaken => i.BranchOn? && (r.a == 0) == i.zero
    case _ => false
  }

  predicate Tracks(s: System, a: Isa.State) {
    BusInv(s.cpu) && Coherent(s.cpu.r.gpr) && s.cpu.r.gpr.a == a.regs && s.mem == a.mem
    && match s.cpu.ctl
       case Init => s.cpu.r.pc == a.pc && !a.halted
       case Fetch => s.cpu.r.pc == a.pc && !a.halted
       case Decode => s.cpu.r.pc == a.pc && !a.halted && s.cpu.r.ir == a.mem[Isa.Cell(a.pc)]
       case Halt => s.cpu.r.pc == a.pc && a.halted
       case _ => !a.halted && Midway(s.cpu.ctl, s.cpu.r, a)
  }

  // ---- One clock edge

  /** `n` is the processor one edge after `s.cpu`, described by register transfers. */
  predicate Edge(s: System, d: Drive, n: Cpu) {
    n.ctl == NextCtl(s.cpu.ctl, SenseOf(s.cpu, d))
    && n.mac == NextMac(s.cpu.mac, Requests(s.cpu), d.ack)
    && n.r == Transfer(s.cpu.ctl, Busy(Requests(s.cpu), d.ack), s.cpu.r, d.di)
  }

  lemma NextIsEdge(s: System, d: Drive)
    requires Coherent(s.cpu.r.gpr)
    ensures Edge(s, d, CpuNext(s.cpu, d))
  {
    LinesTransfer(s.cpu.ctl, Busy(Requests(s.cpu), d.ack), s.cpu.r, d.di);
  }

  lemma RemainderIs(x: nat, k: nat, r: nat)
    requires x == 1024 * k + r && r < 1024
    ensures x % 1024 == r
  {
  }

  /** Cutting the address to 24 bits and then to 10 loses nothing the memory looks at. */
  lemma CellOfAddress(w: Word)
    ensures Isa.Cell(w % 0x100_0000) == Isa.Cell(w)
  {
    var low := w % 0x100_0000;
    RemainderIs(w, 16384 * (w / 0x100_0000) + low / 1024, low % 1024);
  }

  /** What the handshake promises the processor: an acknowledged read drives the word at PC or MAR. */
  lemma ReadData(s: System, d: Drive)
    requires Honest(s, d) && d.ack
    ensures s.cpu.ctl == Fetch ==> d.di == s.mem[Isa.Cell(s.cpu.r.pc)]
    ensures s.cpu.ctl == Load ==> d.di == s.mem[Isa.Cell(s.cpu.r.mar)]
    ensures s.cpu.ctl == Store ==> Isa.Cell(Address(s.cpu)) == Isa.Cell(s.cpu.r.mar)
  {
    CellOfAddress(s.cpu.r.pc);
    CellOfAddress(s.cpu.r.mar);
  }

  lemma IdleEdge(s: System, d: Drive, a: Isa.State, n: Cpu)
    requires Tracks(s, a) && s.cpu.ctl in {Init, Halt} && Edge(s, d, n)
    ensures Tracks(System(n, s.mem), Advance(s.cpu.ctl, n.ctl, a))
  {
  }

  lemma FetchEdge(s: System, d: Drive, a: Isa.State, n: Cpu)
    requires Tracks(s, a) && s.cpu.ctl == Fetch && Edge(s, d, n)
    requires d.ack ==> Strobe(s.cpu) && d.di == s.mem[Isa.Cell(s.cpu.r.pc)]
    ensures Tracks(System(n, s.mem), a) && !Ends(s.cpu.ctl, n.ctl)
  {
  }

  lemma LoadEdge(s: System, d: Drive, a: Isa.State, n: Cpu)
    requires Tracks(s, a) && s.cpu.ctl == Load && Edge(s, d, n)
    requires d.ack ==> Strobe(s.cpu) && d.di == s.mem[Isa.Cell(s.cpu.r.mar)]
    ensures Tracks(System(n, s.mem), a) && !Ends(s.cpu.ctl, n.ctl)
  {
    hide Isa.Cell;
  }

  lemma StoreWaits(s: System, d: Drive, a: Isa.State, n: Cpu)
    requires Tracks(s, a) && s.cpu.ctl == Store && Edge(s, d, n) && !d.ack
    ensures Tracks(System(n, s.mem), a) && !Ends(s.cpu.ctl, n.ctl)
  {
  }

  lemma StoreStep(s: System, a: Isa.State)
    requires Tracks(s, a) && s.cpu.ctl == Store
    ensures Isa.Step(a) == a.(pc := s.cpu.r.pc, mem := a.mem[Isa.Cell(s.cpu.r.mar) := s.cpu.r.mdr])
  {
    hide Isa.Cell;
  }

  lemma StoreEnds(s: System, d: Drive, a: Isa.State, n: Cpu)
    requires Tracks(s, a) && s.cpu.ctl == Store && Edge(s, d, n) && d.ack && Strobe(s.cpu)
    ensures Tracks(System(n, s.mem[Isa.Cell(s.cpu.r.mar) := s.cpu.r.mdr]), Isa.Step(a)) && Ends(s.cpu.ctl, n.ctl)
  {
    hide Isa.Cell, Isa.Step, Isa.Decode;
    StoreStep(s, a);
  }

  /** The state in which the execution of an instruction begins. */
  function Dispatch(i: Isa.Instr, stepEn: bool): Ctl {
    match i
    case Nop => Resume(stepEn)
    case Arith(_, _, _, _) => Alu
    case Shift(_, _, _) => ShiftSt
    case AddImm(_, _, _) => AluI
    case TestImm(_, _, _, _) => TestI
    case LoadWord(_, _, _) => AddressCmp
    case StoreWord(_, _, _) => AddressCmp
    case JumpReg(_) => Jr
    case JumpLink(_) => SavePc
    case BranchOn(_, _, _) => Branch
    case Stop => Halt
  }

  lemma OpcodeClass(op: nat)
    requires op < 64
    ensures op / 8 == 6 <==> 48 <= op < 56
    ensures op / 4 == 0 <==> op < 4
    ensures op / 8 == 1 <==> 8 <= op < 16
    ensures op / 8 == 3 <==> 24 <= op < 32
    ensures op / 16 == 2 <==> 32 <= op < 48
    ensures op / 8 == 2 <==> 16 <= op < 24
    ensures op / 4 == 1 <==> 4 <= op < 8
  {
  }

  lemma DecodeDispatches(ir: Word, i: Sense)
    requires i.opcode == Isa.Opcode(ir) && i.ir5 == (ir / 32 % 2 == 1)
    ensures NextCtl(Decode, i) == Dispatch(Isa.Decode(ir), i.stepEn)
  {
    OpcodeClass(i.opcode);
  }

  lemma DispatchedEdge(s: System, a: Isa.State, n: Cpu, stepEn: bool)
    requires Tracks(s, a) && s.cpu.ctl == Decode
    requires n == Cpu(Dispatch(Isa.Decode(s.cpu.r.ir), stepEn), Wait4Req, Transfer(Decode, false, s.cpu.r, 0))
    ensures Tracks(System(n, s.mem), if Ends(Decode, n.ctl) then Isa.Step(a) else a)
  {
  }

  lemma DecodeEdge(s: System, d: Drive, a: Isa.State, n: Cpu)
    requires Tracks(s, a) && s.cpu.ctl == Decode && Edge(s, d, n)
    ensures Tracks(System(n, s.mem), Advance(Decode, n.ctl, a))
  {
    hide Tracks;
    DecodeDispatches(s.cpu.r.ir, SenseOf(s.cpu, d));
    assert BusInv(s.cpu) by { TracksBus(s, a); }
    DispatchedEdge(s, a, n, d.stepEn);
  }

  lemma TracksBus(s: System, a: Isa.State)
    requires Tracks(s, a)
    ensures BusInv(s.cpu) && Coherent(s.cpu.r.gpr)
  {
  }

  lemma ComputeEdge(s: System, d: Drive, a: Isa.State, n: Cpu)
    requires Tracks(s, a) && s.cpu.ctl in {Alu, ShiftSt} && Edge(s, d, n)
    ensures Tracks(System(n, s.mem), a) && !Ends(s.cpu.ctl, n.ctl)
  {
  }

  lemma ImmediateEdge(s: System, d: Drive, a: Isa.State, n: Cpu)
    requires Tracks(s, a) && s.cpu.ctl in {AluI, TestI} && Edge(s, d, n)
    ensures Tracks(System(n, s.mem), a) && !Ends(s.cpu.ctl, n.ctl)
  {
  }

  lemma AddressEdge(s: System, d: Drive, a: Isa.State, n: Cpu)
    requires Tracks(s, a) && s.cpu.ctl == AddressCmp && Edge(s, d, n)
    ensures Tracks(System(n, s.mem), a) && !Ends(s.cpu.ctl, n.ctl)
  {
  }

  lemma CopyEdge(s: System, d: Drive, a: Isa.State, n: Cpu)
    requires Tracks(s, a) && s.cpu.ctl in {CopyMdr2C, CopyGpr2Mdr, SavePc} && Edge(s, d, n)
    ensures Tracks(System(n, s.mem), a) && !Ends(s.cpu.ctl, n.ctl)
  {
  }

  lemma WbrEdge(s: System, d: Drive, a: Isa.State, n: Cpu)
    requires Tracks(s, a) && s.cpu.ctl == Wbr && Edge(s, d, n)
    ensures Tracks(System(n, s.mem), Isa.Step(a)) && Ends(s.cpu.ctl, n.ctl)
  {
  }

  lemma WbiEdge(s: System, d: Drive, a: Isa.State, n: Cpu)
    requires Tracks(s, a) && s.cpu.ctl == Wbi && Edge(s, d, n)
    ensures Tracks(System(n, s.mem), Isa.Step(a)) && Ends(s.cpu.ctl, n.ctl)
  {
  }

  lemma JrEdge(s: System, d: Drive, a: Isa.State, n: Cpu)
    requires Tracks(s, a) && s.cpu.ctl == Jr && Edge(s, d, n)
    ensures Tracks(System(n, s.mem), Isa.Step(a)) && Ends(s.cpu.ctl, n.ctl)
  {
  }

  lemma JalrEdge(s: System, d: Drive, a: Isa.State, n: Cpu)
    requires Tracks(s, a) && s.cpu.ctl == Jalr && Edge(s, d, n)
    ensures Tracks(System(n, s.mem), Isa.Step(a)) && Ends(s.cpu.ctl, n.ctl)
  {
  }

  lemma BranchEdge(s: System, d: Drive, a: Isa.State, n: Cpu)
    requires Tracks(s, a) && s.cpu.ctl == Branch && Edge(s, d, n)
    ensures Tracks(System(n, s.mem), if Ends(Branch, n.ctl) then Isa.Step(a) else a)
  {
  }

  lemma TakenEdge(s: System, d: Drive, a: Isa.State, n: Cpu)
    requires Tracks(s, a) && s.cpu.ctl == BTaken && Edge(s, d, n)
    ensures Tracks(System(n, s.mem), Isa.Step(a)) && Ends(s.cpu.ctl, n.ctl)
  {
  }

  // ---- All states together

  function Advance(from: Ctl, to: Ctl, a: Isa.State): Isa.State {
    if Ends(from, to) then Isa.Step(a) else a
  }

  lemma BusEdge(s: System, d: Drive, a: Isa.State, n: Cpu)
    requires Tracks(s, a) && Honest(s, d) && s.cpu.ctl in {Fetch, Load, Store} && Edge(s, d, n)
    ensures Tracks(System(n, Next(s, d).mem), Advance(s.cpu.ctl, n.ctl, a))
  {
    hide Tracks, Edge, Isa.Step;
    if d.ack {
      ReadData(s, d);
    }
    if s.cpu.ctl == Fetch {
      FetchEdge(s, d, a, n);
    } else if s.cpu.ctl == Load {
      LoadEdge(s, d, a, n);
    } else if d.ack {
      StoreEnds(s, d, a, n);
    } else {
      StoreWaits(s, d, a, n);
    }
  }

  predicate Executing(c: Ctl) {
    c in {Alu, ShiftSt, AluI, TestI, AddressCmp, CopyMdr2C, CopyGpr2Mdr, SavePc}
  }

  lemma ExecuteEdge(s: System, d: Drive, a: Isa.State, n: Cpu)
    requires Tracks(s, a) && Executing(s.cpu.ctl) && Edge(s, d, n)
    ensures Tracks(System(n, s.mem), Advance(s.cpu.ctl, n.ctl, a))
  {
    hide Tracks, Edge, Isa.Step;
    if s.cpu.ctl in {Alu, ShiftSt} {
      ComputeEdge(s, d, a, n);
    } else if s.cpu.ctl in {AluI, TestI} {
      ImmediateEdge(s, d, a, n);
    } else if s.cpu.ctl == AddressCmp {
      AddressEdge(s, d, a, n);
    } else {
      CopyEdge(s, d, a, n);
    }
  }

  predicate Finishing(c: Ctl) { c in {Wbr, Wbi, Jr, Jalr, Branch, BTaken} }

  lemma FinishEdge(s: System, d: Drive, a: Isa.State, n: Cpu)
    requires Tracks(s, a) && Finishing(s.cpu.ctl) && Edge(s, d, n)
    ensures Tracks(System(n, s.mem), Advance(s.cpu.ctl, n.ctl, a))
  {
    hide Tracks, Edge, Isa.Step;
    if s.cpu.ctl == Wbr {
      WbrEdge(s, d, a, n);
    } else if s.cpu.ctl == Wbi {
      WbiEdge(s, d, a, n);
    } else if s.cpu.ctl == Jr {
      JrEdge(s, d, a, n);
    } else if s.cpu.ctl == Jalr {
      JalrEdge(s, d, a, n);
    } else if s.cpu.ctl == Branch {
      BranchEdge(s, d, a, n);
    } else {
      TakenEdge(s, d, a, n);
    }
  }

  /** The simulation step: on every edge the hardware either keeps its place in the instruction or completes it. */
  lemma TracksNext(s: System, d: Drive, a: Isa.State)
    requires Tracks(s, a) && Honest(s, d)
    ensures Tracks(Next(s, d), Advance(s.cpu.ctl, CpuNext(s.cpu, d).ctl, a))
  {
    hide Tracks, Honest, Edge, CpuNext, Advance;
    var n := CpuNext(s.cpu, d);
    TracksBus(s, a);
    NextIsEdge(s, d);
    if s.cpu.ctl in {Fetch, Load, Store} {
      BusEdge(s, d, a, n);
    } else if s.cpu.ctl == Decode {
      DecodeEdge(s, d, a, n);
    } else if Executing(s.cpu.ctl) {
      ExecuteEdge(s, d, a, n);
    } else if Finishing(s.cpu.ctl) {
      FinishEdge(s, d, a, n);
    } else {
      IdleEdge(s, d, a, n);
    }
  }

  // ---- Whole runs

  lemma BootTracks(s: System)
    requires Booted(s)
    ensures Tracks(s, Visible(s))
  {
  }

  /** Refinement: after any run from reset the hardware tracks the sequential machine, one step per retirement. */
  lemma {:induction false} RunTracks(s: System, ds: seq<Drive>)
    requires Booted(s) && HonestRun(s, ds)
    ensures Tracks(Run(s, ds), Isa.Steps(Visible(s), Retired(s, ds)))
  {
    hide Tracks, Next, Honest, Isa.Step, Booted, Visible, Ends;
    if ds == [] {
      BootTracks(s);
    } else {
      var before := ds[..|ds| - 1];
      RunTracks(s, before);
      TracksNext(Run(s, before), ds[|ds| - 1], Isa.Steps(Visible(s), Retired(s, before)));
    }
  }

  lemma BoundaryIsVisible(s: System, a: Isa.State)
    requires Tracks(s, a) && s.cpu.ctl in {Init, Fetch, Halt}
    ensures Visible(s) == a
  {
  }

  /** Between instructions PC, all registers and memory are those of the sequential machine, for every memory timing. */
  lemma IsaRefinement(s: System, ds: seq<Drive>)
    requires Booted(s) && HonestRun(s, ds) && Run(s, ds).cpu.ctl in {Init, Fetch, Halt}
    ensures Visible(Run(s, ds)) == Isa.Steps(Visible(s), Retired(s, ds))
  {
    hide Tracks, Run, Retired, Booted, Visible;
    RunTracks(s, ds);
    BoundaryIsVisible(Run(s, ds), Isa.Steps(Visible(s), Retired(s, ds)));
  }
}
