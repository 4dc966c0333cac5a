/** Where the clock edges of a run go: idling, waiting for the memory, or a fixed amount of work per instruction. */
module Ledger {
  import opened Words
  import opened Control
  import opened Core
  import opened Refinement
  import Isa

  // ---- What an instruction costs

  predicate Taken(i: Isa.Instr, regs: Isa.Bank) {
    i.BranchOn? && (regs[i.rs] == 0) == i.zero
  }

  /** Edges an instruction needs besides those spent waiting for an acknowledgement. */
  function Work(i: Isa.Instr, taken: bool): nat {
    match i
    case Nop => 2
    case Stop => 2
    case JumpReg(_) => 3
    case BranchOn(_, _, _) => if taken then 4 else 3
    case LoadWord(_, _, _) => 6
    case StoreWord(_, _, _) => 5
    case _ => 4
  }

  /** Memory accesses of an instruction: its own fetch and at most one word of data. */
  function Accesses(i: Isa.Instr): nat {
    if i.LoadWord? || i.StoreWord? then 2 else 1
  }

  function WorkOf(a: Isa.State): nat {
    if a.halted then 0 else Work(Isa.Current(a), Taken(Isa.Current(a), a.regs))
  }

  function AccessesOf(a: Isa.State): nat {
    if a.halted then 0 else Accesses(Isa.Current(a))
  }

  function WorkSum(a: Isa.State, n: nat): nat {
    if n == 0 then 0 else WorkSum(a, n - 1) + WorkOf(Isa.Steps(a, n - 1))
  }

  function AccessSum(a: Isa.State, n: nat): nat {
    if n == 0 then 0 else AccessSum(a, n - 1) + AccessesOf(Isa.Steps(a, n - 1))
  }

  // ---- The controller's path through one instruction

  /** The next controller state, told from the instruction instead of the sensed bits. */
  function Planned(c: Ctl, i: Isa.Instr, taken: bool, stepEn: bool, busy: bool): Ctl {
    match c
    case Decode => Dispatch(i, stepEn)
    case AddressCmp => if i.StoreWord? then CopyGpr2Mdr else Load
    case Branch => if taken then BTaken else Resume(stepEn)
    case _ => NextCtl(c, Sense(stepEn, busy, false, false, 0))
  }

  /** Which instructions pass through which state. */
  predicate Kind(c: Ctl, i: Isa.Instr, taken: bool) {
    match c
    case Alu => i.Arith?
    case ShiftSt => i.Shift?
    case AluI => i.AddImm?
    case TestI => i.TestImm?
    case Wbr => i.Arith? || i.Shift?
    case Wbi => i.AddImm? || i.TestImm? || i.LoadWord?
    case AddressCmp => i.LoadWord? || i.StoreWord?
    case Load => i.LoadWord?
    case CopyMdr2C => i.LoadWord?
    case CopyGpr2Mdr => i.StoreWord?
    case Store => i.StoreWord?
    case Jr => i.JumpReg?
    case SavePc => i.JumpLink?
    case Jalr => i.JumpLink?
    case Branch => i.BranchOn?
    case BTaken => i.BranchOn? && taken
    case Spare => false
    case _ => true
  }

  lemma TracksKind(s: System, a: Isa.State)
    requires Tracks(s, a)
    ensures Kind(s.cpu.ctl, Isa.Current(a), Taken(Isa.Current(a), a.regs))
  {
    hide Isa.Cell;
  }

  lemma PlannedDecode(s: System, d: Drive, a: Isa.State)
    requires Tracks(s, a) && s.cpu.ctl == Decode
    ensures NextCtl(Decode, SenseOf(s.cpu, d)) == Dispatch(Isa.Current(a), d.stepEn)
  {
    hide Dispatch, NextCtl;
    DecodeDispatches(s.cpu.r.ir, SenseOf(s.cpu, d));
  }

  lemma PlannedAddress(s: System, d: Drive, a: Isa.State)
    requires Tracks(s, a) && s.cpu.ctl == AddressCmp
    ensures NextCtl(AddressCmp, SenseOf(s.cpu, d)) == if Isa.Current(a).StoreWord? then CopyGpr2Mdr else Load
  {
  }

  lemma PlannedBranch(s: System, d: Drive, a: Isa.State)
    requires Tracks(s, a) && s.cpu.ctl == Branch
    ensures NextCtl(Branch, SenseOf(s.cpu, d)) ==
            if Taken(Isa.Current(a), a.regs) then BTaken else Resume(d.stepEn)
  {
  }

  lemma PlannedRest(c: Ctl, i: Sense)
    requires c !in {Decode, AddressCmp, Branch}
    ensures NextCtl(c, i) == NextCtl(c, Sense(i.stepEn, i.busy, false, false, 0))
  {
  }

  lemma PlanHolds(s: System, d: Drive, a: Isa.State)
    requires Tracks(s, a)
    ensures CpuNext(s.cpu, d).ctl ==
            Planned(s.cpu.ctl, Isa.Current(a), Taken(Isa.Current(a), a.regs), d.stepEn, Busy(Requests(s.cpu), d.ack))
  {
    hide Tracks, NextCtl, RegsNext, Dispatch, Taken, BranchTaken, Isa.Decode;
    if s.cpu.ctl == Decode {
      PlannedDecode(s, d, a);
    } else if s.cpu.ctl == AddressCmp {
      PlannedAddress(s, d, a);
    } else if s.cpu.ctl == Branch {
      PlannedBranch(s, d, a);
    } else {
      PlannedRest(s.cpu.ctl, SenseOf(s.cpu, d));
    }
  }

  /** Work already done on the instruction `i` on arrival in a state. */
  function Done(c: Ctl, i: Isa.Instr): nat {
    match c
    case Init => 0
    case Fetch => 0
    case Halt => 0
    case Decode => 1
    case Wbr => 3
    case Wbi => if i.LoadWord? then 5 else 3
    case Load => 3
    case CopyMdr2C => 4
    case CopyGpr2Mdr => 3
    case Store => 4
    case Jalr => 3
    case BTaken => 3
    case _ => 2
  }

  /** Acknowledgements already received for it. */
  function Received(c: Ctl, i: Isa.Instr): nat {
    match c
    case Init => 0
    case Fetch => 0
    case Halt => 0
    case CopyMdr2C => 2
    case Wbi => if i.LoadWord? then 2 else 1
    case _ => 1
  }

  lemma WorkStep(c: Ctl, i: Isa.Instr, taken: bool, stepEn: bool, ack: bool)
    requires Kind(c, i, taken)
    ensures var request := ReadRequest(c) || WriteRequest(c);
            var n := Planned(c, i, taken, stepEn, request && !ack);
            var done := Done(c, i) + (if c in {Init, Halt} || (request && !ack) then 0 else 1);
            if Ends(c, n) then done == Work(i, taken) && n in {Init, Fetch, Halt}
            else done == Done(n, i) && (n == Halt ==> c == Halt)
  {
  }

  lemma AckStep(c: Ctl, i: Isa.Instr, taken: bool, stepEn: bool, ack: bool)
    requires Kind(c, i, taken)
    ensures var request := ReadRequest(c) || WriteRequest(c);
            var n := Planned(c, i, taken, stepEn, request && !ack);
            var received := Received(c, i) + (if request && ack then 1 else 0);
            if Ends(c, n) then received == Accesses(i) else received == Received(n, i)
  {
  }

  lemma DoneStep(c: Ctl, i: Isa.Instr, taken: bool, stepEn: bool, ack: bool)
    requires Kind(c, i, taken)
    ensures var request := ReadRequest(c) || WriteRequest(c);
            var n := Planned(c, i, taken, stepEn, request && !ack);
            var done := Done(c, i) + (if c in {Init, Halt} || (request && !ack) then 0 else 1);
            var received := Received(c, i) + (if request && ack then 1 else 0);
            if Ends(c, n) then done == Work(i, taken) && received == Accesses(i) && n in {Init, Fetch, Halt}
            else done == Done(n, i) && received == Received(n, i) && (n == Halt ==> c == Halt)
  {
    hide Planned, Done, Received, Work, Accesses, Ends, Kind;
    WorkStep(c, i, taken, stepEn, ack);
    AckStep(c, i, taken, stepEn, ack);
  }

  // ---- The books of a run

  datatype Tally = Tally(idle: nat, waits: nat, acks: nat, visits: nat, strobes: nat)

  predicate Idles(s: System) { s.cpu.ctl in {Init, Halt} }

  predicate Waits(s: System, d: Drive) { Busy(Requests(s.cpu), d.ack) }

  /** The controller enters a bus state; leaving Store straight into Fetch opens a second visit. */
  predicate VisitStarts(s: System, d: Drive) {
    var n := CpuNext(s.cpu, d);
    Requests(n) && (!Requests(s.cpu) || n.ctl != s.cpu.ctl)
  }

  predicate StrobeStarts(s: System, d: Drive) { !Strobe(s.cpu) && Strobe(CpuNext(s.cpu, d)) }

  function TallyOf(s: System, ds: seq<Drive>): Tally {
    if ds == [] then Tally(0, 0, 0, 0, 0)
    else
      var t, before, d := TallyOf(s, ds[..|ds| - 1]), Run(s, ds[..|ds| - 1]), ds[|ds| - 1];
      Tally(t.idle + Bit(Idles(before)), t.waits + Bit(Waits(before, d)), t.acks + Bit(d.ack),
            t.visits + Bit(VisitStarts(before, d)), t.strobes + Bit(StrobeStarts(before, d)))
  }

  lemma AckMeansRequest(s: System, d: Drive, a: Isa.State)
    requires Tracks(s, a) && Honest(s, d)
    ensures Strobe(s.cpu) ==> Requests(s.cpu)
    ensures d.ack ==> Requests(s.cpu) && Strobe(s.cpu)
    ensures Idles(s) ==> !Requests(s.cpu)
  {
  }

  lemma BooksEdge(s: System, d: Drive, a: Isa.State)
    requires Tracks(s, a) && Honest(s, d)
    ensures var i := Isa.Current(a);
            var n := CpuNext(s.cpu, d).ctl;
            var done := Done(s.cpu.ctl, i) + (if Idles(s) || Waits(s, d) then 0 else 1);
            var received := Received(s.cpu.ctl, i) + Bit(d.ack);
            if Retires(s, d) then done == WorkOf(a) && received == AccessesOf(a) && n in {Init, Fetch, Halt}
            else done == Done(n, i) && received == Received(n, i)
  {
    hide Tracks, CpuNext, Honest, Kind, Planned, Done, Received, Work, Taken, Ends, Isa.Current, Accesses;
    AckMeansRequest(s, d, a);
    TracksKind(s, a);
    PlanHolds(s, d, a);
    NotHalted(s, d, a);
    DoneStep(s.cpu.ctl, Isa.Current(a), Taken(Isa.Current(a), a.regs), d.stepEn, d.ack);
  }

  lemma NotHalted(s: System, d: Drive, a: Isa.State)
    requires Tracks(s, a)
    ensures Retires(s, d) ==> !a.halted
  {
    hide CpuNext, NextCtl;
    if s.cpu.ctl == Halt {
      assert CpuNext(s.cpu, d).ctl == Halt by { HaltStays(s.cpu, d); }
    }
  }

  lemma HaltStays(c: Cpu, d: Drive)
    requires c.ctl == Halt
    ensures CpuNext(c, d).ctl == Halt
  {
  }

  lemma VisitEdge(c: Cpu, d: Drive)
    requires d.ack ==> Requests(c)
    ensures var n := CpuNext(c, d);
            Bit(Requests(n)) + Bit(d.ack) == Bit(Requests(c)) + Bit(Requests(n) && (!Requests(c) || n.ctl != c.ctl))
  {
    hide RegsNext, BranchTaken;
  }

  lemma StrobeEdge(c: Cpu, d: Drive)
    requires d.ack ==> Strobe(c)
    ensures var n := CpuNext(c, d);
            Bit(Strobe(n)) + Bit(d.ack) == Bit(Strobe(c)) + Bit(!Strobe(c) && Strobe(n))
  {
    hide RegsNext, BranchTaken, NextCtl;
  }

  /** The books balance: every edge idles, waits or works, and every visit to the bus has one strobe and one answer. */
  ghost predicate Balanced(s: System, ds: seq<Drive>) {
    var t, r, n := TallyOf(s, ds), Run(s, ds), Retired(s, ds);
    var i := Isa.Current(Isa.Steps(Visible(s), n));
    && |ds| == t.idle + t.waits + WorkSum(Visible(s), n) + Done(r.cpu.ctl, i)
    && t.acks == AccessSum(Visible(s), n) + Received(r.cpu.ctl, i)
    && t.visits == t.acks + Bit(Requests(r.cpu))
    && t.strobes == t.acks + Bit(Strobe(r.cpu))
  }

  lemma BalancedNext(s: System, ds: seq<Drive>)
    requires ds != [] && Balanced(s, ds[..|ds| - 1])
    requires Honest(Run(s, ds[..|ds| - 1]), ds[|ds| - 1])
    requires Tracks(Run(s, ds[..|ds| - 1]), Isa.Steps(Visible(s), Retired(s, ds[..|ds| - 1])))
    ensures Balanced(s, ds)
  {
    hide Tracks, CpuNext, Honest, Done, Received, Isa.Current, WorkOf, AccessesOf, Isa.Step, Requests, Strobe,
      Visible, Idles, Ends;
    var before, d := Run(s, ds[..|ds| - 1]), ds[|ds| - 1];
    var a := Isa.Steps(Visible(s), Retired(s, ds[..|ds| - 1]));
    AckMeansRequest(before, d, a);
    BooksEdge(before, d, a);
    VisitEdge(before.cpu, d);
    StrobeEdge(before.cpu, d);
    if Retires(before, d) {
      Fresh(CpuNext(before.cpu, d).ctl, Isa.Current(Isa.Step(a)));
    }
  }

  lemma Fresh(c: Ctl, i: Isa.Instr)
    ensures c in {Init, Fetch, Halt} ==> Done(c, i) == 0 && Received(c, i) == 0
  {
  }

  lemma {:induction false} BooksBalance(s: System, ds: seq<Drive>)
    requires Booted(s) && HonestRun(s, ds)
    ensures Balanced(s, ds)
  {
    hide Tracks, Next, Honest, Balanced, Booted;
    if ds == [] {
      EmptyBooks(s);
    } else {
      BooksBalance(s, ds[..|ds| - 1]);
      RunTracks(s, ds[..|ds| - 1]);
      BalancedNext(s, ds);
    }
  }

  lemma EmptyBooks(s: System)
    requires Booted(s)
    ensures Balanced(s, [])
  {
  }

  /** While the strobe is active and unanswered, address, data, direction and strobe all hold still. */
  lemma BusStable(s: System, d: Drive, a: Isa.State)
    requires Tracks(s, a) && Honest(s, d) && Strobe(s.cpu) && Strobe(CpuNext(s.cpu, d))
    ensures var n := CpuNext(s.cpu, d);
            Address(n) == Address(s.cpu) && n.r.mdr == s.cpu.r.mdr && WriteRequest(n.ctl) == WriteRequest(s.cpu.ctl)
            && ReadRequest(n.ctl) == ReadRequest(s.cpu.ctl)
  {
    hide InternalBus, BranchTaken;
    AckMeansRequest(s, d, a);
  }
}
