/** The processor closed with its handshaking SRAM: the memory keeps the bus contract, and the cycle count is exact. */
module Board {
  import opened Words
  import opened Control
  import opened Core
  import opened Refinement
  import opened Ledger
  import Isa

  // ---- The memory chip

  datatype Sram = Sram(mem: Isa.Memory, busy: bool, busyD: bool, intDone: bool, doS: Word)

  function SramNext(r: Sram, strobe: bool, we: bool, di: Word, add: nat): Sram {
    var access, cell := strobe && r.busyD, add % 1024;
    Sram(
      mem := if access && we then r.mem[cell := di] else r.mem,
      busy := strobe,
      busyD := strobe && r.busy,
      intDone := if access then !r.intDone else strobe && r.intDone,
      doS := if access && !we then r.mem[cell] else r.doS)
  }

  function SramReset(r: Sram, image: Isa.Memory): Sram {
    Sram(image, false, false, false, r.doS)
  }

  // ---- Both together

  datatype Board = Board(cpu: Cpu, ram: Sram)

  /** What the memory and the step input drive into the processor. */
  function DriveOf(b: Board, stepEn: bool): Drive {
    Drive(stepEn, b.ram.intDone, if b.ram.intDone then b.ram.doS else 0)
  }

  function BoardNext(b: Board, stepEn: bool): Board {
    Board(CpuNext(b.cpu, DriveOf(b, stepEn)),
          SramNext(b.ram, Strobe(b.cpu), WriteRequest(b.cpu.ctl), b.cpu.r.mdr, Address(b.cpu) % 0x20_0000))
  }

  function BoardRun(b: Board, steps: seq<bool>): Board {
    if steps == [] then b else BoardNext(BoardRun(b, steps[..|steps| - 1]), steps[|steps| - 1])
  }

  /** The drives the memory produced during a run. */
  function Drives(b: Board, steps: seq<bool>): (ds: seq<Drive>)
    ensures |ds| == |steps|
  {
    if steps == [] then []
    else Drives(b, steps[..|steps| - 1]) + [DriveOf(BoardRun(b, steps[..|steps| - 1]), steps[|steps| - 1])]
  }

  function BoardReset(b: Board, image: Isa.Memory): Board {
    Board(CpuReset(b.cpu), SramReset(b.ram, image))
  }

  predicate Ready(r: Sram) { !r.busy && !r.busyD && !r.intDone }

  predicate BoardBooted(b: Board) {
    Booted(System(b.cpu, b.ram.mem)) && Ready(b.ram)
  }

  // ---- The memory keeps the contract

  /** Progress of the handshake flags in every state of the bus master. */
  predicate Flags(b: Board) {
    match b.cpu.mac
    case Wait4Req => Ready(b.ram)
    case Wait4Ack => (b.ram.busyD ==> b.ram.busy) && (b.ram.intDone ==> b.ram.busyD)
    case StNext => b.ram.busy && b.ram.busyD && !b.ram.intDone
    case Unused => false
  }

  function CellOf(c: Cpu): nat { Isa.Cell(Address(c)) }

  /** The chip writes one edge before it answers; until the answer the contract still shows the old word. */
  predicate Models(b: Board, s: System) {
    b.cpu == s.cpu && Flags(b)
    && var answering := Strobe(b.cpu) && b.ram.intDone;
    b.ram.mem == (if answering && WriteRequest(b.cpu.ctl) then s.mem[CellOf(b.cpu) := b.cpu.r.mdr] else s.mem)
    && (answering && ReadRequest(b.cpu.ctl) ==> b.ram.doS == s.mem[CellOf(b.cpu)])
  }

  lemma CellOfPins(w: Word)
    ensures w % 0x20_0000 % 1024 == Isa.Cell(w)
  {
    var low := w % 0x20_0000;
    RemainderIs(w, 2048 * (w / 0x20_0000) + low / 1024, low % 1024);
  }

  lemma ModelsHonest(b: Board, s: System, stepEn: bool, a: Isa.State)
    requires Models(b, s) && Tracks(s, a)
    ensures Honest(s, DriveOf(b, stepEn))
    ensures Strobe(b.cpu) ==> Requests(b.cpu)
  {
    hide Midway;
  }

  lemma ModelsNext(b: Board, s: System, stepEn: bool, a: Isa.State)
    requires Models(b, s) && Tracks(s, a)
    ensures Models(BoardNext(b, stepEn), Next(s, DriveOf(b, stepEn)))
  {
    hide Tracks, InternalBus, BranchTaken, NextCtl;
    ModelsHonest(b, s, stepEn, a);
    CellOfPins(Address(b.cpu));
    var d := DriveOf(b, stepEn);
    if Strobe(b.cpu) && Strobe(CpuNext(b.cpu, d)) {
      BusStable(s, d, a);
    }
  }

  function Start(b: Board): System { System(b.cpu, b.ram.mem) }

  /** Every run of the board is a run of the processor on an honest slave. */
  lemma {:induction false} RunModels(b: Board, steps: seq<bool>)
    requires BoardBooted(b)
    ensures HonestRun(Start(b), Drives(b, steps))
    ensures Models(BoardRun(b, steps), Run(Start(b), Drives(b, steps)))
  {
    hide Models, BoardNext, Next, Tracks, Honest, DriveOf, Isa.Steps, Retired, Booted;
    if steps == [] {
      BootModels(b);
    } else {
      var before := steps[..|steps| - 1];
      var ds := Drives(b, steps);
      assert ds[..|ds| - 1] == Drives(b, before);
      RunModels(b, before);
      var s, a := Run(Start(b), Drives(b, before)), Isa.Steps(Visible(Start(b)), Retired(Start(b), Drives(b, before)));
      RunTracks(Start(b), Drives(b, before));
      ModelsHonest(BoardRun(b, before), s, steps[|steps| - 1], a);
      ModelsNext(BoardRun(b, before), s, steps[|steps| - 1], a);
    }
  }

  lemma BootModels(b: Board)
    requires BoardBooted(b)
    ensures Models(b, Start(b))
  {
  }

  function BoardRetired(b: Board, steps: seq<bool>): nat { Retired(Start(b), Drives(b, steps)) }

  function BoardVisible(b: Board): Isa.State { Visible(Start(b)) }

  /** The board executes the sequential machine: registers, PC and the chip's own memory agree at every boundary. */
  lemma BoardRefines(b: Board, steps: seq<bool>)
    requires BoardBooted(b) && BoardRun(b, steps).cpu.ctl in {Init, Fetch, Halt}
    ensures BoardVisible(BoardRun(b, steps)) == Isa.Steps(BoardVisible(b), BoardRetired(b, steps))
  {
    hide Run, Retired, Drives, BoardRun, Isa.Steps, Booted, Flags, Address;
    RunModels(b, steps);
    IsaRefinement(Start(b), Drives(b, steps));
  }

  /** Reset in any state whose register file is coherent, in the middle of anything, boots the board anew. */
  lemma ResetBoots(b: Board, image: Isa.Memory)
    requires Coherent(b.cpu.r.gpr)
    ensures BoardBooted(BoardReset(b, image))
    ensures BoardVisible(BoardReset(b, image)) == Isa.State(0, b.cpu.r.gpr.a, image, false)
  {
  }

  // ---- Exact time

  /** Clock cycles of an instruction on this memory. */
  function Cycles(i: Isa.Instr, taken: bool): nat {
    match i
    case Nop => 6
    case Stop => 6
    case JumpReg(_) => 7
    case BranchOn(_, _, _) => if taken then 8 else 7
    case LoadWord(_, _, _) => 14
    case StoreWord(_, _, _) => 13
    case _ => 8
  }

  function CyclesOf(a: Isa.State): nat {
    if a.halted then 0 else Cycles(Isa.Current(a), Taken(Isa.Current(a), a.regs))
  }

  function CycleSum(a: Isa.State, n: nat): nat {
    if n == 0 then 0 else CycleSum(a, n - 1) + CyclesOf(Isa.Steps(a, n - 1))
  }

  /** Edges since the current strobe was requested. */
  function Phase(b: Board): nat {
    if b.cpu.mac != Wait4Ack then 0
    else if b.ram.intDone then 4
    else if b.ram.busyD then 3
    else if b.ram.busy then 2
    else 1
  }

  /** The bus master is still closing a store while the next fetch already asks for the bus. */
  predicate Stalls(b: Board) { b.cpu.ctl == Fetch && b.cpu.mac == StNext }

  predicate WritesChip(b: Board) { Strobe(b.cpu) && b.ram.busyD && WriteRequest(b.cpu.ctl) }

  datatype Clocks = Clocks(idle: nat, waits: nat, acks: nat, stalls: nat, chipWrites: nat, stores: nat)

  function ClocksOf(b: Board, steps: seq<bool>): Clocks {
    if steps == [] then Clocks(0, 0, 0, 0, 0, 0)
    else
      var t, before := ClocksOf(b, steps[..|steps| - 1]), BoardRun(b, steps[..|steps| - 1]);
      Clocks(t.idle + Bit(before.cpu.ctl in {Init, Halt}),
             t.waits + Bit(Requests(before.cpu) && !before.ram.intDone),
             t.acks + Bit(before.ram.intDone),
             t.stalls + Bit(Stalls(before)),
             t.chipWrites + Bit(WritesChip(before)),
             t.stores + Bit(WriteRequest(before.cpu.ctl) && before.ram.intDone))
  }

  lemma PhaseEdge(b: Board, s: System, stepEn: bool, a: Isa.State)
    requires Models(b, s) && Tracks(s, a)
    ensures var n := BoardNext(b, stepEn);
            var waits := Requests(b.cpu) && !b.ram.intDone;
            Phase(b) + Bit(waits) == Phase(n) + Bit(Stalls(b)) + 4 * Bit(b.ram.intDone)
    ensures var n := BoardNext(b, stepEn);
            Bit(WriteRequest(b.cpu.ctl) && Phase(b) == 4) + Bit(WritesChip(b)) ==
            Bit(WriteRequest(n.cpu.ctl) && Phase(n) == 4) + 2 * Bit(WriteRequest(b.cpu.ctl) && b.ram.intDone)
  {
    hide Midway, InternalBus, BranchTaken;
  }

  /** Cycles already spent on the instruction `i`. */
  function Elapsed(b: Board, i: Isa.Instr): nat {
    Done(b.cpu.ctl, i) + 4 * Received(b.cpu.ctl, i) + Phase(b)
  }

  lemma CyclesAreWorkAndWaits(i: Isa.Instr, taken: bool)
    ensures Cycles(i, taken) == Work(i, taken) + 4 * Accesses(i)
  {
  }

  lemma {:induction false} CycleSums(a: Isa.State, n: nat)
    ensures CycleSum(a, n) == WorkSum(a, n) + 4 * AccessSum(a, n)
  {
    hide Isa.Current, Work, Accesses, Cycles, Taken, Isa.Steps;
    if n > 0 {
      CycleSums(a, n - 1);
      var b := Isa.Steps(a, n - 1);
      CyclesAreWorkAndWaits(Isa.Current(b), Taken(Isa.Current(b), b.regs));
    }
  }

  // ---- Stores that run straight into the next fetch

  predicate BoardRetires(b: Board, stepEn: bool) { Ends(b.cpu.ctl, BoardNext(b, stepEn).cpu.ctl) }

  /** The step input at every retirement, in order. */
  function RetireInputs(b: Board, steps: seq<bool>): seq<bool> {
    if steps == [] then []
    else
      var before, stepEn := steps[..|steps| - 1], steps[|steps| - 1];
      RetireInputs(b, before) + (if BoardRetires(BoardRun(b, before), stepEn) then [stepEn] else [])
  }

  /** Store instructions of the sequential trace that retire with the step input high. */
  function RunOns(a: Isa.State, inputs: seq<bool>): (n: nat)
    ensures n <= |inputs|
  {
    if inputs == [] then 0
    else
      var k := |inputs| - 1;
      RunOns(a, inputs[..k]) + Bit(inputs[k] && Isa.Current(Isa.Steps(a, k)).StoreWord?)
  }

  lemma StallIff(b: Board, s: System, stepEn: bool, a: Isa.State)
    requires Models(b, s) && Tracks(s, a)
    ensures Stalls(BoardNext(b, stepEn)) <==> b.cpu.ctl == Store && BoardNext(b, stepEn).cpu.ctl == Fetch
  {
    hide Midway, RegsNext, BranchTaken;
  }

  /** Only a store instruction retires from Store, and it goes on to Fetch exactly if the step input is high. */
  lemma StoreRetires(c: Ctl, i: Isa.Instr, taken: bool, stepEn: bool, busy: bool)
    requires Kind(c, i, taken)
    ensures var n := Planned(c, i, taken, stepEn, busy);
            (c == Store && n == Fetch) <==> (Ends(c, n) && stepEn && i.StoreWord?)
  {
  }

  /** The bus master makes the next fetch wait exactly if a store has just retired with the step input high. */
  lemma StallEdge(b: Board, s: System, stepEn: bool, a: Isa.State)
    requires Models(b, s) && Tracks(s, a)
    ensures Stalls(BoardNext(b, stepEn)) <==> BoardRetires(b, stepEn) && stepEn && Isa.Current(a).StoreWord?
  {
    hide Tracks, CpuNext, SramNext, Ends, Kind, Planned, Stalls, Taken, Isa.Current;
    StallIff(b, s, stepEn, a);
    ModelsCpu(b, s);
    TracksKind(s, a);
    PlanHolds(s, DriveOf(b, stepEn), a);
    StoreRetires(b.cpu.ctl, Isa.Current(a), Taken(Isa.Current(a), a.regs), stepEn,
                 Busy(Requests(b.cpu), DriveOf(b, stepEn).ack));
  }

  /** The memory's half of the books: waiting comes in fours, stores are written twice. */
  ghost predicate ClocksBalanced(b: Board, steps: seq<bool>) {
    var c, t, r := ClocksOf(b, steps), TallyOf(Start(b), Drives(b, steps)), BoardRun(b, steps);
    && c.idle == t.idle && c.waits == t.waits && c.acks == t.acks
    && c.waits == 4 * c.acks + c.stalls + Phase(r)
    && c.chipWrites == 2 * c.stores + Bit(WriteRequest(r.cpu.ctl) && Phase(r) == 4)
  }

  lemma RunOnsNext(a: Isa.State, inputs: seq<bool>, x: bool)
    ensures RunOns(a, inputs + [x]) == RunOns(a, inputs) + Bit(x && Isa.Current(Isa.Steps(a, |inputs|)).StoreWord?)
  {
    assert (inputs + [x])[..|inputs|] == inputs;
  }

  lemma NextCpu(b: Board, stepEn: bool)
    ensures BoardNext(b, stepEn).cpu == CpuNext(b.cpu, DriveOf(b, stepEn))
  {
  }

  lemma RetiredAgain(b: Board, steps: seq<bool>, before: seq<bool>, s: System)
    requires steps != [] && before == steps[..|steps| - 1]
    requires Models(BoardRun(b, before), s) && s == Run(Start(b), Drives(b, before))
    ensures BoardRetired(b, steps) ==
            BoardRetired(b, before) + Bit(BoardRetires(BoardRun(b, before), steps[|steps| - 1]))
  {
    hide Models, BoardNext, Next, CpuNext, Ends;
    var ds := Drives(b, steps);
    assert ds[..|ds| - 1] == Drives(b, before);
    ModelsCpu(BoardRun(b, before), s);
    NextCpu(BoardRun(b, before), steps[|steps| - 1]);
  }

  lemma StallCounted(b: Board, steps: seq<bool>, before: seq<bool>)
    requires steps != [] && before == steps[..|steps| - 1]
    ensures var t, n, r := ClocksOf(b, before), ClocksOf(b, steps), BoardRun(b, before);
            n.idle == t.idle + Bit(r.cpu.ctl in {Init, Halt}) && n.stalls == t.stalls + Bit(Stalls(r))
  {
    hide BoardNext;
  }

  lemma InputsNext(b: Board, steps: seq<bool>, before: seq<bool>)
    requires steps != [] && before == steps[..|steps| - 1]
    ensures var stepEn, r := steps[|steps| - 1], BoardRun(b, before);
            RetireInputs(b, steps) ==
            (if BoardRetires(r, stepEn) then RetireInputs(b, before) + [stepEn] else RetireInputs(b, before))
            && BoardRun(b, steps) == BoardNext(r, stepEn)
  {
  }

  /** One stall for every store instruction retired with the step input high, from the edge after on. */
  lemma {:induction false} StallsAreRunOns(b: Board, steps: seq<bool>)
    requires BoardBooted(b)
    ensures |RetireInputs(b, steps)| == BoardRetired(b, steps)
    ensures ClocksOf(b, steps).stalls + Bit(Stalls(BoardRun(b, steps))) ==
            RunOns(BoardVisible(b), RetireInputs(b, steps))
  {
    hide BoardNext, Next, Tracks, Models, Booted, Stalls, BoardRetires, RunOns, RetireInputs, ClocksOf, Isa.Steps,
      Isa.Current, Visible, Drives, Run, Retired;
    if steps == [] {
      NothingRetired(b);
    } else {
      var before, stepEn := steps[..|steps| - 1], steps[|steps| - 1];
      var s, a := Run(Start(b), Drives(b, before)), Isa.Steps(Visible(Start(b)), Retired(Start(b), Drives(b, before)));
      StallsAreRunOns(b, before);
      RunModels(b, before);
      RunTracks(Start(b), Drives(b, before));
      StallEdge(BoardRun(b, before), s, stepEn, a);
      RunOnsNext(BoardVisible(b), RetireInputs(b, before), stepEn);
      RetiredAgain(b, steps, before, s);
      StallCounted(b, steps, before);
      InputsNext(b, steps, before);
    }
  }

  lemma NothingRetired(b: Board)
    requires BoardBooted(b)
    ensures BoardRetired(b, []) == |RetireInputs(b, [])| == RunOns(BoardVisible(b), RetireInputs(b, [])) == 0
    ensures ClocksOf(b, []).stalls == 0 && !Stalls(BoardRun(b, []))
  {
  }

  lemma ClocksNext(b: Board, steps: seq<bool>, before: seq<bool>, s: System, a: Isa.State)
    requires steps != [] && before == steps[..|steps| - 1] && ClocksBalanced(b, before)
    requires Models(BoardRun(b, before), s) && Tracks(s, a) && s == Run(Start(b), Drives(b, before))
    ensures ClocksBalanced(b, steps)
  {
    hide Models, BoardNext, Next, Tracks, Phase, Stalls, WritesChip, CpuNext, Retired;
    var ds := Drives(b, steps);
    assert ds[..|ds| - 1] == Drives(b, before);
    PhaseEdge(BoardRun(b, before), s, steps[|steps| - 1], a);
    ModelsCpu(BoardRun(b, before), s);
  }

  lemma ModelsCpu(b: Board, s: System)
    requires Models(b, s)
    ensures s.cpu == b.cpu
  {
  }

  lemma {:induction false} ClocksBalance(b: Board, steps: seq<bool>)
    requires BoardBooted(b)
    ensures ClocksBalanced(b, steps)
  {
    hide BoardNext, Next, Tracks, Models, ClocksBalanced, Booted;
    if steps == [] {
      EmptyClocks(b);
    } else {
      var before := steps[..|steps| - 1];
      ClocksBalance(b, before);
      RunModels(b, before);
      RunTracks(Start(b), Drives(b, before));
      var a := Isa.Steps(Visible(Start(b)), Retired(Start(b), Drives(b, before)));
      ClocksNext(b, steps, before, Run(Start(b), Drives(b, before)), a);
    }
  }

  lemma EmptyClocks(b: Board)
    requires BoardBooted(b)
    ensures ClocksBalanced(b, [])
  {
  }

  /** Total time is the sum over the sequential trace, plus idling, plus one cycle for every store retired with the step
      input high (once that cycle has passed), plus the cycles of the instruction under way. */
  lemma ExactTime(b: Board, steps: seq<bool>)
    requires BoardBooted(b)
    ensures var n, r := BoardRetired(b, steps), BoardRun(b, steps);
            var i := Isa.Current(Isa.Steps(BoardVisible(b), n));
            |RetireInputs(b, steps)| == n
            && |steps| + Bit(Stalls(r)) == ClocksOf(b, steps).idle + RunOns(BoardVisible(b), RetireInputs(b, steps))
                                           + CycleSum(BoardVisible(b), n) + Elapsed(r, i)
    ensures ClocksOf(b, steps).stalls + Bit(Stalls(BoardRun(b, steps))) ==
            RunOns(BoardVisible(b), RetireInputs(b, steps))
  {
    hide BoardNext, Next, Tracks, Booted, Phase, Done, Received, ClocksOf, TallyOf, Run, Retired, BoardRun, WorkSum,
      AccessSum, CycleSum, Isa.Steps, Isa.Current, RunOns, RetireInputs, Stalls;
    ClocksBalance(b, steps);
    StallsAreRunOns(b, steps);
    RunModels(b, steps);
    ModelsCpu(BoardRun(b, steps), Run(Start(b), Drives(b, steps)));
    BooksBalance(Start(b), Drives(b, steps));
    CycleSums(BoardVisible(b), BoardRetired(b, steps));
  }

  lemma ElapsedBounded(b: Board, s: System, a: Isa.State)
    requires Models(b, s) && Tracks(s, a)
    ensures Elapsed(b, Isa.Current(a)) <= 13
  {
    hide Midway, Isa.Current, Address;
  }

  lemma {:induction false} CycleSumBounded(a: Isa.State, n: nat)
    ensures CycleSum(a, n) <= 14 * n
  {
    hide Isa.Steps, Isa.Current, Taken;
    if n > 0 {
      CycleSumBounded(a, n - 1);
    }
  }

  /** Liveness: outside Init and Halt the board never goes more than fifteen cycles without retiring. */
  lemma NeverHangs(b: Board, steps: seq<bool>)
    requires BoardBooted(b)
    ensures |steps| <= ClocksOf(b, steps).idle + 15 * BoardRetired(b, steps) + 13
  {
    hide BoardNext, Next, Tracks, Booted, Models, ClocksOf, Run, Retired, BoardRun, CycleSum, Isa.Steps,
      Isa.Current, Elapsed;
    ExactTime(b, steps);
    RunModels(b, steps);
    RunTracks(Start(b), Drives(b, steps));
    var s, a := Run(Start(b), Drives(b, steps)), Isa.Steps(BoardVisible(b), BoardRetired(b, steps));
    ElapsedBounded(BoardRun(b, steps), s, a);
    CycleSumBounded(BoardVisible(b), BoardRetired(b, steps));
  }
}
