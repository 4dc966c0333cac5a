/** The analyzer on the board: how many samples one processor step leaves behind. */
module Monitor {
  import opened Words
  import opened Control
  import opened Core
  import opened Refinement
  import opened Ledger
  import opened Runs
  import opened Board
  import opened Analyzer
  import Isa

  predicate Resting(b: Board) { b.cpu.ctl in {Init, Halt} }

  /** The stall flag of the bus master on this board. */
  predicate StallFlag(b: Board) { Stalled(b.cpu, b.ram.intDone) }

  function ProbeOf(b: Board, stepEn: bool, sample: Word): Probe {
    Probe(stepEn, LinesOf(b.cpu, b.ram.intDone).inInit, !StallFlag(b), sample)
  }

  /** The control line of the processor tells the analyzer about Init and Halt. */
  lemma ProbeMeans(b: Board, stepEn: bool, sample: Word)
    ensures ProbeOf(b, stepEn, sample) == Probe(stepEn, Resting(b), !StallFlag(b), sample)
  {
    hide StallFlag;
  }

  function StallCount(b: Board, steps: seq<bool>): nat {
    if steps == [] then 0
    else StallCount(b, steps[..|steps| - 1]) + Bit(StallFlag(BoardRun(b, steps[..|steps| - 1])))
  }

  /** Stalled cycles already seen of the access under way. */
  function StallPhase(b: Board): nat { if Phase(b) == 0 then 0 else Phase(b) - 1 }

  lemma StallFlagEdge(b: Board, s: System, stepEn: bool, a: Isa.State)
    requires Models(b, s) && Tracks(s, a)
    ensures StallPhase(b) + Bit(StallFlag(b)) == StallPhase(BoardNext(b, stepEn)) + 3 * Bit(b.ram.intDone)
  {
    hide Midway, InternalBus, BranchTaken;
  }

  /** Every access stalls for exactly three cycles. */
  lemma {:induction false} ThreeStallsAnAccess(b: Board, steps: seq<bool>)
    requires BoardBooted(b)
    ensures StallCount(b, steps) == 3 * ClocksOf(b, steps).acks + StallPhase(BoardRun(b, steps))
  {
    hide BoardNext, Next, Tracks, Models, Booted, StallFlag, StallPhase;
    if steps == [] {
      BootRests(b);
      RestPhase(b);
    } else {
      var before := steps[..|steps| - 1];
      ThreeStallsAnAccess(b, before);
      RunModels(b, before);
      RunTracks(Start(b), Drives(b, before));
      StallFlagEdge(BoardRun(b, before), Run(Start(b), Drives(b, before)), steps[|steps| - 1],
                    Isa.Steps(Visible(Start(b)), Retired(Start(b), Drives(b, before))));
    }
  }

  lemma BootRests(b: Board)
    requires BoardBooted(b)
    ensures b.cpu.mac == Wait4Req
  {
  }

  lemma RestPhase(b: Board)
    requires b.cpu.mac != Wait4Ack
    ensures StallPhase(b) == 0 && Phase(b) == 0 && !StallFlag(b)
  {
  }

  // ---- One pulse on a running board

  lemma RetiredNext(b: Board, steps: seq<bool>, stepEn: bool)
    requires BoardBooted(b)
    ensures BoardRetired(b, steps + [stepEn]) == BoardRetired(b, steps) + Bit(BoardRetires(BoardRun(b, steps), stepEn))
    ensures BoardRun(b, steps + [stepEn]) == BoardNext(BoardRun(b, steps), stepEn)
  {
    hide Models, Booted, BoardNext, BoardRetires, BoardRetired, Run;
    var all := steps + [stepEn];
    assert all[..|all| - 1] == steps;
    RunModels(b, steps);
    RetiredAgain(b, all, steps, Run(Start(b), Drives(b, steps)));
  }

  lemma ClocksAppend(b: Board, steps: seq<bool>, stepEn: bool)
    ensures var t, n, r := ClocksOf(b, steps), ClocksOf(b, steps + [stepEn]), BoardRun(b, steps);
            n.idle == t.idle + Bit(Resting(r)) && n.stalls == t.stalls + Bit(Stalls(r))
  {
    hide ClocksOf, BoardRun;
    var all := steps + [stepEn];
    assert all[..|all| - 1] == steps;
    StallCounted(b, all, steps);
  }

  lemma SilentBoard(b: Board)
    requires !Resting(b)
    ensures BoardRetires(b, false) <==> Resting(BoardNext(b, false))
    ensures !Stalls(BoardNext(b, false))
  {
    hide RegsNext, BranchTaken, SramNext;
    SilentCtl(b.cpu.ctl, SenseOf(b.cpu, DriveOf(b, false)));
  }

  lemma PulsedBoard(b: Board)
    requires b.cpu.ctl == Init && b.cpu.mac in {Wait4Req, StNext}
    ensures !BoardRetires(b, true) && !Stalls(BoardNext(b, true)) && !Resting(BoardNext(b, true))
  {
    hide RegsNext, BranchTaken, SramNext;
  }

  /** A pulse on the step input after the history `past`, lasting while the processor is neither in Init nor in Halt. */
  predicate SingleStep(b: Board, past: seq<bool>, pulse: seq<bool>) {
    BoardRun(b, past).cpu.ctl == Init && pulse != [] && pulse[0]
    && forall k :: 0 < k < |pulse| ==> !pulse[k] && !Resting(BoardRun(b, past + pulse[..k]))
  }

  lemma RestingBus(b: Board, steps: seq<bool>)
    requires BoardBooted(b)
    ensures Resting(BoardRun(b, steps)) ==> BoardRun(b, steps).cpu.mac in {Wait4Req, StNext}
  {
    hide Models, Tracks, Next, BoardNext, Booted;
    RunModels(b, steps);
    RunTracks(Start(b), Drives(b, steps));
    ModelsCpu(BoardRun(b, steps), Run(Start(b), Drives(b, steps)));
    TracksBus(Run(Start(b), Drives(b, steps)), Isa.Steps(Visible(Start(b)), Retired(Start(b), Drives(b, steps))));
  }

  lemma {:induction false} StepBooks(b: Board, past: seq<bool>, pulse: seq<bool>)
    requires BoardBooted(b) && SingleStep(b, past, pulse)
    ensures var r, t, n := BoardRun(b, past + pulse), ClocksOf(b, past), ClocksOf(b, past + pulse);
            !Stalls(r) && n.idle == t.idle + 1 && n.stalls == t.stalls
            && BoardRetired(b, past + pulse) == BoardRetired(b, past) + Bit(Resting(r))
  {
    hide BoardNext, Booted, BoardRetired, ClocksOf, Stalls, BoardRetires, BoardRun;
    var before := pulse[..|pulse| - 1];
    var x := pulse[|pulse| - 1];
    assert past + pulse == (past + before) + [x];
    RetiredNext(b, past + before, x);
    ClocksAppend(b, past + before, x);
    if before == [] {
      assert past + before == past;
      RestingBus(b, past);
      PulsedBoard(BoardRun(b, past));
      InitNeverStalls(BoardRun(b, past));
    } else {
      assert forall k :: 0 <= k <= |before| ==> before[..k] == pulse[..k];
      StepBooks(b, past, before);
      SilentBoard(BoardRun(b, past + before));
    }
  }

  lemma InitNeverStalls(b: Board)
    requires b.cpu.ctl == Init
    ensures !Stalls(b)
  {
  }

  lemma RestElapsed(b: Board, i: Isa.Instr)
    requires Resting(b) && b.cpu.mac in {Wait4Req, StNext}
    ensures Elapsed(b, i) == 0 && StallPhase(b) == 0 && Received(b.cpu.ctl, i) == 0 && !StallFlag(b) && !Stalls(b)
  {
  }

  /** Total time in terms of the counted stalls. */
  lemma CountedTime(b: Board, steps: seq<bool>)
    requires BoardBooted(b)
    ensures var c, n := ClocksOf(b, steps), BoardRetired(b, steps);
            |steps| == c.idle + c.stalls + CycleSum(BoardVisible(b), n)
                       + Elapsed(BoardRun(b, steps), Isa.Current(Isa.Steps(BoardVisible(b), n)))
  {
    hide Booted, ClocksOf, BoardRun, Isa.Current, Isa.Steps, BoardRetired, Elapsed, CycleSum, RunOns, RetireInputs,
      Stalls;
    ExactTime(b, steps);
  }

  /** The time of a board at rest: nothing is under way. */
  lemma RestTime(b: Board, steps: seq<bool>)
    requires BoardBooted(b) && Resting(BoardRun(b, steps))
    ensures var c := ClocksOf(b, steps);
            |steps| == c.idle + c.stalls + CycleSum(BoardVisible(b), BoardRetired(b, steps))
    ensures StallCount(b, steps) == 3 * ClocksOf(b, steps).acks
  {
    hide BoardNext, Booted, ClocksOf, BoardRun, Isa.Current, Isa.Steps, BoardRetired, StallFlag, StallPhase,
      StallCount, Elapsed, CycleSum;
    RestingBus(b, steps);
    RestElapsed(BoardRun(b, steps), Isa.Current(Isa.Steps(BoardVisible(b), BoardRetired(b, steps))));
    CountedTime(b, steps);
    ThreeStallsAnAccess(b, steps);
  }

  lemma RestAcks(b: Board, steps: seq<bool>)
    requires BoardBooted(b) && Resting(BoardRun(b, steps))
    ensures ClocksOf(b, steps).acks == AccessSum(BoardVisible(b), BoardRetired(b, steps))
  {
    hide BoardNext, Booted, ClocksOf, BoardRun, Isa.Current, Isa.Steps, TallyOf, Run, Retired, Phase, Received,
      AccessSum, WorkSum, Done;
    RunModels(b, steps);
    ClocksBalance(b, steps);
    BooksBalance(Start(b), Drives(b, steps));
    RestingBus(b, steps);
    RestElapsed(BoardRun(b, steps), Isa.Current(Isa.Steps(BoardVisible(b), BoardRetired(b, steps))));
    ModelsCpu(BoardRun(b, steps), Run(Start(b), Drives(b, steps)));
  }

  lemma SumsNext(a: Isa.State, n: nat)
    requires !Isa.Steps(a, n).halted
    ensures var v := Isa.Steps(a, n);
            CycleSum(a, n + 1) == CycleSum(a, n) + Cycles(Isa.Current(v), Taken(Isa.Current(v), v.regs))
            && AccessSum(a, n + 1) == AccessSum(a, n) + Accesses(Isa.Current(v))
  {
    hide Cycles, Accesses, Taken, Isa.Current, Isa.Steps;
  }

  /** The cycles and memory accesses of the instruction at PC, as the sequential machine sees it. */
  function StepCycles(b: Board): nat {
    var v := BoardVisible(b);
    Cycles(Isa.Current(v), Taken(Isa.Current(v), v.regs))
  }

  function StepAccesses(b: Board): nat { Accesses(Isa.Current(BoardVisible(b))) }

  /** A step that has come back to rest took exactly the cycles of its instruction, and accessed memory exactly as
      often as that instruction does. */
  lemma RestedStep(b: Board, past: seq<bool>, pulse: seq<bool>)
    requires BoardBooted(b) && SingleStep(b, past, pulse) && Resting(BoardRun(b, past + pulse))
    ensures |pulse| == 1 + StepCycles(BoardRun(b, past))
    ensures ClocksOf(b, past + pulse).acks == ClocksOf(b, past).acks + StepAccesses(BoardRun(b, past))
  {
    hide BoardNext, Booted, BoardRetired, ClocksOf, Stalls, BoardRun, Cycles, Accesses, Taken, Isa.Current, Isa.Steps,
      CycleSum, AccessSum;
    StepBooks(b, past, pulse);
    RestTime(b, past);
    RestTime(b, past + pulse);
    RestAcks(b, past);
    RestAcks(b, past + pulse);
    BoardRefines(b, past);
    SumsNext(BoardVisible(b), BoardRetired(b, past));
  }

  lemma DoneInTime(c: Ctl, i: Isa.Instr, taken: bool)
    requires Kind(c, i, taken) && c !in {Init, Halt}
    ensures Done(c, i) + 4 * Received(c, i) + (if ReadRequest(c) || WriteRequest(c) then 4 else 0) < Cycles(i, taken)
  {
  }

  lemma PhaseInTime(b: Board)
    requires Strobe(b.cpu) ==> Requests(b.cpu)
    ensures Phase(b) <= if Requests(b.cpu) then 4 else 0
  {
  }

  /** Before it comes back to rest, an instruction has taken less than its cycles. */
  lemma UnderWay(b: Board, steps: seq<bool>)
    requires BoardBooted(b) && !Resting(BoardRun(b, steps))
    ensures var a := Isa.Steps(BoardVisible(b), BoardRetired(b, steps));
            Elapsed(BoardRun(b, steps), Isa.Current(a)) < Cycles(Isa.Current(a), Taken(Isa.Current(a), a.regs))
  {
    hide Models, Tracks, Next, BoardNext, Booted, Kind, Done, Received, Cycles, Taken, Isa.Current, Phase, BoardRun,
      Run, Retired, Isa.Steps;
    var s, a := Run(Start(b), Drives(b, steps)), Isa.Steps(BoardVisible(b), BoardRetired(b, steps));
    RunModels(b, steps);
    RunTracks(Start(b), Drives(b, steps));
    ModelsCpu(BoardRun(b, steps), s);
    ModelsHonest(BoardRun(b, steps), s, false, a);
    TracksKind(s, a);
    DoneInTime(s.cpu.ctl, Isa.Current(a), Taken(Isa.Current(a), a.regs));
    PhaseInTime(BoardRun(b, steps));
  }

  lemma StepTakesLess(b: Board, past: seq<bool>, pulse: seq<bool>)
    requires BoardBooted(b) && SingleStep(b, past, pulse) && !Resting(BoardRun(b, past + pulse))
    ensures |pulse| < 1 + StepCycles(BoardRun(b, past))
  {
    hide BoardNext, Booted, BoardRetired, ClocksOf, Stalls, BoardRun, Cycles, Taken, Isa.Current, Isa.Steps, CycleSum,
      Elapsed;
    StepBooks(b, past, pulse);
    RestTime(b, past);
    CountedTime(b, past + pulse);
    UnderWay(b, past + pulse);
    BoardRefines(b, past);
  }

  /** A pulse brings the board back to rest after exactly the cycles of the instruction at PC, and not before. */
  lemma StepTime(b: Board, past: seq<bool>, pulse: seq<bool>)
    requires BoardBooted(b) && SingleStep(b, past, pulse)
    ensures |pulse| <= 1 + StepCycles(BoardRun(b, past))
    ensures Resting(BoardRun(b, past + pulse)) <==> |pulse| == 1 + StepCycles(BoardRun(b, past))
    ensures Resting(BoardRun(b, past + pulse)) ==>
              ClocksOf(b, past + pulse).acks == ClocksOf(b, past).acks + StepAccesses(BoardRun(b, past))
  {
    hide BoardRun, StepCycles, StepAccesses, SingleStep, Resting, ClocksOf, BoardBooted;
    if Resting(BoardRun(b, past + pulse)) {
      RestedStep(b, past, pulse);
    } else {
      StepTakesLess(b, past, pulse);
    }
  }

  /** The step input high for one cycle and low for the next `n`. */
  function PulseOf(n: nat): (p: seq<bool>)
    ensures |p| == n + 1 && p[0] && forall k :: 0 < k <= n ==> !p[k]
  {
    seq(n + 1, k => k == 0)
  }

  lemma {:induction false} StillStepping(b: Board, past: seq<bool>, n: nat)
    requires BoardBooted(b) && BoardRun(b, past).cpu.ctl == Init && n <= StepCycles(BoardRun(b, past))
    ensures SingleStep(b, past, PulseOf(n))
  {
    hide BoardRun, StepCycles, Resting, BoardBooted;
    if n > 0 {
      StillStepping(b, past, n - 1);
      StepTime(b, past, PulseOf(n - 1));
      assert PulseOf(n)[..n] == PulseOf(n - 1);
      assert forall k :: 0 < k < n ==> PulseOf(n)[..k] == PulseOf(n - 1)[..k];
    }
  }

  /** Wherever a run rests in Init, one pulse, followed by silence, comes back to rest: the step always ends. */
  lemma StepReturns(b: Board, past: seq<bool>)
    requires BoardBooted(b) && BoardRun(b, past).cpu.ctl == Init
    ensures var pulse := PulseOf(StepCycles(BoardRun(b, past)));
            SingleStep(b, past, pulse) && Resting(BoardRun(b, past + pulse))
  {
    hide BoardRun, StepCycles, Resting, SingleStep, BoardBooted;
    StillStepping(b, past, StepCycles(BoardRun(b, past)));
    StepTime(b, past, PulseOf(StepCycles(BoardRun(b, past))));
  }

  // ---- What the analyzer records of it

  /** Probes of a step: those of the cycles from the pulse on. */
  function StepProbes(b: Board, past: seq<bool>, pulse: seq<bool>, samples: seq<Word>): (ps: seq<Probe>)
    requires |samples| == |pulse|
    ensures |ps| == |pulse|
  {
    seq(|pulse|, k requires 0 <= k < |pulse| => ProbeOf(BoardRun(b, past + pulse[..k]), pulse[k], samples[k]))
  }

  lemma {:induction false} KeptCount(b: Board, past: seq<bool>, pulse: seq<bool>, samples: seq<Word>)
    requires |samples| == |pulse|
    ensures |Kept(StepProbes(b, past, pulse, samples))| + StallCount(b, past + pulse) == |pulse| + StallCount(b, past)
  {
    hide BoardRun, StallFlag, ProbeOf;
    if pulse == [] {
      assert past + pulse == past;
    } else {
      var before, s0 := pulse[..|pulse| - 1], samples[..|samples| - 1];
      var ps := StepProbes(b, past, pulse, samples);
      ProbeMeans(BoardRun(b, past + before), pulse[|pulse| - 1], samples[|samples| - 1]);
      KeptCount(b, past, before, s0);
      assert (past + pulse)[..|past + pulse| - 1] == past + before;
      assert forall k :: 0 <= k < |before| ==> before[..k] == pulse[..k];
      assert ps[..|ps| - 1] == StepProbes(b, past, before, s0);
    }
  }

  lemma StepIsStepping(b: Board, past: seq<bool>, pulse: seq<bool>, samples: seq<Word>)
    requires SingleStep(b, past, pulse) && |samples| == |pulse|
    ensures Stepping(StepProbes(b, past, pulse, samples))
  {
    hide BoardRun, StallFlag, Resting, ProbeOf;
    forall k | 0 <= k < |pulse|
      ensures var r := BoardRun(b, past + pulse[..k]);
              var p := ProbeOf(r, pulse[k], samples[k]);
              p.stepEn == pulse[k] && p.inInit == Resting(r)
    {
      ProbeMeans(BoardRun(b, past + pulse[..k]), pulse[k], samples[k]);
    }
  }

  lemma RestStays(b: Board)
    requires Resting(b)
    ensures Resting(BoardNext(b, false))
  {
    hide RegsNext, BranchTaken, SramNext;
  }

  lemma {:induction false} KeptOneMore(ps: seq<Probe>, p: Probe)
    requires p.stopN
    ensures |Kept(ps + [p])| == |Kept(ps)| + 1
  {
    assert (ps + [p])[..|ps + [p]| - 1] == ps;
  }

  /** End to end: pulse the step input of a board resting in Init once, and when the instruction's cycles are over the
      analyzer is done and its status register tells those cycles, less three for every memory access, plus the two
      cycles at rest around them. */
  lemma StatusCountsInstruction(b: Board, past: seq<bool>, samples: seq<Word>, l: La, back: Word, rest: Word)
    requires BoardBooted(b) && BoardRun(b, past).cpu.ctl == Init && Idle(l)
    requires |samples| == StepCycles(BoardRun(b, past)) + 1
    ensures var pulse := PulseOf(StepCycles(BoardRun(b, past)));
            var r := BoardRun(b, past + pulse);
            var m := LaRun(l, StepProbes(b, past, pulse, samples)
                              + [ProbeOf(r, false, back), ProbeOf(BoardNext(r, false), false, rest)]);
            Resting(r) && Idle(m)
            && m.status == (StepCycles(BoardRun(b, past)) + 2 - 3 * StepAccesses(BoardRun(b, past))) % 32
  {
    hide BoardRun, BoardNext, StepCycles, StepAccesses, Kept, LaRun, StallFlag, StallCount, ClocksOf, BoardBooted,
      SingleStep, CycleSum, BoardRetired, ProbeOf, BoardVisible, Holds, Stepping, Elapsed, Received, StallPhase;
    var pulse := PulseOf(StepCycles(BoardRun(b, past)));
    var r := BoardRun(b, past + pulse);
    var ps := StepProbes(b, past, pulse, samples);
    var p1, p2 := ProbeOf(r, false, back), ProbeOf(BoardNext(r, false), false, rest);
    StepReturns(b, past);
    StepTime(b, past, pulse);
    KeptCount(b, past, pulse, samples);
    RestTime(b, past);
    RestTime(b, past + pulse);
    RestingBus(b, past + pulse);
    RestElapsed(r, Isa.Nop);
    RestStays(r);
    StepIsStepping(b, past, pulse, samples);
    ProbeMeans(r, false, back);
    ProbeMeans(BoardNext(r, false), false, rest);
    KeptOneMore(ps, p1);
    StepCaptured(l, ps, p1, p2);
  }
}
