/** Consequences of the refinement for whole runs, whatever the memory timing and the step input. */
module Runs {
  import opened Control
  import opened Core
  import opened Refinement
  import Isa

  function Last(ds: seq<Drive>): Drive
    requires ds != []
  {
    ds[|ds| - 1]
  }

  function Before(s: System, ds: seq<Drive>): System
    requires ds != []
  {
    Run(s, ds[..|ds| - 1])
  }

  // ---- The retired trace does not depend on timing

  /** The programmer-visible state after each retirement, in order. */
  function RetireTrace(s: System, ds: seq<Drive>): seq<Isa.State> {
    if ds == [] then []
    else RetireTrace(s, ds[..|ds| - 1]) + (if Retires(Before(s, ds), Last(ds)) then [Visible(Run(s, ds))] else [])
  }

  lemma {:induction false} TraceRefines(s: System, ds: seq<Drive>)
    requires Booted(s) && HonestRun(s, ds)
    ensures RetireTrace(s, ds) == Isa.Trace(Visible(s), Retired(s, ds))
  {
    hide Booted, Visible, Next, Isa.Step, Honest;
    if ds != [] {
      TraceRefines(s, ds[..|ds| - 1]);
      if Retires(Before(s, ds), Last(ds)) {
        assert Run(s, ds).cpu.ctl in {Init, Fetch, Halt} by {
          RetireLands(Before(s, ds), Last(ds));
        }
        IsaRefinement(s, ds);
      }
    }
  }

  lemma RetireLands(s: System, d: Drive)
    requires Retires(s, d)
    ensures Next(s, d).cpu.ctl in {Init, Fetch, Halt}
  {
  }

  lemma {:induction false} TraceExtends(a: Isa.State, m: nat, n: nat)
    requires m <= n
    ensures Isa.Trace(a, m) <= Isa.Trace(a, n)
  {
    hide Isa.Step;
    if m < n {
      TraceExtends(a, m, n - 1);
    }
  }

  /** Two runs of one program, on any two memories, with any two step inputs: one trace is a prefix of the other. */
  lemma LatencyInsensitive(s1: System, ds1: seq<Drive>, s2: System, ds2: seq<Drive>)
    requires Booted(s1) && HonestRun(s1, ds1) && Booted(s2) && HonestRun(s2, ds2)
    requires Visible(s1) == Visible(s2) && Retired(s1, ds1) <= Retired(s2, ds2)
    ensures RetireTrace(s1, ds1) <= RetireTrace(s2, ds2)
  {
    hide Booted, Visible;
    TraceRefines(s1, ds1);
    TraceRefines(s2, ds2);
    TraceExtends(Visible(s1), Retired(s1, ds1), Retired(s2, ds2));
  }

  // ---- Stepping

  lemma {:induction false} HaltAbsorbs(s: System, ds: seq<Drive>)
    requires s.cpu.ctl == Halt && Coherent(s.cpu.r.gpr)
    ensures Run(s, ds).cpu.ctl == Halt && Run(s, ds).cpu.r == s.cpu.r && Run(s, ds).mem == s.mem
    ensures Retired(s, ds) == 0
  {
    if ds != [] {
      HaltAbsorbs(s, ds[..|ds| - 1]);
      HaltEdge(Before(s, ds), Last(ds));
    }
  }

  lemma HaltEdge(s: System, d: Drive)
    requires s.cpu.ctl == Halt && Coherent(s.cpu.r.gpr)
    ensures Next(s, d).cpu.ctl == Halt && Next(s, d).cpu.r == s.cpu.r && Next(s, d).mem == s.mem && !Retires(s, d)
  {
    NextIsEdge(s, d);
  }

  /** A single pulse of the step input, then silence. */
  predicate Pulse(ds: seq<Drive>) {
    ds != [] && ds[0].stepEn && forall i :: 0 < i < |ds| ==> !ds[i].stepEn
  }

  /** From Init a pulse retires exactly one instruction, completed exactly when Init or Halt is reached again. */
  lemma {:induction false} PulseRetiresOne(s: System, ds: seq<Drive>)
    requires s.cpu.ctl == Init && Pulse(ds)
    ensures Retired(s, ds) == if Run(s, ds).cpu.ctl in {Init, Halt} then 1 else 0
  {
    if |ds| == 1 {
      assert ds[..0] == [];
      assert Run(s, []) == s && Retired(s, []) == 0;
      PulseEdge(s, ds[0]);
    } else {
      PulseRetiresOne(s, ds[..|ds| - 1]);
      SilentEdge(Before(s, ds), Last(ds));
    }
  }

  lemma PulseEdge(s: System, d: Drive)
    requires s.cpu.ctl == Init && d.stepEn
    ensures Next(s, d).cpu.ctl == Fetch && !Retires(s, d)
  {
  }

  lemma SilentCtl(c: Ctl, i: Sense)
    requires !i.stepEn
    ensures c in {Init, Halt} ==> NextCtl(c, i) == c
    ensures c !in {Init, Halt} ==> (Ends(c, NextCtl(c, i)) <==> NextCtl(c, i) in {Init, Halt})
  {
  }

  lemma SilentEdge(s: System, d: Drive)
    requires !d.stepEn
    ensures s.cpu.ctl in {Init, Halt} ==> Next(s, d).cpu.ctl == s.cpu.ctl && !Retires(s, d)
    ensures s.cpu.ctl !in {Init, Halt} ==> (Retires(s, d) <==> Next(s, d).cpu.ctl in {Init, Halt})
  {
    hide RegsNext, NextCtl, BranchTaken, Ends;
    SilentCtl(s.cpu.ctl, SenseOf(s.cpu, d));
    assert s.cpu.ctl in {Init, Halt} ==> !Ends(s.cpu.ctl, s.cpu.ctl) by { IdleNeverEnds(s.cpu.ctl); }
  }

  lemma IdleNeverEnds(c: Ctl)
    ensures c in {Init, Halt} ==> !Ends(c, c)
  {
  }
}
