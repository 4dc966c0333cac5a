/** The logic analyzer: records one sample a cycle while the processor steps, leaving out stalled cycles. */
module Analyzer {
  import opened Words

  const DEPTH: nat := 32

  type TraceRam = s: seq<Word> | |s| == 32 witness seq(32, (i: nat) => 0)
  type Count5 = n: nat | n < 32

  datatype Probe = Probe(stepEn: bool, inInit: bool, stopN: bool, sample: Word)

  /** Trace memory, sample counter, status register and the two flip-flops. */
  datatype La = La(ram: TraceRam, cnt: Count5, status: nat, ran: bool, stsCe: bool)

  predicate Running(l: La, p: Probe) { l.ran || p.stepEn }

  predicate Writes(l: La, p: Probe) { p.stopN && Running(l, p) }

  function LaNext(l: La, p: Probe): La {
    La(
      ram := if Writes(l, p) then l.ram[l.cnt := p.sample] else l.ram,
      cnt := if l.stsCe then 0 else if Writes(l, p) then (l.cnt + 1) % 32 else l.cnt,
      status := if l.stsCe then l.cnt else l.status,
      ran := !p.inInit || p.stepEn,
      stsCe := !l.stsCe && !p.stepEn && Running(l, p) && p.inInit)
  }

  function LaRun(l: La, ps: seq<Probe>): La {
    if ps == [] then l else LaNext(LaRun(l, ps[..|ps| - 1]), ps[|ps| - 1])
  }

  predicate Idle(l: La) { l.cnt == 0 && !l.ran && !l.stsCe }

  /** The samples of the cycles that are not stalled, in order. */
  function Kept(ps: seq<Probe>): seq<Word> {
    if ps == [] then []
    else if ps[|ps| - 1].stopN then Kept(ps[..|ps| - 1]) + [ps[|ps| - 1].sample]
    else Kept(ps[..|ps| - 1])
  }

  /** `ram` holds the last 32 samples of `kept`, each at its index modulo 32, over the old contents. */
  ghost predicate Holds(ram: TraceRam, kept: seq<Word>, initial: TraceRam) {
    && (forall j :: 0 <= j < |kept| && |kept| - DEPTH <= j ==> ram[j % 32] == kept[j])
    && (forall j :: |kept| <= j < DEPTH ==> ram[j] == initial[j])
  }

  lemma HoldsMore(ram: TraceRam, kept: seq<Word>, initial: TraceRam, w: Word)
    requires Holds(ram, kept, initial)
    ensures Holds(ram[|kept| % 32 := w], kept + [w], initial)
  {
    var more := kept + [w];
    forall j | 0 <= j < |more| && |more| - DEPTH <= j
      ensures ram[|kept| % 32 := w][j % 32] == more[j]
    {
      if j < |kept| {
        SlotsApart(j, |kept|);
      }
    }
  }

  lemma SlotsApart(j: nat, n: nat)
    requires j < n < j + DEPTH
    ensures j % 32 != n % 32
  {
  }

  /** A pulse, then any number of cycles outside Init. */
  predicate Stepping(ps: seq<Probe>) {
    ps != [] && ps[0].stepEn && forall i :: 0 < i < |ps| ==> !ps[i].stepEn && !ps[i].inInit
  }

  lemma {:induction false} CapturesWhileStepping(l: La, ps: seq<Probe>)
    requires Idle(l) && Stepping(ps)
    ensures var m := LaRun(l, ps);
            Holds(m.ram, Kept(ps), l.ram) && m.cnt == |Kept(ps)| % 32 && m.ran && !m.stsCe && m.status == l.status
  {
    hide Holds;
    var p := ps[|ps| - 1];
    var before := ps[..|ps| - 1];
    if |ps| == 1 {
      assert before == [];
      assert Kept([]) == [] && LaRun(l, []) == l;
      assert Holds(l.ram, [], l.ram) by { HoldsNothing(l.ram); }
    } else {
      CapturesWhileStepping(l, before);
    }
    if p.stopN {
      HoldsMore(LaRun(l, before).ram, Kept(before), l.ram, p.sample);
      NextSlot(|Kept(before)|);
    }
  }

  lemma HoldsNothing(ram: TraceRam)
    ensures Holds(ram, [], ram)
  {
  }

  lemma NextSlot(n: nat)
    ensures (n % 32 + 1) % 32 == (n + 1) % 32
  {
  }

  /** One step of the processor leaves its unstalled samples in the trace memory, their number in the status
      register, and the analyzer ready for the next step. */
  lemma StepCaptured(l: La, ps: seq<Probe>, back: Probe, rest: Probe)
    requires Idle(l) && Stepping(ps)
    requires !back.stepEn && back.inInit && !rest.stepEn && rest.inInit
    ensures var m := LaRun(l, ps + [back, rest]);
            var kept := Kept(ps + [back]);
            Holds(m.ram, kept, l.ram) && m.status == |kept| % 32 && Idle(m)
  {
    hide Holds;
    var s := ps + [back];
    var t := ps + [back, rest];
    assert s[..|s| - 1] == ps && t[..|t| - 1] == s;
    CapturesWhileStepping(l, ps);
    if back.stopN {
      HoldsMore(LaRun(l, ps).ram, Kept(ps), l.ram, back.sample);
      NextSlot(|Kept(ps)|);
    }
  }

  /** What the read port then gives back: each of the last 32 unstalled samples at its index modulo 32, the rest of the
      memory as it was, and their number modulo 32 in the status register. */
  lemma StepReadBack(l: La, ps: seq<Probe>, back: Probe, rest: Probe, ai: Count5)
    requires Idle(l) && Stepping(ps)
    requires !back.stepEn && back.inInit && !rest.stepEn && rest.inInit
    ensures var m := LaRun(l, ps + [back, rest]);
            var kept := Kept(ps + [back]);
            var newest := |kept| - 1 - (|kept| - 1 - ai) % 32;
            m.ram[ai] == (if newest >= 0 then kept[newest] else l.ram[ai]) && m.status == |kept| % 32
  {
    StepCaptured(l, ps, back, rest);
    NewestSlot(|Kept(ps + [back])|, ai);
  }

  /** The newest sample index below `n` that is `ai` modulo 32. */
  lemma NewestSlot(n: nat, ai: Count5)
    ensures var newest := n - 1 - (n - 1 - ai) % 32;
            n - DEPTH <= newest < n && (newest >= 0 ==> newest % 32 == ai) && (newest < 0 <==> n <= ai)
  {
  }

  /** Between steps nothing changes, for as long as it takes. */
  lemma {:induction false} IdleStays(l: La, ps: seq<Probe>)
    requires Idle(l) && forall i :: 0 <= i < |ps| ==> !ps[i].stepEn && ps[i].inInit
    ensures LaRun(l, ps) == l
  {
    if ps != [] {
      IdleStays(l, ps[..|ps| - 1]);
    }
  }

  /** The analyzer as clocked hardware. */
  class LogicAnalyzer {
    const ram: array<Word>
    var cnt: Count5
    var status: nat
    var ran: bool
    var stsCe: bool

    predicate Valid() { ram.Length == 32 }

    function View(): La
      requires Valid()
      reads this, ram
    {
      La(ram[..], cnt, status, ran, stsCe)
    }

    constructor ()
      ensures Valid() && fresh(ram) && Idle(View())
      ensures View() == La(seq(32, (i: nat) => 0), 0, 0, false, false)
    {
      ram := new Word[32](_ => 0);
      cnt, status, ran, stsCe := 0, 0, false, false;
    }

    method ClockEdge(p: Probe)
      requires Valid()
      modifies this, ram
      ensures View() == LaNext(old(View()), p)
    {
      var running := ran || p.stepEn;
      var write := p.stopN && running;
      if write {
        ram[cnt] := p.sample;
      }
      if stsCe {
        status, cnt := cnt, 0;
      } else if write {
        cnt := (cnt + 1) % 32;
      }
      stsCe := !stsCe && !p.stepEn && running && p.inInit;
      ran := !p.inInit || p.stepEn;
    }

    /** Read port. When the analyzer is not recording, address `ai` shows the recorded sample whose index is `ai` modulo
        32, or what was there before; while it records, the port shows the word about to be overwritten: the oldest
        sample still held. The ghosts name the samples recorded so far and the contents they were recorded over. */
    method Read(ai: Count5, stepEn: bool, ghost kept: seq<Word>, ghost initial: TraceRam) returns (w: Word)
      requires Valid()
      ensures Holds(View().ram, kept, initial) && !ran && !stepEn ==>
                (forall j :: 0 <= j < |kept| && |kept| - DEPTH <= j && j % 32 == ai ==> w == kept[j])
                && (|kept| <= ai ==> w == initial[ai])
      ensures Holds(View().ram, kept, initial) && cnt == |kept| % 32 && (ran || stepEn) ==>
                w == if |kept| < DEPTH then initial[cnt] else kept[|kept| - DEPTH]
    {
      w := ram[if ran || stepEn then cnt else ai];
      OldestSlot(|kept|);
    }
  }

  lemma OldestSlot(n: nat)
    ensures n >= DEPTH ==> (n - DEPTH) % 32 == n % 32
    ensures n < DEPTH ==> n % 32 == n
  {
  }
}
