/** The second controller: other state codes, one gated enable, and the same processor. */
module Lockstep {
  import opened Control
  import opened Core
  import Isa

  type State5 = n: nat | n < 32

  const INIT: State5 := 0x00
  const FETCH: State5 := 0x01
  const DECODE: State5 := 0x02
  const ALU: State5 := 0x03
  const SHIFT: State5 := 0x04
  const WBR: State5 := 0x05
  const ALUI: State5 := 0x06
  const TESTI: State5 := 0x07
  const WBI: State5 := 0x08
  const ADDRESSCMP: State5 := 0x09
  const LOAD: State5 := 0x0A
  const COPYGPR2MDR: State5 := 0x0B
  const COPYMDR2C: State5 := 0x0C
  const STORE: State5 := 0x0D
  const JR: State5 := 0x0E
  const SAVEPC: State5 := 0x0F
  const JALR: State5 := 0x10
  const BRANCH: State5 := 0x11
  const BTAKEN: State5 := 0x12
  const HALT: State5 := 0x13

  function Again(stepEn: bool): State5 { if stepEn then FETCH else INIT }

  function DecodeTarget(i: Sense): State5 {
    if i.opcode / 8 == 6 then Again(i.stepEn)
    else if i.opcode / 4 == 0 then if i.ir5 then ALU else SHIFT
    else if i.opcode / 8 == 1 then ALUI
    else if i.opcode / 8 == 3 then TESTI
    else if i.opcode / 16 == 2 then ADDRESSCMP
    else if i.opcode / 8 == 2 then if i.opcode % 2 == 0 then JR else SAVEPC
    else if i.opcode / 4 == 1 then BRANCH
    else HALT
  }

  function NextCode(s: State5, i: Sense): State5 {
    if s in {INIT, WBR, WBI, JR, JALR, BTAKEN} then Again(i.stepEn)
    else if s == FETCH then if i.busy then FETCH else DECODE
    else if s == DECODE then DecodeTarget(i)
    else if s in {ALU, SHIFT} then WBR
    else if s in {ALUI, TESTI, COPYMDR2C} then WBI
    else if s == ADDRESSCMP then if i.opcode / 8 % 2 == 1 then COPYGPR2MDR else LOAD
    else if s == LOAD then if i.busy then LOAD else COPYMDR2C
    else if s == COPYGPR2MDR then STORE
    else if s == STORE then if i.busy then STORE else Again(i.stepEn)
    else if s == SAVEPC then JALR
    else if s == BRANCH then if i.bt then BTAKEN else Again(i.stepEn)
    else s
  }

  predicate Reads(s: State5) { s in {FETCH, LOAD} }

  predicate Writes(s: State5) { s == STORE }

  function SecondLines(s: State5, busy: bool): Lines {
    Lines(
      inInit := s in {INIT, HALT},
      mr := Reads(s),
      mw := Writes(s),
      ace := s == DECODE,
      bce := s == DECODE,
      cce := s in {ALU, TESTI, ALUI, SHIFT, COPYMDR2C, SAVEPC},
      gprWe := s in {WBI, WBR, JALR},
      pcCe := s in {DECODE, BTAKEN, JR, JALR},
      irCe := s == FETCH && !busy,
      marCe := s == ADDRESSCMP,
      mdrCe := (s == LOAD && !busy) || s == COPYGPR2MDR,
      dintSel := s in {SHIFT, COPYMDR2C, COPYGPR2MDR},
      mdrSel := s == LOAD,
      aSel := s in {LOAD, STORE},
      add := s in {DECODE, ALUI, ADDRESSCMP, BTAKEN, JR, SAVEPC, JALR},
      test := s == TESTI,
      shift := s == SHIFT,
      iType := s in {TESTI, ALUI, WBI},
      jLink := s == JALR,
      s1Sel := Select(s in {COPYMDR2C, COPYGPR2MDR}, s in {ALU, TESTI, ALUI, SHIFT, ADDRESSCMP, COPYMDR2C, JR, JALR}),
      s2Sel := Select(s in {DECODE, COPYMDR2C, COPYGPR2MDR, JR, SAVEPC, JALR},
                      s in {DECODE, TESTI, ALUI, ADDRESSCMP, BTAKEN}))
  }

  // ---- The processor around the second controller

  datatype Cpu2 = Cpu2(code: State5, mac: Mac, r: Regs)

  function Next2(c: Cpu2, d: Drive): Cpu2 {
    var request := Reads(c.code) || Writes(c.code);
    var k := SecondLines(c.code, Busy(request, d.ack));
    var i := Sense(d.stepEn, Busy(request, d.ack), c.r.ir / 32 % 2 == 1, BranchTaken(c.r, k), Isa.Opcode(c.r.ir));
    Cpu2(NextCode(c.code, i), NextMac(c.mac, request, d.ack), RegsNext(c.r, k, d.di))
  }

  function Run1(c: Cpu, ds: seq<Drive>): Cpu {
    if ds == [] then c else CpuNext(Run1(c, ds[..|ds| - 1]), ds[|ds| - 1])
  }

  function Run2(c: Cpu2, ds: seq<Drive>): Cpu2 {
    if ds == [] then c else Next2(Run2(c, ds[..|ds| - 1]), ds[|ds| - 1])
  }

  /** The code the second controller gives to a state of the first; the spare codes have no common name. */
  function Recode(c: Ctl): State5 {
    match c
    case Init => INIT
    case Fetch => FETCH
    case Decode => DECODE
    case Alu => ALU
    case TestI => TESTI
    case AluI => ALUI
    case ShiftSt => SHIFT
    case AddressCmp => ADDRESSCMP
    case Load => LOAD
    case Store => STORE
    case CopyMdr2C => COPYMDR2C
    case CopyGpr2Mdr => COPYGPR2MDR
    case Wbr => WBR
    case Wbi => WBI
    case Branch => BRANCH
    case BTaken => BTAKEN
    case Jr => JR
    case SavePc => SAVEPC
    case Jalr => JALR
    case Halt => HALT
    case Spare => 0x14
  }

  /** The code of a state in the first controller; the spare codes are those from 0x14 on. */
  function FirstCode(c: Ctl): nat {
    match c
    case Init => 0x00
    case Fetch => 0x01
    case Decode => 0x02
    case Alu => 0x03
    case TestI => 0x04
    case AluI => 0x05
    case ShiftSt => 0x06
    case AddressCmp => 0x07
    case Load => 0x08
    case Store => 0x09
    case CopyMdr2C => 0x0A
    case CopyGpr2Mdr => 0x0B
    case Wbr => 0x0C
    case Wbi => 0x0D
    case Branch => 0x0E
    case BTaken => 0x0F
    case Jr => 0x10
    case SavePc => 0x11
    case Jalr => 0x12
    case Halt => 0x13
    case Spare => 0x14
  }

  /** The permutation of the twenty codes, number by number. */
  lemma CodesPermuted(c: Ctl)
    ensures FirstCode(c) <= 0x14
    ensures Recode(c) == [0x00, 0x01, 0x02, 0x03, 0x07, 0x06, 0x04, 0x09, 0x0A, 0x0D, 0x0C, 0x0B, 0x05, 0x08, 0x11,
                          0x12, 0x0E, 0x0F, 0x10, 0x13, 0x14][FirstCode(c)]
  {
  }

  lemma RecodeInjective(c: Ctl, e: Ctl)
    requires Recode(c) == Recode(e)
    ensures c == e
  {
  }

  lemma CodesAgree(c: Ctl, i: Sense)
    requires c != Spare
    ensures NextCode(Recode(c), i) == Recode(NextCtl(c, i)) && NextCtl(c, i) != Spare
  {
  }

  lemma LinesAgree(c: Ctl, busy: bool)
    requires c != Spare
    ensures SecondLines(Recode(c), busy) == ControlLines(c, busy).(irCe := c == Fetch && !busy)
    ensures c != Fetch ==> SecondLines(Recode(c), busy) == ControlLines(c, busy)
  {
  }

  /** Same controller state, bus master and registers; only the instruction register may differ, and only in Fetch. */
  predicate Same(c: Cpu, e: Cpu2) {
    c.ctl != Spare && e.code == Recode(c.ctl) && e.mac == c.mac && e.r == c.r.(ir := e.r.ir)
    && (c.ctl != Fetch ==> e.r.ir == c.r.ir)
  }

  lemma FetchLatch(r: Regs, busy: bool, d: Drive)
    ensures RegsNext(r, ControlLines(Fetch, busy), d.di) == r.(ir := d.di)
    ensures RegsNext(r, SecondLines(FETCH, busy), d.di) == if busy then r else r.(ir := d.di)
  {
    hide InternalBus, Isa.RsField, Isa.RtField, Isa.RdField;
  }

  lemma SameNext(c: Cpu, e: Cpu2, d: Drive)
    requires Same(c, e)
    ensures Same(CpuNext(c, d), Next2(e, d))
  {
    hide RegsNext, NextCtl, NextCode, ControlLines, SecondLines, BranchTaken, NextMac;
    var busy := Busy(Requests(c), d.ack);
    CodesAgree(c.ctl, SenseOf(c, d));
    LinesAgree(c.ctl, busy);
    RequestsAgree(c.ctl);
    if c.ctl == Fetch {
      FetchLatch(c.r, busy, d);
      FetchLatch(e.r, busy, d);
      FetchTarget(SenseOf(c, d));
      var k := SecondLines(e.code, busy);
      CodesAgree(Fetch, Sense(d.stepEn, busy, e.r.ir / 32 % 2 == 1, BranchTaken(e.r, k), Isa.Opcode(e.r.ir)));
      FetchTarget(Sense(d.stepEn, busy, e.r.ir / 32 % 2 == 1, BranchTaken(e.r, k), Isa.Opcode(e.r.ir)));
    }
  }

  lemma FetchTarget(i: Sense)
    ensures NextCtl(Fetch, i) == if i.busy then Fetch else Decode
  {
  }

  lemma RequestsAgree(c: Ctl)
    ensures Reads(Recode(c)) == ReadRequest(c) && Writes(Recode(c)) == WriteRequest(c)
  {
  }

  /** From a common reset, on every input sequence, the two processors run in lockstep. */
  lemma {:induction false} RunsInLockstep(c: Cpu, e: Cpu2, ds: seq<Drive>)
    requires Same(c, e)
    ensures Same(Run1(c, ds), Run2(e, ds))
  {
    hide CpuNext, Next2, Same;
    if ds != [] {
      RunsInLockstep(c, e, ds[..|ds| - 1]);
      SameNext(Run1(c, ds[..|ds| - 1]), Run2(e, ds[..|ds| - 1]), ds[|ds| - 1]);
    }
  }
}
