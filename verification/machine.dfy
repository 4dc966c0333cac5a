/** The clocked hardware itself: registers and memories updated in place, one edge a call. */
module Machine {
  import opened Words
  import opened Control
  import opened Core
  import opened Board
  import Isa

  /** The three copies of the register file, each written in place through its own address multiplexer. */
  class RegisterFile {
    const ramA: array<Word>
    const ramB: array<Word>
    const ramD: array<Word>

    predicate Valid() {
      ramA.Length == ramB.Length == ramD.Length == 32 && ramA != ramB && ramA != ramD && ramB != ramD
    }

    function View(): Files
      requires Valid()
      reads ramA, ramB, ramD
    {
      Files(ramA[..], ramB[..], ramD[..])
    }

    /** Power-up: every cell is zero. */
    constructor ()
      ensures Valid() && fresh(ramA) && fresh(ramB) && fresh(ramD)
      ensures var zeros := seq(32, (i: nat) => 0); View() == Files(zeros, zeros, zeros)
    {
      ramA := new Word[32](_ => 0);
      ramB := new Word[32](_ => 0);
      ramD := new Word[32](_ => 0);
    }

    method ClockEdge(gprWe: bool, aAdr: Isa.RegNo, bAdr: Isa.RegNo, dAdr: Isa.RegNo, cAdr: Isa.RegNo, c: Word)
      requires Valid()
      modifies ramA, ramB, ramD
      ensures View() == FilesNext(old(View()), gprWe, aAdr, bAdr, dAdr, cAdr, c)
    {
      if gprWe && cAdr != 0 {
        ramA[if gprWe then cAdr else aAdr] := c;
        ramB[if gprWe then cAdr else bAdr] := c;
        ramD[if gprWe then cAdr else dAdr] := c;
      }
    }
  }

  /** Processor registers: controller and bus-master state, the data path and its register file. */
  class Dlx {
    var ctl: Ctl
    var mac: Mac
    var pc: Word
    var ir: Word
    var a: Word
    var b: Word
    var c: Word
    var mar: Word
    var mdr: Word
    const gpr: RegisterFile

    predicate Valid() { gpr.Valid() }

    function Registers(): Regs
      requires Valid()
      reads this, gpr.ramA, gpr.ramB, gpr.ramD
    {
      Regs(pc, ir, a, b, c, mar, mdr, gpr.View())
    }

    function View(): Cpu
      requires Valid()
      reads this, gpr.ramA, gpr.ramB, gpr.ramD
    {
      Cpu(ctl, mac, Registers())
    }

    constructor ()
      ensures Valid() && fresh(gpr.ramA) && fresh(gpr.ramB) && fresh(gpr.ramD)
      ensures var zeros := seq(32, (i: nat) => 0);
              View() == Cpu(Init, Wait4Req, Regs(0, 0, 0, 0, 0, 0, 0, Files(zeros, zeros, zeros)))
    {
      ctl, mac := Init, Wait4Req;
      pc, ir, a, b, c, mar, mdr := 0, 0, 0, 0, 0, 0, 0;
      gpr := new RegisterFile();
    }

    /** The two state machines are reset at once, PC on the next edge. */
    method Reset()
      requires Valid()
      modifies this
      ensures View() == CpuReset(old(View()))
    {
      ctl, mac, pc := Init, Wait4Req, 0;
    }

    /** The operand registers and the register file take their new values. */
    method LatchOperands(k: Lines, dint: Word)
      requires Valid()
      modifies this`a, this`b, this`c, gpr.ramA, gpr.ramB, gpr.ramD
      ensures var r := old(Registers());
              Registers() == r.(a := if k.ace then PortA(r, k) else r.a, b := if k.bce then PortB(r, k) else r.b,
                                c := if k.cce then dint else r.c,
                                gpr := FilesNext(r.gpr, k.gprWe, Isa.RsField(r.ir), Isa.RtField(r.ir), 0,
                                                 TargetReg(r, k), r.c))
    {
      hide PortA, PortB, TargetReg, FilesNext, Isa.RsField, Isa.RtField;
      var r := Registers();
      gpr.ClockEdge(k.gprWe, Isa.RsField(ir), Isa.RtField(ir), 0, TargetReg(r, k), c);
      if k.ace { a := PortA(r, k); }
      if k.bce { b := PortB(r, k); }
      if k.cce { c := dint; }
    }

    /** The registers on the memory side, and PC. */
    method LatchBus(k: Lines, di: Word, dint: Word)
      requires Valid()
      modifies this`pc, this`ir, this`mar, this`mdr
      ensures var r := old(Registers());
              Registers() == r.(pc := if k.pcCe then dint else r.pc, ir := if k.irCe then di else r.ir,
                                mar := if k.marCe then dint else r.mar,
                                mdr := if k.mdrCe then if k.mdrSel then di else dint else r.mdr)
    {
      if k.pcCe { pc := dint; }
      if k.irCe { ir := di; }
      if k.marCe { mar := dint; }
      if k.mdrCe { mdr := if k.mdrSel then di else dint; }
    }

    method ClockEdge(d: Drive)
      requires Valid()
      modifies this, gpr.ramA, gpr.ramB, gpr.ramD
      ensures View() == CpuNext(old(View()), d)
    {
      hide InternalBus, NextCtl, SenseOf, ControlLines, PortA, PortB, FilesNext, TargetReg, Isa.RsField, Isa.RtField;
      var now := View();
      var k := LinesOf(now, d.ack);
      var dint := InternalBus(now.r, k);
      LatchOperands(k, dint);
      LatchBus(k, d.di, dint);
      ctl := NextCtl(now.ctl, SenseOf(now, d));
      mac := NextMac(now.mac, Requests(now), d.ack);
    }
  }

  /** The words a reset loads: the given program, then zeros. */
  function Image(program: seq<Word>): (image: Isa.Memory)
    requires |program| <= 1024
    ensures forall k :: 0 <= k < 1024 ==> image[k] == if k < |program| then program[k] else 0
  {
    program + seq(1024 - |program|, (i: nat) => 0)
  }

  /** Memory chip: the array is scanned for the addressed word on every accepted edge. */
  class SramChip {
    const mainMem: array<Word>
    var busy: bool
    var busyD: bool
    var intDone: bool
    var doS: Word

    predicate Valid()
      reads this
    {
      mainMem.Length == 1024
    }

    function View(): Sram
      requires Valid()
      reads this, mainMem
    {
      Sram(mainMem[..], busy, busyD, intDone, doS)
    }

    constructor ()
      ensures Valid() && fresh(mainMem) && Ready(View()) && View().doS == 0
    {
      mainMem := new Word[1024](_ => 0);
      busy, busyD, intDone, doS := false, false, false, 0;
    }

    method Reset(program: seq<Word>)
      requires Valid() && |program| <= 1024
      modifies this, mainMem
      ensures Valid() && View() == SramReset(old(View()), Image(program))
    {
      for j := 0 to 1024
        invariant doS == old(doS)
        invariant forall k :: 0 <= k < j ==> mainMem[k] == Image(program)[k]
      {
        mainMem[j] := if j < |program| then program[j] else 0;
      }
      busy, busyD, intDone := false, false, false;
    }

    method ClockEdge(strobe: bool, we: bool, di: Word, add: nat)
      requires Valid()
      modifies this, mainMem
      ensures Valid() && View() == SramNext(old(View()), strobe, we, di, add)
      ensures we || !strobe ==> doS == old(doS)
      ensures !we || !strobe ==> mainMem[..] == old(mainMem[..])
    {
      var access := strobe && busyD;
      if access {
        for j := 0 to 1024
          invariant busy == old(busy) && busyD == old(busyD) && intDone == old(intDone)
          invariant forall k :: 0 <= k < 1024 && !(we && k == add % 1024 && k < j) ==> mainMem[k] == old(mainMem[k])
          invariant we && add % 1024 < j ==> mainMem[add % 1024] == di
          invariant doS == if !we && add % 1024 < j then old(mainMem[add % 1024]) else old(doS)
        {
          if j == add % 1024 {
            if we {
              mainMem[j] := di;
            } else {
              doS := mainMem[j];
            }
          }
        }
      }
      var wasBusy := busy;
      busy := strobe;
      busyD := strobe && wasBusy;
      if access {
        intDone := !intDone;
      } else if !strobe {
        intDone := false;
      }
    }
  }

  /** The closed loop: processor and memory on one clock. */
  class Computer {
    const dlx: Dlx
    const chip: SramChip

    predicate Valid()
      reads this, chip
    {
      dlx.Valid() && chip.Valid() && chip.mainMem !in {dlx.gpr.ramA, dlx.gpr.ramB, dlx.gpr.ramD}
    }

    function View(): Board
      requires Valid()
      reads this, dlx, dlx.gpr.ramA, dlx.gpr.ramB, dlx.gpr.ramD, chip, chip.mainMem
    {
      Board(dlx.View(), chip.View())
    }

    constructor (program: seq<Word>)
      requires |program| <= 1024
      ensures Valid() && BoardBooted(View())
      ensures fresh({dlx, chip}) && fresh({dlx.gpr.ramA, dlx.gpr.ramB, dlx.gpr.ramD, chip.mainMem})
      ensures BoardVisible(View()) == Isa.State(0, seq(32, (i: nat) => 0), Image(program), false)
    {
      dlx := new Dlx();
      chip := new SramChip();
      new;
      chip.Reset(program);
    }

    method Reset(program: seq<Word>)
      requires Valid() && |program| <= 1024
      modifies dlx, chip, chip.mainMem
      ensures Valid() && View() == BoardReset(old(View()), Image(program))
    {
      dlx.Reset();
      chip.Reset(program);
    }

    method ClockEdge(stepEn: bool)
      requires Valid()
      modifies dlx, dlx.gpr.ramA, dlx.gpr.ramB, dlx.gpr.ramD, chip, chip.mainMem
      ensures Valid() && View() == BoardNext(old(View()), stepEn)
    {
      hide CpuNext, SramNext, Address;
      var now := View();
      var d := DriveOf(now, stepEn);
      dlx.ClockEdge(d);
      chip.ClockEdge(Strobe(now.cpu), WriteRequest(now.cpu.ctl), now.cpu.r.mdr, Address(now.cpu) % 0x20_0000);
    }
  }
}
