/** The controller of the processor: its states, the next-state rule and the control lines of every state. */
module Control {
  /** The twenty states; `Spare` stands for the twelve codes no transition names. */
  datatype Ctl =
    | Init | Fetch | Decode | Alu | TestI | AluI | ShiftSt | AddressCmp | Load | Store
    | CopyMdr2C | CopyGpr2Mdr | Wbr | Wbi | Branch | BTaken | Jr | SavePc | Jalr | Halt | Spare

  /** What the next-state rule looks at besides the state. */
  datatype Sense = Sense(stepEn: bool, busy: bool, ir5: bool, bt: bool, opcode: nat)

  function Resume(stepEn: bool): Ctl { if stepEn then Fetch else Init }

  function NextCtl(s: Ctl, i: Sense): Ctl {
    match s
    case Init => Resume(i.stepEn)
    case Fetch => if i.busy then Fetch else Decode
    case Decode =>
      if i.opcode / 8 == 6 then Resume(i.stepEn)
      else if i.opcode / 4 == 0 then if i.ir5 then Alu else ShiftSt
      else if i.opcode / 8 == 1 then AluI
      else if i.opcode / 8 == 3 then TestI
      else if i.opcode / 16 == 2 then AddressCmp
      else if i.opcode / 8 == 2 then if i.opcode % 2 == 0 then Jr else SavePc
      else if i.opcode / 4 == 1 then Branch
      else Halt
    case Alu => Wbr
    case ShiftSt => Wbr
    case Wbr => Resume(i.stepEn)
    case AluI => Wbi
    case TestI => Wbi
    case Wbi => Resume(i.stepEn)
    case AddressCmp => if i.opcode / 8 % 2 == 1 then CopyGpr2Mdr else Load
    case Load => if i.busy then Load else CopyMdr2C
    case CopyMdr2C => Wbi
    case CopyGpr2Mdr => Store
    case Store => if i.busy then Store else Resume(i.stepEn)
    case Jr => Resume(i.stepEn)
    case SavePc => Jalr
    case Jalr => Resume(i.stepEn)
    case Branch => if i.bt then BTaken else Resume(i.stepEn)
    case BTaken => Resume(i.stepEn)
    case Halt => Halt
    case Spare => Spare
  }

  /** The control lines, one field a line; `s1Sel` and `s2Sel` are the two-bit selects. */
  datatype Lines = Lines(
    inInit: bool, mr: bool, mw: bool,
    ace: bool, bce: bool, cce: bool, gprWe: bool, pcCe: bool, irCe: bool, marCe: bool, mdrCe: bool,
    dintSel: bool, mdrSel: bool, aSel: bool, add: bool, test: bool, shift: bool, iType: bool, jLink: bool,
    s1Sel: nat, s2Sel: nat)

  function Select(bit1: bool, bit0: bool): nat {
    (if bit1 then 2 else 0) + (if bit0 then 1 else 0)
  }

  function ReadRequest(s: Ctl): bool { s in {Fetch, Load} }

  function WriteRequest(s: Ctl): bool { s == Store }

  function ControlLines(s: Ctl, busy: bool): Lines {
    Lines(
      inInit := s in {Init, Halt},
      mr := ReadRequest(s),
      mw := WriteRequest(s),
      ace := s == Decode,
      bce := s == Decode,
      cce := s in {Alu, TestI, AluI, ShiftSt, CopyMdr2C, SavePc},
      gprWe := s in {Wbi, Wbr, Jalr},
      pcCe := s in {Decode, BTaken, Jr, Jalr},
      irCe := s == Fetch,
      marCe := s == AddressCmp,
      mdrCe := (s == Load && !busy) || s == CopyGpr2Mdr,
      dintSel := s in {ShiftSt, CopyMdr2C, CopyGpr2Mdr},
      mdrSel := s == Load,
      aSel := s in {Load, Store},
      add := s in {Decode, AluI, AddressCmp, BTaken, Jr, SavePc, Jalr},
      test := s == TestI,
      shift := s == ShiftSt,
      iType := s in {TestI, AluI, Wbi},
      jLink := s == Jalr,
      s1Sel := Select(s in {CopyMdr2C, CopyGpr2Mdr},
                      s in {Alu, TestI, AluI, ShiftSt, AddressCmp, CopyMdr2C, Jr, Jalr}),
      s2Sel := Select(s in {Decode, CopyMdr2C, CopyGpr2Mdr, Jr, SavePc, Jalr},
                      s in {Decode, TestI, AluI, AddressCmp, BTaken}))
  }
}
