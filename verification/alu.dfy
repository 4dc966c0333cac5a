/** The arithmetic unit: a carry-select adder built from three 16-bit cells, the comparator and the multiplexers. */
module Alu {
  import opened Words

  type Half = h: nat | h < 0x1_0000

  /** Sum and carry of one 16-bit adder/subtracter cell. */
  datatype CellOut = CellOut(s: Half, co: bool)

  function Adsu16(a: Half, b: Half, add: bool, ci: bool): CellOut {
    var wide := (if add then a + b + Bit(ci) else a - Bit(!ci) - b) % 0x2_0000;
    CellOut(wide % 0x1_0000, if add then wide >= 0x1_0000 else wide < 0x1_0000)
  }

  datatype AddSubOut = AddSubOut(s: Word, neg: bool)

  /** Both possible upper halves are computed; the carry out of the lower half picks one. */
  function AddSub32(a: Word, b: Word, sub: bool): AddSubOut {
    var upper1 := Adsu16(a / 0x1_0000, b / 0x1_0000, !sub, true);
    var upper0 := Adsu16(a / 0x1_0000, b / 0x1_0000, !sub, false);
    var lower := Adsu16(a % 0x1_0000, b % 0x1_0000, !sub, sub);
    var upper := if lower.co then upper1.s else upper0.s;
    var carry := if lower.co then upper1.co else upper0.co;
    var bSign := sub != (b >= 0x8000_0000);
    AddSubOut(upper * 0x1_0000 + lower.s, (bSign != (a >= 0x8000_0000)) != carry)
  }

  /** A cell adds `b`, or its one's complement, and its carry is exact: subtraction is complement-and-add. */
  lemma CellAdds(a: Half, b: Half, add: bool, ci: bool)
    ensures var out := Adsu16(a, b, add, ci);
            out.s + 0x1_0000 * Bit(out.co) == a + (if add then b else 0xFFFF - b) + Bit(ci)
  {
  }

  /** The selected carry is the carry out of bit 31 of the same complement-and-add on whole words. */
  lemma SelectedCarryIsExact(a: Word, b: Word, sub: bool) returns (carry: bool)
    ensures AddSub32(a, b, sub).s + TWO_32 * Bit(carry) == a + (if sub then TWO_32 - 1 - b else b) + Bit(sub)
    ensures AddSub32(a, b, sub).neg == (((sub != (b >= 0x8000_0000)) != (a >= 0x8000_0000)) != carry)
  {
    var lower := Adsu16(a % 0x1_0000, b % 0x1_0000, !sub, sub);
    var upper := Adsu16(a / 0x1_0000, b / 0x1_0000, !sub, lower.co);
    CellAdds(a % 0x1_0000, b % 0x1_0000, !sub, sub);
    CellAdds(a / 0x1_0000, b / 0x1_0000, !sub, lower.co);
    carry := upper.co;
  }

  /** Complement-and-add on two's-complement words: the sum, and the sign of the exact result from signs and carry. */
  lemma SignFromCarry(a: Word, b: Word, sub: bool, s: Word, carry: bool)
    requires s + TWO_32 * Bit(carry) == a + (if sub then TWO_32 - 1 - b else b) + Bit(sub)
    ensures s == Wrap(if sub then a - b else a + b)
    ensures (((sub != (b >= 0x8000_0000)) != (a >= 0x8000_0000)) != carry) <==>
            (if sub then Signed(a) - Signed(b) else Signed(a) + Signed(b)) < 0
  {
    if sub {
      assert a - b == s + TWO_32 * (Bit(carry) - 1);
    } else {
      assert a + b == s + TWO_32 * Bit(carry);
    }
  }

  lemma AddSubCorrect(a: Word, b: Word, sub: bool)
    ensures AddSub32(a, b, sub).s == Wrap(if sub then a - b else a + b) == (if sub then a - b else a + b) % TWO_32
    ensures AddSub32(a, b, sub).neg <==> (if sub then Signed(a) - Signed(b) else Signed(a) + Signed(b)) < 0
  {
    var carry := SelectedCarryIsExact(a, b, sub);
    SignFromCarry(a, b, sub, AddSub32(a, b, sub).s, carry);
    WrapIsModulo(if sub then a - b else a + b);
  }

  type Code = f: nat | f < 8

  /** Comparator: bit 2 enables less, bit 1 equal, bit 0 greater. */
  function Comparator(f: Code, neg: bool, s: Word): bool {
    var zero := s == 0;
    (neg && f / 4 == 1) || (zero && f / 2 % 2 == 1) || (!zero && !neg && f % 2 == 1)
  }

  function AluEnv(a: Word, b: Word, add: bool, test: bool, aluF: Code): Word {
    var f: Code := if add then 3 else aluF;
    var adder := AddSub32(a, b, f % 2 == 0 || test);
    var logic := if f / 2 % 2 == 1 then Bits32(AndGate, a, b)
                 else if f % 2 == 1 then Bits32(OrGate, a, b)
                 else Bits32(XorGate, a, b);
    if test then Bit(Comparator(f, adder.neg, adder.s))
    else if f / 4 == 1 then logic
    else adder.s
  }

  /** What a register-to-register function code computes. */
  function Compute(f: Code, a: Word, b: Word): Word {
    match f
    case 0 => Wrap(a - b)
    case 1 => Wrap(a + b)
    case 2 => Wrap(a - b)
    case 3 => Wrap(a + b)
    case 4 => Bits32(XorGate, a, b)
    case 5 => Bits32(OrGate, a, b)
    case _ => Bits32(AndGate, a, b)
  }

  /** Whether function code `f` enables the order in which `x` and `y` stand. */
  predicate Related(f: Code, x: int, y: int) {
    (x < y && f in {4, 5, 6, 7}) || (x == y && f in {2, 3, 6, 7}) || (x > y && f in {1, 3, 5, 7})
  }

  lemma CodeBits(f: Code)
    ensures f / 4 == 1 <==> f in {4, 5, 6, 7}
    ensures f / 2 % 2 == 1 <==> f in {2, 3, 6, 7}
    ensures f % 2 == 1 <==> f in {1, 3, 5, 7}
  {
  }

  lemma AluAdds(a: Word, b: Word, aluF: Code)
    ensures AluEnv(a, b, true, false, aluF) == Wrap(a + b)
  {
    AddSubCorrect(a, b, false);
  }

  lemma AluComputes(a: Word, b: Word, aluF: Code)
    ensures AluEnv(a, b, false, false, aluF) == Compute(aluF, a, b)
  {
    CodeBits(aluF);
    AddSubCorrect(a, b, aluF % 2 == 0);
  }

  lemma ComparatorRelates(f: Code, a: Word, b: Word)
    ensures Comparator(f, Signed(a) < Signed(b), Wrap(a - b)) <==> Related(f, Signed(a), Signed(b))
  {
    CodeBits(f);
    assert Wrap(a - b) == 0 <==> a == b;
  }

  /** The test-set result is exact for every pair of operands, also where the 32-bit difference overflows. */
  lemma AluTests(a: Word, b: Word, aluF: Code)
    ensures AluEnv(a, b, false, true, aluF) == Bit(Related(aluF, Signed(a), Signed(b)))
  {
    AddSubCorrect(a, b, true);
    ComparatorRelates(aluF, a, b);
  }
}
