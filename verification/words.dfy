/** 32-bit words of the processor, as natural numbers below 2^32, with the gates that work on them bit by bit. */
module Words {
  const TWO_32: int := 0x1_0000_0000

  type Word = w: nat | w < TWO_32

  /** Value of a word read as a two's-complement number. */
  function Signed(w: Word): int {
    if w < 0x8000_0000 then w else w - TWO_32
  }

  /** Keeps the low 32 bits of a sum or difference of two words. */
  function Wrap(n: int): Word
    requires -TWO_32 <= n < 2 * TWO_32
  {
    if n < 0 then n + TWO_32 else if n < TWO_32 then n else n - TWO_32
  }

  lemma WrapIsModulo(n: int)
    requires -TWO_32 <= n < 2 * TWO_32
    ensures Wrap(n) == n % TWO_32
  {
  }

  function Bit(b: bool): nat { if b then 1 else 0 }

  datatype Gate = AndGate | OrGate | XorGate {
    function Apply(x: nat, y: nat): nat
      requires x < 2 && y < 2
      ensures Apply(x, y) < 2
    {
      match this
      case AndGate => x * y
      case OrGate => if x + y == 0 then 0 else 1
      case XorGate => if x == y then 0 else 1
    }
  }

  /** One gate on every bit position below `span`, a power of two; bit 0 first. */
  function Bitwise(g: Gate, a: nat, b: nat, span: nat): (r: nat)
    requires span > 0
    ensures r < span
  {
    if span == 1 then 0 else g.Apply(a % 2, b % 2) + 2 * Bitwise(g, a / 2, b / 2, span / 2)
  }

  function Bits32(g: Gate, a: Word, b: Word): Word { Bitwise(g, a, b, TWO_32) }

  function Pow2(n: nat): (p: nat)
    ensures p > 0
  {
    if n == 0 then 1 else 2 * Pow2(n - 1)
  }

  /** Bit `k` of a number. */
  predicate BitAt(w: nat, k: nat) { if k == 0 then w % 2 == 1 else BitAt(w / 2, k - 1) }

  predicate GateHolds(g: Gate, x: bool, y: bool) {
    match g
    case AndGate => x && y
    case OrGate => x || y
    case XorGate => x != y
  }

  /** Every output bit is the gate's truth function of the two input bits at the same position. */
  lemma {:induction false} BitwiseAt(g: Gate, a: nat, b: nat, n: nat, k: nat)
    requires k < n
    ensures BitAt(Bitwise(g, a, b, Pow2(n)), k) <==> GateHolds(g, BitAt(a, k), BitAt(b, k))
  {
    var low, rest := g.Apply(a % 2, b % 2), Bitwise(g, a / 2, b / 2, Pow2(n - 1));
    assert Pow2(n) / 2 == Pow2(n - 1);
    assert (low + 2 * rest) % 2 == low && (low + 2 * rest) / 2 == rest;
    if k > 0 {
      BitwiseAt(g, a / 2, b / 2, n - 1, k - 1);
    }
  }

  lemma Bits32At(g: Gate, a: Word, b: Word, k: nat)
    requires k < 32
    ensures BitAt(Bits32(g, a, b), k) <==> GateHolds(g, BitAt(a, k), BitAt(b, k))
  {
    WordPowers();
    BitwiseAt(g, a, b, 32, k);
  }

  /** The signed value is the one number of the signed range that is the word modulo 2^32. */
  lemma SignedMeans(w: Word)
    ensures -0x8000_0000 <= Signed(w) < 0x8000_0000 && Signed(w) % TWO_32 == w
    ensures Signed(w) < 0 <==> BitAt(w, 31)
  {
    assert Signed(w) % TWO_32 == w;
    TopBitAt(w);
  }

  lemma TopBitAt(w: Word)
    ensures BitAt(w, 31) <==> w >= 0x8000_0000
  {
    hide BitAt, Pow2;
    WordPowers();
    HighBitAt(w, 31);
  }

  lemma WordPowers()
    ensures Pow2(31) == 0x8000_0000 && Pow2(32) == TWO_32
  {
    assert Pow2(8) == 256;
    assert Pow2(16) == 0x1_0000;
    assert Pow2(24) == 0x100_0000;
    assert Pow2(31) == 0x8000_0000;
  }

  lemma {:induction false} HighBitAt(w: nat, k: nat)
    requires w < Pow2(k + 1)
    ensures BitAt(w, k) <==> w >= Pow2(k)
  {
    if k > 0 {
      HighBitAt(w / 2, k - 1);
    }
  }
}
