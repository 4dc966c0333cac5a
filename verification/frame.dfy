/** Where the settings sit in the transmitted word, and reading them back from what the receiver decodes. */
module Frame {
  import opened Words
  import opened IrCodec
  import opened Remote

  /** The settings as one number: every field shifted to its position, with the constant one-bit at position 1. */
  function Raw(s: Settings): nat {
    2 + Bit(s.sleep) * 0x4_0000 + s.temperature * 0x8_0000 + Bit(s.swing) * 0x200_0000 + s.fan * 0x1000_0000
    + s.mode * 0x4000_0000 + Bit(s.power) * 0x2_0000_0000 + Bit(s.powerState) * 0x8000_0000_0000_0000
  }

  /** The lowest `n` bits of a number, most significant first. */
  function Bits(x: nat, n: nat): (b: seq<bool>)
    ensures |b| == n
  {
    if n == 0 then [] else Bits(x / 2, n - 1) + [x % 2 == 1]
  }

  /** The number a row of bits stands for. */
  function Value(b: seq<bool>): nat {
    if b == [] then 0 else 2 * Value(b[..|b| - 1]) + Bit(b[|b| - 1])
  }

  lemma {:induction false} ValueOfBits(x: nat, n: nat)
    requires x < Pow2(n)
    ensures Value(Bits(x, n)) == x
  {
    if n > 0 {
      assert x / 2 < Pow2(n - 1) by {
        assert Pow2(n) == 2 * Pow2(n - 1);
      }
      hide Pow2;
      ValueOfBits(x / 2, n - 1);
      var b := Bits(x, n);
      assert b == Bits(x / 2, n - 1) + [x % 2 == 1];
      assert b[..|b| - 1] == Bits(x / 2, n - 1);
    }
  }

  lemma HalfFirst(x: nat, p: nat)
    requires p > 0
    ensures x / (2 * p) == x / 2 / p
  {
    var q: int, r: int := x / 2 / p, x / 2 % p;
    assert x / 2 == p * q + r;
    assert q <= -1 ==> p * q <= -(p as int);
    QuotientIs(x, 2 * p, q, 2 * r + x % 2) by {
      assert x == 2 * (x / 2) + x % 2;
      assert 2 * (p * q) == 2 * p * q;
    }
  }

  lemma QuotientIs(x: nat, d: nat, q: nat, r: nat)
    requires d > 0 && x == d * q + r && r < d
    ensures x / d == q
  {
    var e := x / d - q;
    assert e >= 1 ==> d * e >= d;
    assert e <= -1 ==> d * e <= -(d as int);
    assert d * e == d * (x / d) - d * q;
  }

  lemma ShiftedOnce(x: nat, k: nat)
    ensures RawBit(x, k + 1) == RawBit(x / 2, k) && RawBit(x, 0) == (x % 2 == 1)
  {
    HalfFirst(x, Pow2(k));
  }

  /** A bit taken by shifting is a bit of repeated halving. */
  lemma {:induction false} ShiftedBit(x: nat, n: nat, i: nat)
    requires i < n
    ensures Bits(x, n)[i] == RawBit(x, n - 1 - i)
  {
    hide RawBit;
    if i < n - 1 {
      ShiftedBit(x / 2, n - 1, i);
      ShiftedOnce(x, n - 2 - i);
    } else {
      ShiftedOnce(x, 0);
    }
  }

  lemma HalfOfSum(h: nat, b: nat)
    ensures (2 * h + b) / 2 == h + b / 2 && (2 * h + b) % 2 == b % 2
  {
  }

  lemma PowerDoubles(a: nat, k: nat)
    requires k > 0
    ensures a * Pow2(k) == 2 * (a * Pow2(k - 1)) && Pow2(k) == 2 * Pow2(k - 1)
  {
  }

  lemma {:induction false} BitsConcat(a: nat, b: nat, n: nat, k: nat)
    requires b < Pow2(k)
    ensures Bits(a * Pow2(k) + b, n + k) == Bits(a, n) + Bits(b, k)
  {
    if k == 0 {
      assert a * Pow2(k) + b == a;
    } else {
      hide Pow2;
      PowerDoubles(a, k);
      HalfOfSum(a * Pow2(k - 1), b);
      BitsConcat(a, b / 2, n, k - 1);
    }
  }

  /** The transmitted word, field by field from the power bit down to the constant 1 and 0 at its end. */
  function Layout(s: Settings): seq<bool> {
    [s.power] + Bits(s.mode, 3) + Bits(s.fan, 2) + Bits(0, 2) + [s.swing] + Bits(0, 2) + Bits(s.temperature, 4)
    + [s.sleep] + Bits(0, 16) + [true, false]
  }

  lemma Append(a: nat, n: nat, b: nat, k: nat, p: nat, word: seq<bool>)
    requires Bits(a, n) == word && p == Pow2(k) && b < p
    ensures Bits(a * p + b, n + k) == word + Bits(b, k)
  {
    BitsConcat(a, b, n, k);
  }

  lemma Powers()
    ensures Pow2(1) == 2 && Pow2(2) == 4 && Pow2(3) == 8 && Pow2(4) == 16 && Pow2(16) == 0x1_0000
  {
    assert Pow2(4) == 16;
    assert Pow2(8) == 256;
    assert Pow2(12) == 4096;
  }

  lemma SmallBits(b: bool)
    ensures Bits(Bit(b), 1) == [b] && Bits(2, 2) == [true, false]
  {
    assert Bits(Bit(b) / 2, 0) == [];
    assert Bits(1, 1) == Bits(0, 0) + [true];
  }

  /** Power, mode and fan, and the gap below them. */
  function HighWord(s: Settings): seq<bool> { [s.power] + Bits(s.mode, 3) + Bits(s.fan, 2) + Bits(0, 2) }

  function HighValue(s: Settings): nat {
    Bit(s.powerState) * 0x20_0000_0000 + Bit(s.power) * 0x80 + s.mode * 0x10 + s.fan * 4
  }

  lemma HighBits(s: Settings)
    requires InRange(s)
    ensures Bits(HighValue(s), 8) == HighWord(s)
  {
    hide Pow2, Bits;
    Powers();
    SmallBits(s.power);
    var x0 := Bit(s.powerState) * 0x2000_0000;
    assert Bits(x0, 0) == [];
    var x1 := x0 * 2 + Bit(s.power);
    Append(x0, 0, Bit(s.power), 1, 2, []);
    var x2 := x1 * 8 + s.mode;
    Append(x1, 1, s.mode, 3, 8, [] + [s.power]);
    var x3 := x2 * 4 + s.fan;
    Append(x2, 4, s.fan, 2, 4, [] + [s.power] + Bits(s.mode, 3));
    Append(x3, 6, 0, 2, 4, [] + [s.power] + Bits(s.mode, 3) + Bits(s.fan, 2));
    assert x3 * 4 == HighValue(s);
    assert [] + [s.power] == [s.power];
  }

  function LowValue(s: Settings): nat {
    Bit(s.swing) * 0x200_0000 + s.temperature * 0x8_0000 + Bit(s.sleep) * 0x4_0000 + 2
  }

  /** Swing, temperature, sleep and the constant bits. */
  lemma LowBits(s: Settings, high: nat, word: seq<bool>)
    requires InRange(s) && Bits(high, 8) == word
    ensures Bits(high * 0x400_0000 + LowValue(s), 34) ==
            word + [s.swing] + Bits(0, 2) + Bits(s.temperature, 4) + [s.sleep] + Bits(0, 16) + [true, false]
  {
    hide Pow2, Bits;
    Powers();
    SmallBits(s.swing);
    SmallBits(s.sleep);
    var x1 := high * 2 + Bit(s.swing);
    Append(high, 8, Bit(s.swing), 1, 2, word);
    var x2 := x1 * 4 + 0;
    Append(x1, 9, 0, 2, 4, word + [s.swing]);
    var x3 := x2 * 16 + s.temperature;
    Append(x2, 11, s.temperature, 4, 16, word + [s.swing] + Bits(0, 2));
    var x4 := x3 * 2 + Bit(s.sleep);
    Append(x3, 15, Bit(s.sleep), 1, 2, word + [s.swing] + Bits(0, 2) + Bits(s.temperature, 4));
    var x5 := x4 * 0x1_0000 + 0;
    Append(x4, 16, 0, 16, 0x1_0000, word + [s.swing] + Bits(0, 2) + Bits(s.temperature, 4) + [s.sleep]);
    Append(x5, 32, 2, 2, 4, word + [s.swing] + Bits(0, 2) + Bits(s.temperature, 4) + [s.sleep] + Bits(0, 16));
  }

  /** Shifting the union gives the fields in order: the fields do not overlap, and the tracked state is not sent. */
  lemma WordIsLayout(s: Settings)
    requires InRange(s)
    ensures WordOf(Raw(s)) == Layout(s)
  {
    hide Bits, InRange, WordOf, RawBit;
    HighBits(s);
    LowBits(s, HighValue(s), HighWord(s));
    assert Raw(s) == HighValue(s) * 0x400_0000 + LowValue(s);
    WordIsBits(Raw(s));
  }

  lemma WordIsBits(raw: nat)
    ensures WordOf(raw) == Bits(raw, DATA_BITS)
  {
    hide RawBit, Bits;
    forall i | 0 <= i < DATA_BITS
      ensures WordOf(raw)[i] == Bits(raw, DATA_BITS)[i]
    {
      ShiftedBit(raw, DATA_BITS, i);
    }
  }

  lemma FieldsAt(power: bool, mode: seq<bool>, fan: seq<bool>, gap: seq<bool>, swing: bool, temp: seq<bool>,
                 sleep: bool, zeros: seq<bool>)
    requires |mode| == 3 && |fan| == 2 && |gap| == 2 && |temp| == 4 && |zeros| == 16
    ensures var word := [power] + mode + fan + gap + [swing] + gap + temp + [sleep] + zeros + [true, false];
            |word| == DATA_BITS && word[0] == power && word[1..4] == mode && word[4..6] == fan && word[8] == swing
            && word[11..15] == temp && word[15] == sleep && !word[33]
  {
  }

  /** The settings a receiver reads out of the word. */
  function SettingsOf(word: seq<bool>): Settings
    requires |word| == DATA_BITS
  {
    Settings(word[0], Value(word[1..4]), Value(word[4..6]), word[8], Value(word[11..15]), word[15], false)
  }

  /** What the decoder writes for a word: its bits, complemented unless the receiver inverts levels. */
  predicate Decodes(decoded: string, word: seq<bool>, invert: bool) {
    |decoded| == |word| && forall j :: 0 <= j < |word| ==> decoded[j] == Digit(word[j] == invert)
  }

  function BitsRead(decoded: string, invert: bool): seq<bool> {
    seq(|decoded|, j requires 0 <= j < |decoded| => (decoded[j] == '1') == invert)
  }

  /** From one set of settings to the other: what the receiver decodes is exactly what the remote was set to, and the
      word ends in 0, so that the decoder collects no half-bit of the next repetition. */
  lemma SettingsArrive(s: Settings, decoded: string, invert: bool)
    requires InRange(s) && Decodes(decoded, WordOf(Raw(s)), invert)
    ensures SettingsOf(BitsRead(decoded, invert)) == s.(powerState := false)
    ensures !WordOf(Raw(s))[DATA_BITS - 1]
  {
    hide Bits, Pow2, Value;
    var word := Layout(s);
    WordIsLayout(s);
    assert BitsRead(decoded, invert) == word;
    Powers();
    ValueOfBits(s.mode, 3);
    ValueOfBits(s.fan, 2);
    ValueOfBits(s.temperature, 4);
    FieldsAt(s.power, Bits(s.mode, 3), Bits(s.fan, 2), Bits(0, 2), s.swing, Bits(s.temperature, 4), s.sleep,
             Bits(0, 16));
  }

  /** What a channel makes of transmitted symbols before any error. */
  function RunsOf(symbols: seq<Symbol>): seq<Run> { Merge(Wave(symbols)) }

  lemma RunsAreSent(raw: nat)
    ensures RunsOf(Message(WordOf(raw))) == Sent(WordOf(raw), 0)
  {
    hide Message;
    var m := Message(WordOf(raw));
    assert m[0..] == m;
  }

  method ArrayOf(symbols: seq<Symbol>) returns (a: array<Symbol>)
    ensures fresh(a) && a[..] == symbols
  {
    a := new Symbol[|symbols|](i requires 0 <= i < |symbols| => symbols[i]);
  }

  /** The whole way: the settings are encoded, the merged runs arrive each off by its own error and perhaps with all
      levels inverted, and the receiver decodes them and reads its settings. They are those of the remote. */
  method SendAndReceive(s: Settings, errors: seq<int>, invert: bool) returns (received: Settings, halves: nat)
    requires InRange(s) && |errors| == |Sent(WordOf(Raw(s)), 0)|
    requires forall r :: 0 <= r < |errors| ==> -TOLERANCE < errors[r] < TOLERANCE
    ensures received == s.(powerState := false) && halves == 2 * DATA_BITS
  {
    hide Raw, WordOf, Sent, Receives, ReceivesFirst, InRange, SettingsOf, Pack, Distort;
    ghost var word := WordOf(Raw(s));
    var symbols := new Symbol[3 * (DATA_BITS + 1) + 1];
    EncodeSettings(symbols, Raw(s));
    RunsAreSent(Raw(s));
    var air := Distort(RunsOf(symbols[..]), errors, invert);
    var buffer := ArrayOf(Pack(air));
    DistortedReceives(Sent(word, 0), errors, invert);
    WholeMessageSuffices(buffer[..], word, 0, invert);
    var decoded := new char[DATA_BITS];
    halves := DecodeManchester(buffer, DATA_BITS, decoded, word, 0, invert);
    SettingsArrive(s, decoded[..], invert);
    received := SettingsOf(BitsRead(decoded[..], invert));
  }

  /** Bit by bit: power at 33, mode from 30, fan from 28, swing at 25, temperature from 19, sleep at 18, the constant 1
      at position 1, and nothing anywhere else below 34. */
  lemma FieldPositions(s: Settings)
    requires InRange(s)
    ensures RawBit(Raw(s), 33) == s.power && RawBit(Raw(s), 25) == s.swing && RawBit(Raw(s), 18) == s.sleep
    ensures forall j :: 0 <= j < 3 ==> RawBit(Raw(s), 30 + j) == RawBit(s.mode, j)
    ensures forall j :: 0 <= j < 2 ==> RawBit(Raw(s), 28 + j) == RawBit(s.fan, j)
    ensures forall j :: 0 <= j < 4 ==> RawBit(Raw(s), 19 + j) == RawBit(s.temperature, j)
    ensures RawBit(Raw(s), 1) && !RawBit(Raw(s), 0)
    ensures forall j :: 2 <= j < 18 || 23 <= j < 25 || 26 <= j < 28 ==> !RawBit(Raw(s), j)
  {
    hide Bits, Raw, RawBit;
    WordIsLayout(s);
    var word := Layout(s);
    assert forall i :: 0 <= i < DATA_BITS ==> word[i] == RawBit(Raw(s), DATA_BITS - 1 - i);
    forall k | 0 <= k < 34
      ensures RawBit(Raw(s), k) == word[33 - k]
    {
      assert word[33 - k] == RawBit(Raw(s), DATA_BITS - 1 - (33 - k));
    }
    LayoutBits(s);
  }

  lemma ZeroBits(n: nat, i: nat)
    requires i < n
    ensures !Bits(0, n)[i]
  {
    if i < n - 1 {
      ZeroBits(n - 1, i);
    }
  }

  lemma LayoutBits(s: Settings)
    ensures var word := Layout(s);
            word[0] == s.power && word[8] == s.swing && word[15] == s.sleep && word[32] && !word[33]
    ensures forall j :: 0 <= j < 3 ==> Layout(s)[3 - j] == RawBit(s.mode, j)
    ensures forall j :: 0 <= j < 2 ==> Layout(s)[5 - j] == RawBit(s.fan, j)
    ensures forall j :: 0 <= j < 4 ==> Layout(s)[14 - j] == RawBit(s.temperature, j)
    ensures forall i :: 16 <= i < 32 || 9 <= i < 11 || 6 <= i < 8 ==> !Layout(s)[i]
  {
    hide Bits, RawBit;
    var mode, fan, temp, gap, zeros := Bits(s.mode, 3), Bits(s.fan, 2), Bits(s.temperature, 4), Bits(0, 2), Bits(0, 16);
    FieldsAt(s.power, mode, fan, gap, s.swing, temp, s.sleep, zeros);
    forall j | 0 <= j < 3
      ensures mode[2 - j] == RawBit(s.mode, j)
    {
      ShiftedBit(s.mode, 3, 2 - j);
    }
    forall j | 0 <= j < 2
      ensures fan[1 - j] == RawBit(s.fan, j)
    {
      ShiftedBit(s.fan, 2, 1 - j);
    }
    forall j | 0 <= j < 4
      ensures temp[3 - j] == RawBit(s.temperature, j)
    {
      ShiftedBit(s.temperature, 4, 3 - j);
    }
    forall i | 0 <= i < 16
      ensures !zeros[i] && (i < 2 ==> !gap[i])
    {
      ZeroBits(16, i);
      if i < 2 {
        ZeroBits(2, i);
      }
    }
  }
}
