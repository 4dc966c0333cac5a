/** The infrared codec: Manchester frames out, coalesced and jittery runs in, and the way back. */
module IrCodec {
  import opened Words

  const UNIT: int := 1000
  const TOLERANCE: int := 200
  const DATA_BITS: nat := 34

  /** One entry of the transmit or receive buffer: two levels with their durations in microseconds. */
  datatype Symbol = Symbol(level0: bool, duration0: int, level1: bool, duration1: int)

  /** A stretch of constant level. */
  datatype Run = Run(level: bool, dur: int)

  // ---- What is sent

  const LEADER := Symbol(true, 3000, false, 3000)
  const TRAILER := Symbol(true, 4000, false, 0)

  function BitSymbol(bit: bool): Symbol { Symbol(!bit, 1000, bit, 1000) }

  function BitSymbols(word: seq<bool>): (s: seq<Symbol>)
    ensures |s| == |word|
    ensures forall i :: 0 <= i < |word| ==> s[i] == BitSymbol(word[i])
  {
    seq(|word|, i requires 0 <= i < |word| => BitSymbol(word[i]))
  }

  function Frame(word: seq<bool>): seq<Symbol> { [LEADER] + BitSymbols(word) }

  /** Three repetitions and the trailing mark. */
  function Message(word: seq<bool>): (m: seq<Symbol>)
    ensures |m| == 3 * (|word| + 1) + 1
  {
    Frame(word) + Frame(word) + Frame(word) + [TRAILER]
  }

  /** Symbol by symbol: every repetition is a mark and a space of 3000, then low-high for a 1 and high-low for a 0, all
      halves 1000 long; the last symbol is a mark of 4000 and nothing. */
  lemma MessageSpelled(word: seq<bool>, rep: nat, i: nat)
    requires rep < 3 && i <= |word|
    ensures Message(word)[rep * (|word| + 1) + i] ==
            if i == 0 then Symbol(true, 3000, false, 3000)
            else if word[i - 1] then Symbol(false, 1000, true, 1000)
            else Symbol(true, 1000, false, 1000)
    ensures Message(word)[3 * (|word| + 1)] == Symbol(true, 4000, false, 0)
  {
    hide BitSymbols;
    var f := Frame(word);
    ThreeParts(f, TRAILER, rep, i);
  }

  lemma ThreeParts(f: seq<Symbol>, last: Symbol, rep: nat, i: nat)
    requires rep < 3 && i < |f|
    ensures (f + f + f + [last])[rep * |f| + i] == f[i] && (f + f + f + [last])[3 * |f|] == last
  {
    assert rep == 0 || rep == 1 || rep == 2;
  }

  /** Bit `k` of the raw settings: shift right by `k`, keep the lowest bit. */
  function RawBit(raw: nat, k: nat): bool { raw / Pow2(k) % 2 == 1 }

  /** The data bits of the raw settings, most significant first. */
  function WordOf(raw: nat): (word: seq<bool>)
    ensures |word| == DATA_BITS
  {
    seq(DATA_BITS, i requires 0 <= i < DATA_BITS => RawBit(raw, DATA_BITS - 1 - i))
  }

  /** The leading symbol and one symbol per data bit. */
  method FillFrame(symbols: array<Symbol>, raw: nat)
    requires symbols.Length > DATA_BITS
    modifies symbols
    ensures symbols[..DATA_BITS + 1] == Frame(WordOf(raw))
  {
    hide RawBit;
    symbols[0] := LEADER;
    for i := 1 to DATA_BITS + 1
      invariant symbols[0] == LEADER
      invariant forall k :: 1 <= k < i ==> symbols[k] == BitSymbol(WordOf(raw)[k - 1])
    {
      var bit := RawBit(raw, DATA_BITS - i);
      symbols[i] := Symbol(if bit then false else true, 1000, if bit then true else false, 1000);
    }
  }

  method EncodeSettings(symbols: array<Symbol>, raw: nat)
    requires symbols.Length == 3 * (DATA_BITS + 1) + 1
    modifies symbols
    ensures symbols[..] == Message(WordOf(raw))
  {
    hide WordOf, Frame;
    var n := DATA_BITS + 1;
    FillFrame(symbols, raw);
    ghost var frame := symbols[..n];
    CopyFrame(symbols, n, n);
    ghost var two := symbols[..2 * n];
    assert two[..n] == frame && two[n..] == frame;
    CopyFrame(symbols, 2 * n, n);
    assert symbols[2 * n..3 * n] == frame && symbols[..2 * n] == two;
    symbols[n * 3] := TRAILER;
    FourParts(symbols[..], n);
  }

  lemma FourParts(s: seq<Symbol>, n: nat)
    requires |s| == 3 * n + 1
    ensures s == s[..2 * n][..n] + s[..2 * n][n..] + s[2 * n..3 * n] + [s[3 * n]]
  {
  }

  /** Copies the first `count` entries to position `to`. */
  method CopyFrame(symbols: array<Symbol>, to: nat, count: nat)
    requires count <= to && to + count <= symbols.Length
    modifies symbols
    ensures symbols[to..to + count] == old(symbols[..count])
    ensures symbols[..to] == old(symbols[..to]) && symbols[to + count..] == old(symbols[to + count..])
  {
    for i := 0 to count
      invariant symbols[to..to + i] == old(symbols[..i])
      invariant symbols[..to] == old(symbols[..to]) && symbols[to + i..] == old(symbols[to + i..])
    {
      symbols[to + i] := symbols[i];
    }
  }

  // ---- The channel

  function Wave(symbols: seq<Symbol>): (w: seq<Run>)
    ensures |w| == 2 * |symbols|
  {
    if symbols == [] then []
    else
      var s := symbols[0];
      [Run(s.level0, s.duration0), Run(s.level1, s.duration1)] + Wave(symbols[1..])
  }

  /** Neighbouring stretches of equal level arrive as one. */
  function Merge(w: seq<Run>): (m: seq<Run>)
    ensures |m| <= |w|
    ensures w != [] ==> m != [] && m[0].level == w[0].level
  {
    if |w| <= 1 then w
    else
      var m := Merge(w[1..]);
      if m[0].level == w[0].level then [Run(w[0].level, w[0].dur + m[0].dur)] + m[1..] else [w[0]] + m
  }

  /** The level at time `t` of a waveform, low after its end. */
  function LevelAt(w: seq<Run>, t: int): bool {
    if w == [] then false else if t < w[0].dur then w[0].level else LevelAt(w[1..], t - w[0].dur)
  }

  /** Merging changes the signal at no time. */
  lemma {:induction false} MergeKeepsSignal(w: seq<Run>, t: int)
    requires t >= 0 && forall i :: 0 <= i < |w| ==> w[i].dur >= 0
    ensures LevelAt(Merge(w), t) == LevelAt(w, t)
    ensures forall i :: 0 <= i < |Merge(w)| ==> Merge(w)[i].dur >= 0
  {
    if |w| > 1 {
      var m := Merge(w[1..]);
      MergeKeepsSignal(w[1..], if t < w[0].dur then 0 else t - w[0].dur);
      if m[0].level == w[0].level {
        assert Merge(w)[1..] == m[1..];
      } else {
        assert Merge(w)[1..] == m;
      }
    }
  }

  /** The r-th run in the receive buffer. */
  function Slot(symbols: seq<Symbol>, r: nat): Run
    requires r < 2 * |symbols|
  {
    if r % 2 == 0 then Run(symbols[r / 2].level0, symbols[r / 2].duration0)
    else Run(symbols[r / 2].level1, symbols[r / 2].duration1)
  }

  /** The buffer holds the runs sent, each off by less than the tolerance, all levels perhaps inverted. */
  ghost predicate Receives(symbols: seq<Symbol>, sent: seq<Run>, invert: bool) {
    |sent| <= 2 * |symbols|
    && forall r :: 0 <= r < |sent| ==>
         Slot(symbols, r).level == (sent[r].level != invert)
         && -TOLERANCE < Slot(symbols, r).dur - sent[r].dur < TOLERANCE
  }

  /** The receive buffer: two runs an entry, a last odd one padded. */
  function Pack(runs: seq<Run>): seq<Symbol> {
    if runs == [] then []
    else if |runs| == 1 then [Symbol(runs[0].level, runs[0].dur, false, 0)]
    else [Symbol(runs[0].level, runs[0].dur, runs[1].level, runs[1].dur)] + Pack(runs[2..])
  }

  lemma {:induction false} PackSlots(runs: seq<Run>, r: nat)
    requires r < |runs|
    ensures r < 2 * |Pack(runs)| && Slot(Pack(runs), r) == runs[r]
  {
    if r >= 2 {
      PackSlots(runs[2..], r - 2);
      assert Pack(runs)[r / 2] == Pack(runs[2..])[(r - 2) / 2];
    }
  }

  /** The channel: every run is off by its own error, and the receiver may invert all levels. */
  function Distort(sent: seq<Run>, errors: seq<int>, invert: bool): seq<Run>
    requires |errors| == |sent|
  {
    seq(|sent|, r requires 0 <= r < |sent| => Run(sent[r].level != invert, sent[r].dur + errors[r]))
  }

  /** Any such errors below the tolerance give a buffer the decoder is specified for. */
  lemma DistortedReceives(sent: seq<Run>, errors: seq<int>, invert: bool)
    requires |errors| == |sent| && forall r :: 0 <= r < |errors| ==> -TOLERANCE < errors[r] < TOLERANCE
    ensures Receives(Pack(Distort(sent, errors, invert)), sent, invert)
  {
    var runs := Distort(sent, errors, invert);
    forall r | 0 <= r < |runs|
      ensures r < 2 * |Pack(runs)| && Slot(Pack(runs), r) == runs[r]
    {
      PackSlots(runs, r);
    }
    if sent != [] {
      PackSlots(runs, |runs| - 1);
    }
  }

  // ---- Runs and half-bits

  /** Half-bits of a run as the decoder counts them: a double-length run is two, any other is one. */
  function Unit(r: Run): seq<bool> {
    if r.dur == 2 * UNIT then [r.level, r.level] else [r.level]
  }

  function Units(m: seq<Run>): seq<bool> {
    if m == [] then [] else Unit(m[0]) + Units(m[1..])
  }

  /** The two half-bits of every data bit. */
  function Halves(word: seq<bool>): (h: seq<bool>)
    ensures |h| == 2 * |word|
    ensures forall j :: 0 <= j < |word| ==> h[2 * j] == !word[j]
  {
    if word == [] then []
    else
      var h := [!word[0], word[0]] + Halves(word[1..]);
      assert forall j :: 1 <= j < |word| ==> h[2 * j] == Halves(word[1..])[2 * (j - 1)];
      h
  }

  predicate Alternating(m: seq<Run>) {
    forall i :: 0 < i < |m| ==> m[i].level != m[i - 1].level
  }

  lemma {:induction false} MergeAlternates(w: seq<Run>)
    ensures Alternating(Merge(w))
  {
    if |w| > 1 {
      MergeAlternates(w[1..]);
    }
  }

  lemma {:induction false} AlternatingParity(m: seq<Run>, i: nat)
    requires Alternating(m) && i < |m|
    ensures m[i].level == if i % 2 == 0 then m[0].level else !m[0].level
  {
    if i > 0 {
      AlternatingParity(m, i - 1);
    }
  }

  /** A run that holds no half-bit: part of a leader or a trailer. */
  predicate NoData(r: Run) { r.dur == 0 || r.dur >= 3000 }

  /** A waveform that opens with a leader or trailer: merged, its mark stands alone and its space holds no data. */
  predicate Leads(t: seq<Run>) {
    |t| >= 2 && t[0].level && t[0].dur >= 3000 && !t[1].level
    && |Merge(t)| >= 2 && Merge(t)[0] == t[0] && NoData(Merge(t)[1])
  }

  /** The first `k` merged runs are exactly the half-bits of `word`, and the next one is no double. */
  ghost predicate Covers(m: seq<Run>, word: seq<bool>, k: nat) {
    0 < k < |m| && Units(m[..k]) == Halves(word) && m[k].level == !word[|word| - 1] && NoData(m[k])
    && m[0] == Run(!word[0], 1000)
    && forall i :: 0 <= i < k ==> m[i].dur in {1000, 2000} || m[i].dur >= 3000
  }

  lemma WaveOfBits(word: seq<bool>)
    requires word != []
    ensures Wave(BitSymbols(word)) == [Run(!word[0], 1000), Run(word[0], 1000)] + Wave(BitSymbols(word[1..]))
  {
    assert BitSymbols(word)[1..] == BitSymbols(word[1..]);
  }

  /** What one more bit in front does to the merged runs. */
  function Prepend(b: bool, m: seq<Run>): seq<Run>
    requires m != []
  {
    if m[0].level == b then [Run(!b, 1000), Run(b, 1000 + m[0].dur)] + m[1..] else [Run(!b, 1000), Run(b, 1000)] + m
  }

  /** A run in front of a waveform: absorbed by the first merged run, or alone. */
  function Push(x: Run, m: seq<Run>): seq<Run>
    requires m != []
  {
    if m[0].level == x.level then [Run(x.level, x.dur + m[0].dur)] + m[1..] else [x] + m
  }

  lemma MergePushes(x: Run, rest: seq<Run>)
    requires rest != []
    ensures Merge([x] + rest) == Push(x, Merge(rest))
  {
    assert ([x] + rest)[1..] == rest;
  }

  lemma MergePrepends(b: bool, rest: seq<Run>)
    requires rest != []
    ensures Merge([Run(!b, 1000), Run(b, 1000)] + rest) == Prepend(b, Merge(rest))
  {
    hide Merge;
    MergePushes(Run(b, 1000), rest);
    MergePushes(Run(!b, 1000), [Run(b, 1000)] + rest);
    assert [Run(!b, 1000), Run(b, 1000)] + rest == [Run(!b, 1000)] + ([Run(b, 1000)] + rest);
    assert Push(Run(!b, 1000), Push(Run(b, 1000), Merge(rest))) == Prepend(b, Merge(rest));
  }

  lemma UnitsOfTwo(x: Run, y: Run, m: seq<Run>)
    ensures Units([x, y] + m) == Unit(x) + Unit(y) + Units(m)
  {
    assert ([x, y] + m)[1..] == [y] + m;
    assert ([y] + m)[1..] == m;
  }

  lemma LastBitCovered(b: bool, m: seq<Run>)
    requires |m| >= 2 && m[0].level && m[0].dur >= 3000 && !m[1].level && NoData(m[1])
    ensures Covers(Prepend(b, m), [b], 2)
  {
    var p := Prepend(b, m);
    assert p[..2] == [p[0], p[1]] + [];
    UnitsOfTwo(p[0], p[1], []);
    assert Halves([b]) == [!b, b];
  }

  lemma TakeBehindTwo(x: Run, y: Run, m: seq<Run>, j: nat)
    requires j <= |m|
    ensures ([x, y] + m)[..j + 2] == [x, y] + m[..j]
  {
  }

  lemma PrependedUnits(b: bool, m: seq<Run>, j: nat)
    requires 0 < j <= |m| && m[0].dur == 1000
    ensures Units(Prepend(b, m)[..if m[0].level == b then j + 1 else j + 2]) == [!b, b] + Units(m[..j])
  {
    var p := Prepend(b, m);
    assert m[..j] == [m[0]] + m[1..j];
    if m[0].level == b {
      TakeBehindTwo(p[0], p[1], m[1..], j - 1);
      assert m[1..][..j - 1] == m[1..j];
      UnitsOfTwo(p[0], p[1], m[1..j]);
    } else {
      TakeBehindTwo(p[0], p[1], m, j);
      UnitsOfTwo(p[0], p[1], m[..j]);
    }
  }

  /** Behind the new bit the merged runs are what they were. */
  lemma PrependedRuns(b: bool, m: seq<Run>, j: nat)
    requires 0 < j < |m| && m[0].dur == 1000
    requires forall i :: 0 <= i < j ==> m[i].dur in {1000, 2000} || m[i].dur >= 3000
    ensures var p, k := Prepend(b, m), if m[0].level == b then j + 1 else j + 2;
            k < |p| && p[0] == Run(!b, 1000) && p[k] == m[j]
            && forall i :: 0 <= i < k ==> p[i].dur in {1000, 2000} || p[i].dur >= 3000
  {
  }

  lemma BitCovered(word: seq<bool>, m: seq<Run>, j: nat)
    requires |word| > 1 && Covers(m, word[1..], j)
    ensures Covers(Prepend(word[0], m), word, if m[0].level == word[0] then j + 1 else j + 2)
  {
    hide Units, Prepend, Halves;
    PrependedRuns(word[0], m, j);
    PrependedUnits(word[0], m, j);
    HalvesOfFirst(word);
  }

  lemma HalvesOfFirst(word: seq<bool>)
    requires |word| > 1
    ensures Halves(word) == [!word[0], word[0]] + Halves(word[1..]) && word[1..][|word| - 2] == word[|word| - 1]
  {
  }

  lemma {:induction false} MergeCovers(word: seq<bool>, t: seq<Run>) returns (k: nat)
    requires word != [] && Leads(t)
    ensures Covers(Merge(Wave(BitSymbols(word)) + t), word, k)
  {
    hide Covers;
    var rest := Wave(BitSymbols(word[1..])) + t;
    WaveOfBits(word);
    assert Wave(BitSymbols(word)) + t == [Run(!word[0], 1000), Run(word[0], 1000)] + rest;
    MergePrepends(word[0], rest);
    if |word| == 1 {
      assert rest == t && word == [word[0]];
      MergeAlternates(t);
      LastBitCovered(word[0], Merge(t));
      k := 2;
    } else {
      k := MergeCovers(word[1..], t);
      BitCovered(word, Merge(rest), k);
      k := if Merge(rest)[0].level == word[0] then k + 1 else k + 2;
    }
  }

  // ---- The whole message

  lemma WaveConcat(a: seq<Symbol>, b: seq<Symbol>)
    ensures Wave(a + b) == Wave(a) + Wave(b)
  {
    if a == [] {
      assert a + b == b;
    } else {
      assert (a + b)[1..] == a[1..] + b;
      WaveConcat(a[1..], b);
    }
  }

  lemma {:induction false} FirstRunGrows(w: seq<Run>)
    requires w != [] && forall i :: 0 <= i < |w| ==> w[i].dur >= 0
    ensures Merge(w)[0].dur >= w[0].dur
  {
    if |w| > 1 {
      FirstRunGrows(w[1..]);
    }
  }

  lemma {:induction false} WaveDurations(s: seq<Symbol>)
    requires Timed(s)
    ensures forall i :: 0 <= i < |Wave(s)| ==> Wave(s)[i].dur >= 0
  {
    if s != [] {
      WaveDurations(s[1..]);
    }
  }

  lemma {:induction false} LeaderLeads(rest: seq<Symbol>)
    requires Timed(rest)
    ensures Leads(Wave([LEADER] + rest))
  {
    var t := Wave([LEADER] + rest);
    assert ([LEADER] + rest)[1..] == rest;
    assert t[0] == Run(true, 3000) && t[1] == Run(false, 3000);
    WaveDurations([LEADER] + rest);
    FirstRunGrows(t[1..]);
    assert Merge(t) == [t[0]] + Merge(t[1..]);
  }

  lemma TrailerLeads()
    ensures Leads(Wave([TRAILER]))
  {
    assert [TRAILER][1..] == [];
    assert Wave([TRAILER]) == [Run(true, 4000), Run(false, 0)];
    assert [Run(true, 4000), Run(false, 0)][1..] == [Run(false, 0)];
  }

  /** The merged runs of a message from the leader of repetition `rep` on. */
  function Sent(word: seq<bool>, rep: nat): seq<Run>
    requires rep < 3
  {
    Merge(Wave(Message(word)[rep * (|word| + 1)..]))
  }

  /** The half-bits the decoder has collected after all runs below `r`. */
  function Collected(m: seq<Run>, r: nat): seq<bool>
    requires 2 <= r <= |m|
  {
    (if m[1].dur == 4 * UNIT then [m[1].level] else []) + Units(m[2..r])
  }

  /** Run `k` is the first without a half-bit of the first repetition, and everything before it decodes to the word. */
  ghost predicate Decodable(m: seq<Run>, word: seq<bool>, k: nat) {
    word != [] && 2 <= k < |m| && m[0] == Run(true, 3000) && m[1].dur in {3000, 4000}
    && Collected(m, k) == Halves(word)
    && (k % 2 == 1 <==> word[|word| - 1]) && NoData(m[k])
    && (forall i :: 2 <= i < k ==> m[i].dur in {1000, 2000} || m[i].dur >= 3000)
    && (forall i :: 0 <= i < |m| ==> (m[i].level <==> i % 2 == 0))
  }

  /** The leader in front of the merged data runs. */
  function WithLeader(m: seq<Run>): seq<Run>
    requires m != []
  {
    [Run(true, 3000)] + (if m[0].level then [Run(false, 3000)] + m else [Run(false, 3000 + m[0].dur)] + m[1..])
  }

  lemma MergeLeader(rest: seq<Run>)
    requires rest != []
    ensures Merge([Run(true, 3000), Run(false, 3000)] + rest) == WithLeader(Merge(rest))
  {
    hide Merge;
    var mark, space := Run(true, 3000), Run(false, 3000);
    MergePushes(space, rest);
    MergePushes(mark, [space] + rest);
    assert [mark, space] + rest == [mark] + ([space] + rest);
    assert Push(mark, Push(space, Merge(rest))) == WithLeader(Merge(rest));
  }

  /** What is sent after the data bits of repetition `rep`. */
  function Following(word: seq<bool>, rep: nat): seq<Symbol>
    requires rep < 3
  {
    if rep == 0 then Frame(word) + Frame(word) + [TRAILER] else if rep == 1 then Frame(word) + [TRAILER] else [TRAILER]
  }

  predicate Timed(s: seq<Symbol>) {
    forall i :: 0 <= i < |s| ==> s[i].duration0 >= 0 && s[i].duration1 >= 0
  }

  lemma TimedConcat(a: seq<Symbol>, b: seq<Symbol>)
    requires Timed(a) && Timed(b)
    ensures Timed(a + b)
  {
  }

  lemma PartsTimed(word: seq<bool>)
    ensures Timed(BitSymbols(word)) && Timed(Frame(word)) && Timed([TRAILER])
  {
  }

  lemma FollowingLeads(word: seq<bool>, rep: nat)
    requires rep < 3
    ensures Leads(Wave(Following(word, rep)))
  {
    hide Leads, Wave, Timed;
    PartsTimed(word);
    if rep == 2 {
      TrailerLeads();
    } else {
      var middle := if rep == 0 then BitSymbols(word) + Frame(word) else BitSymbols(word);
      TimedConcat(BitSymbols(word), Frame(word));
      TimedConcat(middle, [TRAILER]);
      LeaderLeads(middle + [TRAILER]);
      assert Following(word, rep) == [LEADER] + (middle + [TRAILER]);
    }
  }

  lemma MessageFrom(word: seq<bool>, rep: nat)
    requires rep < 3
    ensures Message(word)[rep * (|word| + 1)..] == [LEADER] + (BitSymbols(word) + Following(word, rep))
  {
    hide BitSymbols;
    DropFrames(Frame(word), TRAILER, rep);
    assert Frame(word) + Following(word, rep) == [LEADER] + (BitSymbols(word) + Following(word, rep));
  }

  lemma DropFrames(f: seq<Symbol>, last: Symbol, rep: nat)
    requires rep < 3
    ensures (f + f + f + [last])[rep * |f|..] ==
            f + (if rep == 0 then f + f + [last] else if rep == 1 then f + [last] else [last])
  {
    assert rep == 0 || rep == 1 || rep == 2;
  }

  lemma SentSplits(word: seq<bool>, rep: nat) returns (t: seq<Run>)
    requires rep < 3
    ensures Wave(Message(word)[rep * (|word| + 1)..]) ==
            [Run(true, 3000), Run(false, 3000)] + (Wave(BitSymbols(word)) + t)
    ensures Leads(t)
  {
    hide Message, Following, Leads, BitSymbols;
    var rest := BitSymbols(word) + Following(word, rep);
    MessageFrom(word, rep);
    FollowingLeads(word, rep);
    WaveConcat(BitSymbols(word), Following(word, rep));
    assert ([LEADER] + rest)[1..] == rest;
    t := Wave(Following(word, rep));
  }

  lemma LeaderCollected(m: seq<Run>, word: seq<bool>, k: nat)
    requires word != [] && Covers(m, word, k)
    ensures var full, kk := WithLeader(m), if m[0].level then k + 2 else k + 1;
            kk < |full| && Collected(full, kk) == Halves(word)
  {
    hide Units;
    var full := WithLeader(m);
    if m[0].level {
      SliceBehindTwo(full[0], full[1], m, k);
      assert full == [full[0], full[1]] + m;
      assert full[2..k + 2] == m[..k];
      assert [] + Units(m[..k]) == Units(m[..k]);
    } else {
      SliceBehindTwo(full[0], full[1], m[1..], k - 1);
      assert full == [full[0], full[1]] + m[1..];
      assert full[2..k + 1] == m[1..][..k - 1] == m[1..k];
      UnitsOfFirst(m, k);
    }
  }

  lemma UnitsOfFirst(m: seq<Run>, k: nat)
    requires 0 < k <= |m|
    ensures Units(m[..k]) == Unit(m[0]) + Units(m[1..k])
  {
    assert m[..k][1..] == m[1..k];
  }

  lemma SliceBehindTwo(x: Run, y: Run, m: seq<Run>, j: nat)
    requires j <= |m|
    ensures ([x, y] + m)[2..j + 2] == m[..j]
  {
  }

  lemma LeaderDecodable(m: seq<Run>, word: seq<bool>, k: nat)
    requires word != [] && Covers(m, word, k) && Alternating(WithLeader(m))
    ensures Decodable(WithLeader(m), word, if m[0].level then k + 2 else k + 1)
  {
    hide Units, Alternating;
    LeaderCollected(m, word, k);
    forall i | 0 <= i < |WithLeader(m)|
      ensures WithLeader(m)[i].level <==> i % 2 == 0
    {
      AlternatingParity(WithLeader(m), i);
    }
    var shift := if m[0].level then 2 else 1;
    assert forall i :: 2 <= i < |WithLeader(m)| ==> WithLeader(m)[i] == m[i - shift];
    assert WithLeader(m)[k + shift].level == !word[|word| - 1];
  }

  lemma SentDecodable(word: seq<bool>, rep: nat) returns (k: nat)
    requires word != [] && rep < 3
    ensures Decodable(Sent(word, rep), word, k)
  {
    hide Decodable, Covers, Leads, Merge, Wave, Message;
    var t := SentSplits(word, rep);
    var rest := Wave(BitSymbols(word)) + t;
    MergeLeader(rest);
    MergeAlternates(Wave(Message(word)[rep * (|word| + 1)..]));
    k := MergeCovers(word, t);
    LeaderDecodable(Merge(rest), word, k);
    k := if Merge(rest)[0].level then k + 2 else k + 1;
  }

  // ---- The decoder

  predicate WithinTolerance(duration: int, spec: int) {
    spec - TOLERANCE < duration < spec + TOLERANCE
  }

  /** Within 200 microseconds, not counting the limits themselves. */
  lemma ToleranceSpelled(d: int)
    ensures WithinTolerance(d, 2 * UNIT) <==> 1800 < d < 2200
    ensures WithinTolerance(d, 4 * UNIT) <==> 3800 < d < 4200
  {
  }

  function Digit(level: bool): char { if level then '1' else '0' }

  /** Received half-bits as the characters the decoder writes. */
  function Digits(halves: seq<bool>, invert: bool): (d: seq<char>)
    ensures |d| == |halves|
  {
    seq(|halves|, i requires 0 <= i < |halves| => Digit(halves[i] != invert))
  }

  lemma CollectedNext(m: seq<Run>, r: nat)
    requires 2 <= r < |m|
    ensures Collected(m, r + 1) == Collected(m, r) + Unit(m[r])
  {
    assert m[2..r + 1] == m[2..r] + [m[r]];
    UnitsSnoc(m[2..r], m[r]);
  }

  lemma {:induction false} UnitsSnoc(m: seq<Run>, x: Run)
    ensures Units(m + [x]) == Units(m) + Unit(x)
  {
    if m == [] {
      assert m + [x] == [x] && [x][1..] == [];
    } else {
      assert (m + [x])[1..] == m[1..] + [x];
      UnitsSnoc(m[1..], x);
    }
  }

  /** Every run below `k` brings at least one half-bit. */
  lemma {:induction false} CollectedGrows(m: seq<Run>, r: nat, k: nat)
    requires 2 <= r <= k <= |m|
    ensures |Collected(m, r)| + (k - r) <= |Collected(m, k)|
  {
    if r < k {
      CollectedGrows(m, r, k - 1);
      CollectedNext(m, k - 1);
    }
  }

  /** Jitter below the tolerance never confuses the lengths the decoder tells apart. */
  lemma JitterHarmless(nominal: int, duration: int)
    requires -TOLERANCE < duration - nominal < TOLERANCE
    requires nominal in {0, 1000, 2000} || nominal >= 3000
    ensures WithinTolerance(duration, 2 * UNIT) <==> nominal == 2 * UNIT
    ensures nominal in {3000, 4000} ==> (WithinTolerance(duration, 4 * UNIT) <==> nominal == 4 * UNIT)
  {
  }

  /** One run of the buffer: its level once, and once more if it is a double. */
  method PutRun(bits: array<char>, ptr: nat, digit: char, duration: int,
                ghost r: Run, ghost invert: bool, ghost before: seq<bool>)
    returns (next: nat)
    requires ptr + |Unit(r)| <= bits.Length && ptr == |before|
    requires digit == Digit(r.level != invert) && (WithinTolerance(duration, 2 * UNIT) <==> r.dur == 2 * UNIT)
    requires bits[..ptr] == Digits(before, invert)
    modifies bits
    ensures next == ptr + |Unit(r)| && bits[..next] == Digits(before + Unit(r), invert)
  {
    next := ptr + 1;
    bits[ptr] := digit;
    if WithinTolerance(duration, 2 * UNIT) {
      bits[next] := digit;
      next := next + 1;
    }
  }

  ghost predicate PlainLength(r: Run) { r.dur in {0, 1000, 2000} || r.dur >= 3000 }

  /** While half-bits are missing, the next buffer entry holds two runs of the message and fits the bit buffer. */
  lemma EntryInside(m: seq<Run>, word: seq<bool>, k: nat, i: nat)
    requires Decodable(m, word, k) && 1 <= i && 2 * i <= k + 1 && |Collected(m, 2 * i)| < 2 * |word|
    ensures 2 * i + 2 <= k + 1 && PlainLength(m[2 * i]) && PlainLength(m[2 * i + 1])
    ensures Collected(m, 2 * i + 2) == Collected(m, 2 * i) + Unit(m[2 * i]) + Unit(m[2 * i + 1])
    ensures |Collected(m, 2 * i + 2)| <= 2 * |word| + 1
  {
    hide Collected, Unit;
    assert |Collected(m, k)| == 2 * |word|;
    CollectedNext(m, k);
    assert |Unit(m[k])| == 1 by { SingleUnit(m[k]); }
    assert 2 * i != k && 2 * i != k + 1;
    CollectedNext(m, 2 * i);
    CollectedNext(m, 2 * i + 1);
    CollectedGrows(m, 2 * i + 2, k + 1);
  }

  lemma SingleUnit(r: Run)
    requires r.dur != 2 * UNIT
    ensures |Unit(r)| == 1
  {
  }

  lemma DecodableEnd(m: seq<Run>, word: seq<bool>, k: nat)
    requires Decodable(m, word, k)
    ensures word != [] && 2 <= k < |m| && m[k].dur != 2 * UNIT
    ensures Collected(m, k) == Halves(word) && |Collected(m, k)| == 2 * |word|
    ensures k % 2 == 1 <==> word[|word| - 1]
  {
  }

  /** Once enough half-bits are there, they are those of the word, plus one of the next leader after a final 1. */
  lemma EntriesDone(m: seq<Run>, word: seq<bool>, k: nat, i: nat)
    requires Decodable(m, word, k) && 1 <= i && 2 * i <= k + 1 && |Collected(m, 2 * i)| >= 2 * |word|
    ensures |Collected(m, 2 * i)| == 2 * |word| + (if word[|word| - 1] then 1 else 0)
    ensures Halves(word) <= Collected(m, 2 * i)
  {
    hide Collected, Unit, Halves, Decodable;
    DecodableEnd(m, word, k);
    if 2 * i < k {
      CollectedGrows(m, 2 * i, k);
      assert false;
    } else if 2 * i == k + 1 {
      CollectedNext(m, k);
      SingleUnit(m[k]);
      assert k % 2 == 1;
    } else {
      assert k == 2 * i;
    }
  }

  /** Both runs of one buffer entry. */
  method PutEntry(bits: array<char>, ptr: nat, mark: char, space: char, s: Symbol,
                  ghost r0: Run, ghost r1: Run, ghost invert: bool, ghost before: seq<bool>)
    returns (next: nat)
    requires ptr + |Unit(r0)| + |Unit(r1)| <= bits.Length && ptr == |before|
    requires mark == Digit(r0.level != invert) && space == Digit(r1.level != invert)
    requires WithinTolerance(s.duration0, 2 * UNIT) <==> r0.dur == 2 * UNIT
    requires WithinTolerance(s.duration1, 2 * UNIT) <==> r1.dur == 2 * UNIT
    requires bits[..ptr] == Digits(before, invert)
    modifies bits
    ensures next == ptr + |Unit(r0)| + |Unit(r1)|
    ensures bits[..next] == Digits(before + Unit(r0) + Unit(r1), invert)
  {
    next := PutRun(bits, ptr, mark, s.duration0, r0, invert, before);
    next := PutRun(bits, next, space, s.duration1, r1, invert, before + Unit(r0));
  }

  lemma SomeDecodable(word: seq<bool>, rep: nat)
    requires word != [] && rep < 3
    ensures exists k :: Decodable(Sent(word, rep), word, k)
  {
    var k := SentDecodable(word, rep);
  }

  /** The number of merged runs that make up the first repetition received. */
  ghost function FirstRuns(word: seq<bool>, rep: nat): (k: nat)
    requires word != [] && rep < 3
    ensures Decodable(Sent(word, rep), word, k)
  {
    SomeDecodable(word, rep);
    var k :| Decodable(Sent(word, rep), word, k);
    k
  }

  /** There is only one such number. */
  lemma FirstRunsUnique(m: seq<Run>, word: seq<bool>, k: nat, j: nat)
    requires Decodable(m, word, k) && Decodable(m, word, j)
    ensures k == j
  {
    hide Collected;
    if k <= j {
      CollectedGrows(m, k, j);
    } else {
      CollectedGrows(m, j, k);
    }
  }

  /** The buffer holds the runs of the first repetition, each off by less than the tolerance, all levels perhaps
      inverted. Nothing is asked of what follows, except that a run sharing the last entry is no double. */
  ghost predicate ReceivesFirst(symbols: seq<Symbol>, word: seq<bool>, rep: nat, invert: bool)
    requires word != [] && rep < 3
  {
    var m, k := Sent(word, rep), FirstRuns(word, rep);
    k <= 2 * |symbols| && Receives(symbols, m[..k], invert)
    && (k % 2 == 1 ==> !WithinTolerance(Slot(symbols, k).dur, 2 * UNIT))
  }

  /** A buffer with the whole rest of the message is such a buffer. */
  lemma WholeMessageSuffices(symbols: seq<Symbol>, word: seq<bool>, rep: nat, invert: bool)
    requires word != [] && rep < 3 && Receives(symbols, Sent(word, rep), invert)
    ensures ReceivesFirst(symbols, word, rep, invert)
  {
    hide Sent, Collected;
    var m, k := Sent(word, rep), FirstRuns(word, rep);
    forall r | 0 <= r < k
      ensures m[..k][r] == m[r]
    {
    }
    JitterHarmless(m[k].dur, Slot(symbols, k).dur);
  }

  lemma {:induction false} PackPadding(runs: seq<Run>)
    requires |runs| % 2 == 1
    ensures |runs| < 2 * |Pack(runs)| && Slot(Pack(runs), |runs|).dur == 0
  {
    if |runs| > 1 {
      PackPadding(runs[2..]);
      assert Pack(runs)[|runs| / 2] == Pack(runs[2..])[(|runs| - 2) / 2];
    }
  }

  /** So is a buffer with one repetition alone, whatever the errors below the tolerance. */
  lemma FirstRepetitionSuffices(word: seq<bool>, rep: nat, errors: seq<int>, invert: bool)
    requires word != [] && rep < 3 && |errors| == FirstRuns(word, rep)
    requires forall r :: 0 <= r < |errors| ==> -TOLERANCE < errors[r] < TOLERANCE
    ensures ReceivesFirst(Pack(Distort(Sent(word, rep)[..FirstRuns(word, rep)], errors, invert)), word, rep, invert)
  {
    hide Sent, Collected, Pack;
    var first := Sent(word, rep)[..FirstRuns(word, rep)];
    DistortedReceives(first, errors, invert);
    if |first| % 2 == 1 {
      PackPadding(Distort(first, errors, invert));
    }
  }

  /** Both runs of an entry that the decoder reads for the first repetition. */
  lemma EntryReceived(symbols: seq<Symbol>, word: seq<bool>, rep: nat, invert: bool, i: nat)
    requires word != [] && rep < 3 && ReceivesFirst(symbols, word, rep, invert) && 2 * i + 1 <= FirstRuns(word, rep)
    ensures var m := Sent(word, rep);
            i < |symbols| && 2 * i + 1 < |m|
            && (WithinTolerance(symbols[i].duration0, 2 * UNIT) <==> m[2 * i].dur == 2 * UNIT)
            && (WithinTolerance(symbols[i].duration1, 2 * UNIT) <==> m[2 * i + 1].dur == 2 * UNIT)
  {
    hide Sent, Collected;
    var m, k := Sent(word, rep), FirstRuns(word, rep);
    assert Slot(symbols, 2 * i) == Run(symbols[i].level0, symbols[i].duration0);
    assert Slot(symbols, 2 * i + 1) == Run(symbols[i].level1, symbols[i].duration1);
    assert m[..k][2 * i] == m[2 * i];
    JitterHarmless(m[2 * i].dur, symbols[i].duration0);
    if 2 * i + 1 < k {
      assert m[..k][2 * i + 1] == m[2 * i + 1];
      JitterHarmless(m[2 * i + 1].dur, symbols[i].duration1);
    }
  }

  /** The leading entry fixes the levels the decoder uses throughout, and tells whether its space hides a half-bit. */
  lemma LeaderReceived(symbols: seq<Symbol>, word: seq<bool>, rep: nat, invert: bool)
    requires word != [] && rep < 3 && ReceivesFirst(symbols, word, rep, invert)
    ensures var m := Sent(word, rep);
            |symbols| > 0 && |m| > 2 && symbols[0].level0 == (true != invert) && symbols[0].level1 == (false != invert)
            && (WithinTolerance(symbols[0].duration1, 4 * UNIT) <==> m[1].dur == 4 * UNIT)
            && Collected(m, 2) == if m[1].dur == 4 * UNIT then [false] else []
  {
    hide Sent, Collected;
    var m, k := Sent(word, rep), FirstRuns(word, rep);
    assert m[..k][0] == m[0] && m[..k][1] == m[1];
    SlotsOfEntry(symbols, m[..k], invert, 0);
    JitterHarmless(m[1].dur, symbols[0].duration1);
    FirstEntry(m, word, k);
  }

  lemma RunLevels(m: seq<Run>, word: seq<bool>, k: nat, i: nat)
    requires Decodable(m, word, k) && 2 * i + 1 < |m|
    ensures m[2 * i].level && !m[2 * i + 1].level
  {
    hide Collected;
  }

  /** Decodes the first repetition received of a message of `n` data bits; the ghosts name the word that was sent, the
      repetition at whose leader the reception starts, and whether the receiver sees inverted levels. Every character is
      the sent bit, complemented unless inverted. */
  method DecodeManchester(symbols: array<Symbol>, n: nat, decoded: array<char>,
                          ghost word: seq<bool>, ghost rep: nat, ghost invert: bool)
    returns (bitsPtr: nat)
    requires n == |word| > 0 && decoded.Length >= n && rep < 3
    requires ReceivesFirst(symbols[..], word, rep, invert)
    modifies decoded
    ensures forall j :: 0 <= j < n ==> decoded[j] == (if word[j] == invert then '1' else '0')
    ensures bitsPtr == 2 * n + (if word[n - 1] then 1 else 0)
  {
    hide Units, Collected, Digits, Halves, Sent, ReceivesFirst, Decodable;
    ghost var m := Sent(word, rep);
    ghost var k := FirstRuns(word, rep);
    var bits := new char[2 * n + 1];
    bitsPtr := 0;
    var i := 1;
    LeaderReceived(symbols[..], word, rep, invert);
    var mark, space := Digit(symbols[0].level0), Digit(symbols[0].level1);
    if WithinTolerance(symbols[0].duration1, 4 * UNIT) {
      bits[bitsPtr] := space;
      bitsPtr := bitsPtr + 1;
    }
    assert bits[..bitsPtr] == Digits(Collected(m, 2), invert) by {
      DigitsOfFew(Collected(m, 2), invert);
    }
    DecodableEnd(m, word, k);
    while bitsPtr < 2 * n
      invariant 1 <= i && 2 * i <= k + 1
      invariant bitsPtr == |Collected(m, 2 * i)| <= 2 * n + 1
      invariant bits[..bitsPtr] == Digits(Collected(m, 2 * i), invert)
      decreases k + 1 - 2 * i
    {
      EntryInside(m, word, k, i);
      EntryReceived(symbols[..], word, rep, invert, i);
      RunLevels(m, word, k, i);
      bitsPtr := PutEntry(bits, bitsPtr, mark, space, symbols[i], m[2 * i], m[2 * i + 1], invert, Collected(m, 2 * i));
      i := i + 1;
    }
    EntriesDone(m, word, k, i);
    TakeFirstHalves(bits, n, decoded);
    forall j | 0 <= j < n
      ensures decoded[j] == Digit(word[j] == invert)
    {
      FirstHalf(Collected(m, 2 * i), word, invert, j);
      assert bits[2 * j] == bits[..bitsPtr][2 * j];
    }
  }

  /** The first half-bit of every pair is the decoded character. */
  method TakeFirstHalves(bits: array<char>, n: nat, decoded: array<char>)
    requires bits.Length >= 2 * n && decoded.Length >= n && bits != decoded
    modifies decoded
    ensures forall j :: 0 <= j < n ==> decoded[j] == bits[2 * j]
  {
    var i, j := 0, 0;
    while j < n
      invariant j <= n && i == 2 * j
      invariant forall q :: 0 <= q < j ==> decoded[q] == bits[2 * q]
    {
      decoded[j] := bits[i];
      i := i + 2;
      j := j + 1;
    }
  }

  lemma SlotsOfEntry(symbols: seq<Symbol>, m: seq<Run>, invert: bool, i: nat)
    requires Receives(symbols, m, invert) && 2 * i + 1 < |m|
    ensures i < |symbols|
    ensures symbols[i].level0 == (m[2 * i].level != invert) && symbols[i].level1 == (m[2 * i + 1].level != invert)
    ensures -TOLERANCE < symbols[i].duration0 - m[2 * i].dur < TOLERANCE
    ensures -TOLERANCE < symbols[i].duration1 - m[2 * i + 1].dur < TOLERANCE
  {
    assert Slot(symbols, 2 * i) == Run(symbols[i].level0, symbols[i].duration0);
    assert Slot(symbols, 2 * i + 1) == Run(symbols[i].level1, symbols[i].duration1);
  }

  lemma FirstEntry(m: seq<Run>, word: seq<bool>, k: nat)
    requires Decodable(m, word, k)
    ensures Collected(m, 2) == if m[1].dur == 4 * UNIT then [false] else []
  {
  }

  lemma DigitsOfFew(h: seq<bool>, invert: bool)
    ensures h == [] ==> Digits(h, invert) == []
    ensures |h| == 1 ==> Digits(h, invert) == [Digit(h[0] != invert)]
  {
  }

  lemma FirstHalf(h: seq<bool>, word: seq<bool>, invert: bool, j: nat)
    requires Halves(word) <= h && j < |word|
    ensures 2 * j < |h| && Digits(h, invert)[2 * j] == Digit(word[j] == invert)
  {
    assert h[2 * j] == Halves(word)[2 * j];
  }
}
