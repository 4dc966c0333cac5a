/** Schedule commands: how the app prints one and how the server reads it back. */
module Commands {
  import opened Text
  import opened WeekTime
  import opened Schedule

  // ---- The app

  /** The dialog's mask: the selections folded left to right, so day 0 ends up most significant. */
  function FoldDays(sel: seq<bool>): nat {
    if sel == [] then 0 else 2 * FoldDays(sel[..|sel| - 1]) + (if sel[|sel| - 1] then 1 else 0)
  }

  /** What the dialog shows for a mask fetched from the server: day `d` is bit `d`. */
  function Shown(mask: nat): seq<bool> { seq(7, d requires 0 <= d < 7 => DayOn(mask, d)) }

  /** The four times and the mask, whose binary digits are printed as if they were decimal. */
  function Row(on: Time, off: Time, mask: nat): string {
    Two(on.hour) + " " + Two(on.minute) + " " + Two(off.hour) + " " + Two(off.minute)
    + " " + Pad(Numeral(ParseInt(Numeral(mask, 2)), 10), 7)
  }

  function Command(index: nat, on: Time, off: Time, mask: nat): string {
    Numeral(index, 10) + " " + Row(on, off, mask)
  }

  // ---- The server

  /** A new row, or a row number with the length it was written in; length 0 is malformed. */
  datatype IndexField = New | Index(length: nat, value: nat)

  function IndexOf(data: string): (f: IndexField)
    requires |data| > 2
    ensures f.Index? ==> f.length <= 2 && forall i :: 0 <= i < f.length ==> IsDigit(data[i])
  {
    if data[0] == 'n' && data[1] == ' ' then New
    else if !IsDigit(data[0]) then Index(0, 0)
    else if !IsDigit(data[1]) then Index(1, DigitValue(data[0]))
    else Index(2, 10 * DigitValue(data[0]) + DigitValue(data[1]))
  }

  method ParseIndex(data: string) returns (f: IndexField)
    requires |data| > 2
    ensures f == IndexOf(data)
  {
    if data[0] == 'n' && data[1] == ' ' {
      return New;
    }
    var len := 0;
    while len < 2 && IsDigit(data[len]) && data[len] != ' '
      invariant len <= 2 && forall i :: 0 <= i < len ==> IsDigit(data[i])
    {
      len := len + 1;
    }
    AtoiOfDigits(data[..len]);
    ShortValue(data[..len]);
    f := Index(len, Atoi(data[..len]));
  }

  /** The `j`-th number of a row: two characters wide, then a separator nobody looks at. */
  function Field(data: string, j: nat): int
    requires j < 4 && |data| >= 19
  {
    Atoi(data[3 * j..3 * j + 2])
  }

  /** Even fields are hours, odd ones minutes. */
  predicate Accepts(j: nat, v: int) { 0 <= v <= (if j % 2 == 0 then 23 else 59) }

  function WithField(e: Entry, j: nat, v: nat): Entry
    requires j < 4
  {
    match j
    case 0 => e.(on := e.on.(hour := v))
    case 1 => e.(on := e.on.(minute := v))
    case 2 => e.(off := e.off.(hour := v))
    case _ => e.(off := e.off.(minute := v))
  }

  /** The row after its first `n` fields were stored. */
  function Filled(e: Entry, data: string, n: nat): Entry
    requires n <= 4 && |data| >= 19 && forall j :: 0 <= j < n ==> Accepts(j, Field(data, j))
  {
    if n == 0 then e
    else
      assert Accepts(n - 1, Field(data, n - 1));
      WithField(Filled(e, data, n - 1), n - 1, Field(data, n - 1))
  }

  /** How many fields are accepted before the first that is not. */
  function Accepted(data: string, from: nat): (n: nat)
    requires from <= 4 && |data| >= 19
    ensures from <= n <= 4 && (forall j :: from <= j < n ==> Accepts(j, Field(data, j)))
    ensures n < 4 ==> !Accepts(n, Field(data, n))
    decreases 4 - from
  {
    if from == 4 || !Accepts(from, Field(data, from)) then from else Accepted(data, from + 1)
  }

  /** Character `d` of the last field selects weekday `d`. */
  function DayMask(days: string, n: nat): nat
    requires n <= 7 <= |days|
  {
    if n == 0 then 0 else DayMask(days, n - 1) + (if days[n - 1] == '1' then DayBit(n - 1) else 0)
  }

  predicate WellFormed(data: string)
    requires |data| >= 19
  {
    Accepted(data, 0) == 4
  }

  /** The row after a command; a bad field leaves the ones before it stored. */
  function Transferred(e: Entry, data: string): Entry
    requires |data| >= 19
  {
    var n := Accepted(data, 0);
    var f := Filled(e, data, n);
    if n < 4 then f else f.(days := DayMask(data[12..], 7), isValid := true, isOn := true)
  }

  method TransferData(entries: array<Entry>, i: nat, data: string) returns (ok: bool)
    requires i < entries.Length && |data| >= 19
    modifies entries
    ensures ok == WellFormed(data)
    ensures entries[..] == old(entries[..])[i := Transferred(old(entries[i]), data)]
  {
    hide Atoi;
    for j := 0 to 4
      invariant Accepted(data, 0) == Accepted(data, j)
      invariant entries[..] == old(entries[..])[i := Filled(old(entries[i]), data, j)]
    {
      var v := Atoi(data[3 * j..3 * j + 2]);
      if j % 2 == 0 {
        if v < 0 || v > 23 {
          return false;
        }
      } else if v < 0 || v > 59 {
        return false;
      }
      entries[i] := WithField(entries[i], j, v);
    }
    entries[i] := entries[i].(days := 0);
    for j := 0 to 7
      invariant entries[..] == old(entries[..])[i := Filled(old(entries[i]), data, 4).(days := DayMask(data[12..], j))]
    {
      if data[12 + j] == '1' {
        entries[i] := entries[i].(days := entries[i].days + DayBit(j));
      }
    }
    entries[i] := entries[i].(isValid := true, isOn := true);
    return true;
  }

  /** No command, malformed or not, ever puts a time out of range into the table. */
  lemma TimesStayValid(t: Table, i: nat, data: string)
    requires TimesValid(t) && i < |t| && |data| >= 19
    ensures TimesValid(t[i := Transferred(t[i], data)])
  {
    var n := Accepted(data, 0);
    assert n >= 1 ==> Accepts(0, Field(data, 0));
    assert n >= 2 ==> Accepts(1, Field(data, 1));
    assert n >= 3 ==> Accepts(2, Field(data, 2));
    assert n >= 4 ==> Accepts(3, Field(data, 3));
    hide Atoi, Accepted;
    FilledStaysValid(t[i], data, n);
  }

  lemma FilledStaysValid(e: Entry, data: string, n: nat)
    requires |data| >= 19 && n <= 4 && (forall j :: 0 <= j < n ==> Accepts(j, Field(data, j)))
    requires e.on.Valid() && e.off.Valid()
    ensures Filled(e, data, n).on.Valid() && Filled(e, data, n).off.Valid()
  {
    hide Field;
  }

  lemma {:induction false} MaskBelow(days: string, n: nat)
    requires n <= 7 <= |days|
    ensures DayMask(days, n) < if n < 7 then DayBit(n) else 128
  {
    if n > 0 {
      MaskBelow(days, n - 1);
    }
  }

  /** Weekday `d` is selected exactly when its character is '1'. */
  lemma {:induction false} MaskSelects(days: string, n: nat, d: Day)
    requires d < n <= 7 <= |days|
    ensures DayOn(DayMask(days, n), d) <==> days[d] == '1'
  {
    hide DayOn, DayBit;
    MaskBelow(days, n - 1);
    if d < n - 1 {
      MaskSelects(days, n - 1, d);
      HigherBit(DayMask(days, n - 1), d, n - 1);
    } else {
      TopBit(DayMask(days, d), d);
    }
  }

  lemma TopBit(mask: nat, d: Day)
    requires mask < DayBit(d)
    ensures DayOn(mask + DayBit(d), d) && !DayOn(mask, d)
  {
  }

  lemma HigherBit(mask: nat, d: Day, e: Day)
    requires d < e
    ensures DayOn(mask + DayBit(e), d) <==> DayOn(mask, d)
  {
    var k := if e == d + 1 then 1 else if e == d + 2 then 2 else if e == d + 3 then 4
             else if e == d + 4 then 8 else if e == d + 5 then 16 else 32;
    assert DayBit(e) == 2 * DayBit(d) * k;
    EvenMultiple(mask, DayBit(d), k);
  }

  lemma EvenMultiple(m: nat, b: nat, k: nat)
    requires b in {1, 2, 4, 8, 16, 32, 64}
    ensures (m + 2 * b * k) / b % 2 == m / b % 2
  {
    assert (m + 2 * b * k) / b == m / b + 2 * k;
  }

  // ---- There and back

  lemma {:induction false} BinaryLeads(n: nat)
    ensures |Numeral(n, 2)| > 1 ==> Numeral(n, 2)[0] != '0'
    ensures n > 0 ==> Numeral(n, 2)[0] != '0'
  {
    if n >= 2 {
      BinaryLeads(n / 2);
    } else if n == 1 {
      assert DigitChar(1) == '1';
    }
  }

  function DayText(sel: seq<bool>): string { seq(|sel|, i requires 0 <= i < |sel| => if sel[i] then '1' else '0') }

  lemma PadOneMore(s: string, c: char, width: nat)
    requires |s| <= width
    ensures Pad(s + [c], width + 1) == Pad(s, width) + [c]
  {
  }

  lemma NumeralOfBit(bit: nat)
    requires bit < 2
    ensures Numeral(bit, 2) == [DigitChar(bit)] == if bit == 0 then "0" else "1"
  {
  }

  lemma NumeralOfTwice(x: nat, bit: nat)
    requires x > 0 && bit < 2
    ensures Numeral(2 * x + bit, 2) == Numeral(x, 2) + [DigitChar(bit)]
  {
    assert (2 * x + bit) / 2 == x && (2 * x + bit) % 2 == bit;
  }

  /** The binary numeral of the folded selection, padded, spells the selection from day 0 on. */
  lemma {:induction false} FoldSpells(sel: seq<bool>)
    requires sel != []
    ensures Pad(Numeral(FoldDays(sel), 2), |sel|) == DayText(sel)
  {
    hide Numeral;
    var init, last := sel[..|sel| - 1], sel[|sel| - 1];
    var bit := if last then 1 else 0;
    NumeralOfBit(0);
    NumeralOfBit(bit);
    assert DayText(sel) == DayText(init) + [DigitChar(bit)];
    if init == [] {
      assert FoldDays(init) == 0;
    } else {
      FoldSpells(init);
      var x := FoldDays(init);
      PadOneMore(Numeral(x, 2), DigitChar(bit), |init|);
      if x == 0 {
        assert Pad([DigitChar(bit)], |sel|) == Pad("0", |init|) + [DigitChar(bit)];
      } else {
        NumeralOfTwice(x, bit);
      }
    }
  }

  lemma RowText(on: Time, off: Time, sel: seq<bool>)
    requires on.Valid() && off.Valid() && |sel| == 7
    ensures Row(on, off, FoldDays(sel)) ==
            Two(on.hour) + " " + Two(on.minute) + " " + Two(off.hour) + " " + Two(off.minute) + " " + DayText(sel)
  {
    BinaryLeads(FoldDays(sel));
    NumeralOfValue(Numeral(FoldDays(sel), 2));
    FoldSpells(sel);
  }

  lemma RowReads(data: string, on: Time, off: Time, sel: seq<bool>, stale: string, e: Entry)
    requires on.Valid() && off.Valid() && |sel| == 7
    requires data == Row(on, off, FoldDays(sel)) + stale
    ensures |data| >= 19 && WellFormed(data)
    ensures Transferred(e, data) == Entry(on, off, DayMask(DayText(sel), 7), true, true)
  {
    hide Two, Atoi, FoldDays, Row;
    RowText(on, off, sel);
    TwoReads(on.hour);
    TwoReads(on.minute);
    TwoReads(off.hour);
    TwoReads(off.minute);
    assert data[0..2] == Two(on.hour) && data[3..5] == Two(on.minute);
    assert data[6..8] == Two(off.hour) && data[9..11] == Two(off.minute);
    assert data[12..19] == DayText(sel);
    SameMask(data[12..], DayText(sel), 7);
    AllAccepted(data, on, off, e);
  }

  lemma AllAccepted(data: string, on: Time, off: Time, e: Entry)
    requires |data| >= 19 && on.Valid() && off.Valid()
    requires Atoi(data[0..2]) == on.hour && Atoi(data[3..5]) == on.minute
    requires Atoi(data[6..8]) == off.hour && Atoi(data[9..11]) == off.minute
    ensures Accepted(data, 0) == 4 && Filled(e, data, 4) == e.(on := on, off := off)
  {
    hide Atoi;
    assert Field(data, 0) == on.hour && Field(data, 1) == on.minute;
    assert Field(data, 2) == off.hour && Field(data, 3) == off.minute;
    assert Accepted(data, 4) == 4;
    assert Accepted(data, 3) == 4;
    assert Accepted(data, 2) == 4;
    assert Accepted(data, 1) == 4;
    assert Filled(e, data, 1) == e.(on := e.on.(hour := on.hour));
    assert Filled(e, data, 2) == e.(on := on);
    assert Filled(e, data, 3) == e.(on := on, off := e.off.(hour := off.hour));
  }

  lemma {:induction false} SameMask(s: string, t: string, n: nat)
    requires n <= 7 <= |s| && 7 <= |t| && s[..n] == t[..n]
    ensures DayMask(s, n) == DayMask(t, n)
  {
    if n > 0 {
      assert s[n - 1] == s[..n][n - 1] == t[..n][n - 1] == t[n - 1];
      assert s[..n - 1] == s[..n][..n - 1] == t[..n][..n - 1] == t[..n - 1];
      SameMask(s, t, n - 1);
    }
  }

  lemma IndexReads(index: nat, more: string)
    requires index < 100 && |more| > 2 && more[0] == ' '
    ensures IndexOf(Numeral(index, 10) + more) == Index(|Numeral(index, 10)|, index)
  {
    if index >= 10 {
      assert Numeral(index / 10, 10) == [DigitChar(index / 10)];
    }
  }

  lemma CommandSplits(text: string, row: string, stale: string)
    ensures var data := text + " " + row + stale;
            data == text + (" " + row + stale) && data[|text| + 1..] == row + stale
  {
  }

  /** Whatever the app saves, the server stores: row number, all four times, and exactly the selected weekdays. The
      fold reverses the days and the left-to-right scan reverses them back. `stale` is what the buffer held before. */
  lemma RoundTrip(index: nat, on: Time, off: Time, sel: seq<bool>, stale: string, e: Entry)
    requires index < 100 && on.Valid() && off.Valid() && |sel| == 7
    ensures var data := Command(index, on, off, FoldDays(sel)) + stale;
            |data| > 2 && IndexOf(data).Index? && IndexOf(data).value == index && IndexOf(data).length > 0
            && var row := data[IndexOf(data).length + 1..];
            |row| >= 19 && WellFormed(row)
            && Transferred(e, row) == Entry(on, off, DayMask(DayText(sel), 7), true, true)
    ensures forall d: Day :: DayOn(DayMask(DayText(sel), 7), d) <==> sel[d]
  {
    hide Transferred, WellFormed, Row, IndexOf, DayMask, DayOn, Atoi, FoldDays;
    var row := Row(on, off, FoldDays(sel));
    RowReads(row + stale, on, off, sel, stale, e);
    CommandSplits(Numeral(index, 10), row, stale);
    IndexReads(index, " " + row + stale);
    forall d: Day
      ensures DayOn(DayMask(DayText(sel), 7), d) <==> sel[d]
    {
      MaskSelects(DayText(sel), 7, d);
    }
  }

  /** Opening the dialog on a stored row and saving it unchanged leaves the weekdays as they were. */
  lemma EditKeepsDays(mask: nat)
    requires mask < 128
    ensures DayMask(DayText(Shown(mask)), 7) == mask
  {
    var text := DayText(Shown(mask));
    forall d: Day
      ensures DayOn(DayMask(text, 7), d) <==> DayOn(mask, d)
    {
      MaskSelects(text, 7, d);
    }
    MaskBelow(text, 7);
    BitsDetermine(DayMask(text, 7), mask);
  }

  lemma BitsDetermine(m: nat, n: nat)
    requires m < 128 && n < 128 && forall d: Day :: DayOn(m, d) <==> DayOn(n, d)
    ensures m == n
  {
    hide DayOn;
    assert forall d: Day :: Bit(m, d) == Bit(n, d);
    hide Bit;
    BitSum(m);
    BitSum(n);
  }

  function Bit(m: nat, d: Day): nat { if DayOn(m, d) then DayBit(d) else 0 }

  lemma HighPart(m: nat, b: nat)
    requires b in {1, 2, 4, 8, 16, 32, 64}
    ensures b * (m / b) == 2 * b * (m / (2 * b)) + b * (m / b % 2)
  {
  }

  lemma BitSum(m: nat)
    requires m < 128
    ensures m == Bit(m, 0) + Bit(m, 1) + Bit(m, 2) + Bit(m, 3) + Bit(m, 4) + Bit(m, 5) + Bit(m, 6)
  {
    forall d: Day
      ensures Bit(m, d) == DayBit(d) * (m / DayBit(d)) - 2 * DayBit(d) * (m / (2 * DayBit(d)))
    {
      HighPart(m, DayBit(d));
    }
    hide Bit;
    assert m / 128 == 0;
  }

  /** The dialog's refusal of a zero mask is a refusal of the empty selection. */
  lemma {:induction false} EmptyFold(sel: seq<bool>)
    ensures FoldDays(sel) == 0 <==> true !in sel
  {
    if sel != [] {
      EmptyFold(sel[..|sel| - 1]);
      assert sel == sel[..|sel| - 1] + [sel[|sel| - 1]];
    }
  }

  // ---- The texts themselves

  /** A command as the app prints it: row number, on-time, off-time, and one digit a weekday from Sunday on. */
  lemma CommandSpelled()
    ensures Command(3, Time(8, 5), Time(19, 30), FoldDays([true, false, false, false, false, true, false])) ==
            "3 08 05 19 30 1000010"
  {
    hide Row, Two, Atoi, FoldDays;
    var sel := [true, false, false, false, false, true, false];
    RowText(Time(8, 5), Time(19, 30), sel);
    assert DayText(sel) == "1000010";
    assert Two(8) == "08" && Two(5) == "05" && Two(19) == "19" && Two(30) == "30" by { TwosSpelled(); }
    assert Numeral(3, 10) == "3";
  }

  lemma TwosSpelled()
    ensures Two(8) == "08" && Two(5) == "05" && Two(19) == "19" && Two(30) == "30"
  {
    assert Numeral(1, 10) == "1" && Numeral(3, 10) == "3";
  }

  /** Character positions and limits: hours below 24 and minutes below 60 at characters 0, 3, 6 and 9; the first field
      out of its limits ends the transfer, with the fields before it stored and everything else as it was. */
  lemma TransferredFields(e: Entry, data: string)
    requires |data| >= 19
    ensures var a, b, c, d := Atoi(data[0..2]), Atoi(data[3..5]), Atoi(data[6..8]), Atoi(data[9..11]);
            if !(0 <= a < 24) then Transferred(e, data) == e && !WellFormed(data)
            else if !(0 <= b < 60) then Transferred(e, data) == e.(on := Time(a, e.on.minute)) && !WellFormed(data)
            else if !(0 <= c < 24) then Transferred(e, data) == e.(on := Time(a, b)) && !WellFormed(data)
            else if !(0 <= d < 60) then
              Transferred(e, data) == e.(on := Time(a, b), off := Time(c, e.off.minute)) && !WellFormed(data)
            else
              WellFormed(data)
              && Transferred(e, data) == Entry(Time(a, b), Time(c, d), DayMask(data[12..], 7), true, true)
  {
    hide Atoi, DayMask;
    assert Accepted(data, 4) == 4;
    assert Field(data, 0) == Atoi(data[0..2]) && Field(data, 1) == Atoi(data[3..5]);
    assert Field(data, 2) == Atoi(data[6..8]) && Field(data, 3) == Atoi(data[9..11]);
    FieldByField(e, data);
  }

  lemma FieldByField(e: Entry, data: string)
    requires |data| >= 19
    ensures Filled(e, data, 0) == e
    ensures Accepts(0, Field(data, 0)) ==>
              Filled(e, data, 1) == e.(on := Time(Field(data, 0), e.on.minute))
              && (Accepts(1, Field(data, 1)) ==>
                    Filled(e, data, 2) == e.(on := Time(Field(data, 0), Field(data, 1)))
                    && (Accepts(2, Field(data, 2)) ==>
                          Filled(e, data, 3) == e.(on := Time(Field(data, 0), Field(data, 1)),
                                                   off := Time(Field(data, 2), e.off.minute))
                          && (Accepts(3, Field(data, 3)) ==>
                                Filled(e, data, 4) == e.(on := Time(Field(data, 0), Field(data, 1)),
                                                         off := Time(Field(data, 2), Field(data, 3))))))
  {
    hide Field;
  }
}
