/** Numbers as text, printed and parsed the way the C and Java libraries do it. */
module Text {
  predicate IsDigit(c: char) { '0' <= c <= '9' }

  function DigitValue(c: char): nat
    requires IsDigit(c)
  {
    (c as int) - ('0' as int)
  }

  function DigitChar(n: nat): (c: char)
    requires n < 10
    ensures IsDigit(c) && DigitValue(c) == n
  {
    ('0' as int + n) as char
  }

  predicate AllDigits(s: string) { forall i :: 0 <= i < |s| ==> IsDigit(s[i]) }

  /** Positional notation without leading zeros. */
  function Numeral(n: nat, base: nat): (s: string)
    requires base == 2 || base == 10
    ensures AllDigits(s) && s != []
  {
    if n < base then [DigitChar(n)]
    else Numeral(n / base, base) + [DigitChar(n % base)]
  }

  /** Value of a string of decimal digits. */
  function ParseInt(s: string): nat
    requires AllDigits(s)
  {
    if s == [] then 0 else 10 * ParseInt(s[..|s| - 1]) + DigitValue(s[|s| - 1])
  }

  /** Zeros in front up to the given width; longer text stays as it is. */
  function Pad(s: string, width: nat): (p: string)
    ensures |p| == if |s| < width then width else |s|
  {
    if |s| < width then seq(width - |s|, i => '0') + s else s
  }

  function Two(n: nat): string { Pad(Numeral(n, 10), 2) }

  predicate IsSpace(c: char) { c == ' ' || '\t' <= c <= '\r' }

  function LeadingNumber(s: string, acc: nat): nat {
    if s != [] && IsDigit(s[0]) then LeadingNumber(s[1..], 10 * acc + DigitValue(s[0])) else acc
  }

  /** The C conversion: white space, a sign, digits, and anything after them ignored. */
  function Atoi(s: string): int {
    if s == [] then 0
    else if IsSpace(s[0]) then Atoi(s[1..])
    else if s[0] == '-' then -(LeadingNumber(s[1..], 0) as int)
    else if s[0] == '+' then LeadingNumber(s[1..], 0)
    else LeadingNumber(s, 0)
  }

  lemma ShortValue(s: string)
    requires AllDigits(s) && |s| <= 2
    ensures ParseInt(s) == if |s| == 0 then 0 else if |s| == 1 then DigitValue(s[0])
                           else 10 * DigitValue(s[0]) + DigitValue(s[1])
  {
    if |s| > 0 {
      assert s[..1][..0] == [];
    }
  }

  lemma {:induction false} LeadingOfDigits(s: string, acc: nat, more: string)
    requires AllDigits(s)
    ensures LeadingNumber(s + more, acc) == LeadingNumber(more, LeadingNumber(s, acc))
  {
    if s == [] {
      assert s + more == more;
    } else {
      assert (s + more)[1..] == s[1..] + more;
      LeadingOfDigits(s[1..], 10 * acc + DigitValue(s[0]), more);
    }
  }

  lemma {:induction false} LeadingIsValue(s: string)
    requires AllDigits(s)
    ensures LeadingNumber(s, 0) == ParseInt(s)
  {
    if s != [] {
      var init, last := s[..|s| - 1], s[|s| - 1];
      LeadingIsValue(init);
      assert s == init + [last];
      LeadingOfDigits(init, 0, [last]);
      assert [last][1..] == [];
    }
  }

  lemma AtoiOfDigits(s: string)
    requires AllDigits(s)
    ensures Atoi(s) == ParseInt(s)
  {
    LeadingIsValue(s);
  }

  lemma TwoReads(n: nat)
    requires n < 100
    ensures |Two(n)| == 2 && AllDigits(Two(n)) && Atoi(Two(n)) == n
  {
    if n >= 10 {
      assert Numeral(n / 10, 10) == [DigitChar(n / 10)];
    }
    AtoiOfDigits(Two(n));
    ShortValue(Two(n));
  }

  lemma DigitsAreValues(c: char)
    requires IsDigit(c)
    ensures DigitValue(c) < 10 && DigitChar(DigitValue(c)) == c
  {
  }

  /** One more digit at the end, of the value and of the numeral. */
  lemma ValueStep(s: string, c: char)
    requires AllDigits(s) && IsDigit(c)
    ensures ParseInt(s + [c]) == 10 * ParseInt(s) + DigitValue(c)
  {
    assert (s + [c])[..|s|] == s;
  }

  lemma NumeralStep(x: nat, c: char)
    requires x > 0 && IsDigit(c)
    ensures Numeral(10 * x + DigitValue(c), 10) == Numeral(x, 10) + [c]
  {
    var d := DigitValue(c);
    DigitsAreValues(c);
    assert (10 * x + d) / 10 == x && (10 * x + d) % 10 == d;
  }

  lemma OneDigit(c: char)
    requires IsDigit(c)
    ensures Numeral(ParseInt([c]), 10) == [c] && (c != '0' ==> ParseInt([c]) > 0)
  {
    ShortValue([c]);
    DigitsAreValues(c);
  }

  /** Printing the value of a numeral gives the numeral back, if it has no needless leading zero. */
  lemma {:induction false} NumeralOfValue(s: string)
    requires AllDigits(s) && s != [] && (|s| > 1 ==> s[0] != '0')
    ensures Numeral(ParseInt(s), 10) == s
    ensures s != "0" ==> ParseInt(s) > 0
  {
    hide Numeral, ParseInt;
    var init, last := s[..|s| - 1], s[|s| - 1];
    assert s == init + [last];
    if init == [] {
      assert s == [last];
      OneDigit(last);
    } else {
      assert init[0] == s[0];
      NumeralOfValue(init);
      ValueStep(init, last);
      NumeralStep(ParseInt(init), last);
    }
  }

  /** Parsing a printed number gives it back. */
  lemma {:induction false} ValueOfNumeral(n: nat)
    ensures ParseInt(Numeral(n, 10)) == n
  {
    var s := Numeral(n, 10);
    if n < 10 {
      assert s[..0] == [];
    } else {
      ValueOfNumeral(n / 10);
      assert s[..|s| - 1] == Numeral(n / 10, 10);
    }
  }

  /** The characters themselves: digits from '0' to '9', written from the most significant on, zeros in front. */
  lemma NumbersSpelled()
    ensures DigitValue('0') == 0 && DigitValue('1') == 1 && DigitValue('2') == 2 && DigitValue('3') == 3
    ensures DigitValue('4') == 4 && DigitValue('5') == 5 && DigitValue('6') == 6 && DigitValue('7') == 7
    ensures DigitValue('8') == 8 && DigitValue('9') == 9
    ensures Numeral(42, 10) == "42" && Numeral(6, 2) == "110" && Two(7) == "07" && Two(30) == "30"
  {
    assert Numeral(4, 10) == "4" && Numeral(1, 2) == "1" && Numeral(3, 2) == "11";
    assert Numeral(3, 10) == "3" && Numeral(7, 10) == "7";
  }

  /** The conversion skips white space, takes one sign, and stops at the first other character. */
  lemma ConversionsSpelled()
    ensures Atoi("7 ") == 7 && Atoi(" 7") == 7 && Atoi("-7") == -7 && Atoi("+7") == 7 && Atoi("7x") == 7
    ensures Atoi("") == 0 && Atoi("x7") == 0 && Atoi("23") == 23
  {
    assert " 7"[1..] == "7" && "-7"[1..] == "7" && "+7"[1..] == "7" && "7x"[1..] == "x" && "7 "[1..] == " ";
    assert "23"[1..] == "3" && "7"[1..] == "" && "3"[1..] == "";
    assert LeadingNumber("3", 2) == 23;
    assert LeadingNumber("7", 0) == 7;
  }
}
