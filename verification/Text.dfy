/** Characters, decimal numbers and line breaks. Strings are sequences of code points. */
module Text {

  /** Where the first \r or \n stands; the length if there is none. */
  function FirstBreak(s: string): (i: nat)
    ensures i <= |s|
    ensures i < |s| ==> s[i] == '\r' || s[i] == '\n'
    ensures forall k :: 0 <= k < i ==> s[k] != '\r' && s[k] != '\n'
  {
    if s == "" || s[0] == '\r' || s[0] == '\n' then 0 else 1 + FirstBreak(s[1..])
  }

  /** No line break inside. */
  predicate OneLine(s: string) {
    forall i :: 0 <= i < |s| ==> s[i] != '\r' && s[i] != '\n'
  }

  /** A first line that is followed by a break is found whole. */
  lemma FirstBreakAt(a: string, c: char, rest: string)
    requires OneLine(a) && (c == '\r' || c == '\n')
    ensures FirstBreak(a + [c] + rest) == |a|
  {
    var s := a + [c] + rest;
    assert s[|a|] == c;
    assert forall k :: 0 <= k < |a| ==> s[k] == a[k];
  }

  function Digit(d: nat): char
    requires d < 10
  {
    "0123456789"[d]
  }

  /** strconv.Itoa and %d. */
  function Decimal(n: int): (s: string)
    ensures s != ""
    ensures forall i :: 0 <= i < |s| ==> s[i] == '-' || '0' <= s[i] <= '9'
    decreases n < 0, if n < 0 then -n else n
  {
    if n < 0 then "-" + Decimal(-n)
    else if n < 10 then [Digit(n)]
    else Decimal(n / 10) + [Digit(n % 10)]
  }

  // ------------------------------------------------------------ reading a number back

  predicate IsDigit(c: char) { '0' <= c <= '9' }

  /** What a row of digits stands for. */
  function Digits(s: string): int {
    if s == "" then 0 else Digits(s[..|s| - 1]) * 10 + (s[|s| - 1] as int - '0' as int)
  }

  /** What a numeral stands for. */
  function NumberOf(s: string): int {
    if s != "" && s[0] == '-' then -Digits(s[1..]) else Digits(s)
  }

  /** Digits only, and no zero in front of others. */
  predicate PlainDigits(s: string) {
    s != "" && (forall i :: 0 <= i < |s| ==> IsDigit(s[i])) && (|s| > 1 ==> s[0] != '0')
  }

  /** A number's only spelling: a minus sign in front exactly of the negative ones. */
  predicate Numeral(s: string) {
    PlainDigits(s) || (s != "" && s[0] == '-' && PlainDigits(s[1..]) && s[1] != '0')
  }

  lemma DecimalStep(n: nat)
    ensures n < 10 ==> Decimal(n) == [Digit(n)]
    ensures n >= 10 ==> Decimal(n) == Decimal(n / 10) + [Digit(n % 10)]
    ensures n > 0 ==> Decimal(0 - n) == "-" + Decimal(n)
  {
  }

  lemma DigitIs(d: nat)
    requires d < 10
    ensures Digit(d) as int == '0' as int + d && IsDigit(Digit(d))
  {
  }

  lemma DigitsSnoc(s: string, c: char)
    ensures Digits(s + [c]) == Digits(s) * 10 + (c as int - '0' as int)
  {
    assert (s + [c])[..|s|] == s;
  }

  lemma PlainSnoc(s: string, c: char)
    requires IsDigit(c)
    ensures PlainDigits([c])
    ensures PlainDigits(s) && s[0] != '0' ==> PlainDigits(s + [c])
  {
  }

  lemma {:induction false} DecimalIsPlain(n: nat)
    ensures PlainDigits(Decimal(n)) && Digits(Decimal(n)) == n
    ensures n > 0 ==> Decimal(n)[0] != '0'
    decreases n
  {
    hide Decimal, Digit, Digits, PlainDigits;
    DecimalStep(n);
    DigitIs(n % 10);
    if n < 10 {
      NoDigits();
      DigitsSnoc("", Digit(n));
      PlainSnoc("", Digit(n));
      assert "" + [Digit(n)] == [Digit(n)];
    } else {
      DecimalIsPlain(n / 10);
      DigitsSnoc(Decimal(n / 10), Digit(n % 10));
      PlainSnoc(Decimal(n / 10), Digit(n % 10));
    }
  }

  lemma NoDigits()
    ensures Digits("") == 0
  {
  }

  /** The digit printed for a character is that character. */
  lemma DigitOf(c: char)
    requires IsDigit(c)
    ensures 0 <= c as int - '0' as int < 10 && Digit(c as int - '0' as int) == c
  {
    DigitIs(c as int - '0' as int);
  }

  lemma {:induction false} PlainIsDecimal(s: string)
    requires PlainDigits(s)
    ensures Digits(s) >= 0 && Decimal(Digits(s)) == s
    ensures s[0] != '0' ==> Digits(s) > 0
    decreases |s|
  {
    hide Decimal, Digit, Digits;
    var n := |s| - 1;
    var front, d := s[..n], s[n] as int - '0' as int;
    assert s == front + [s[n]];
    DigitOf(s[n]);
    DigitsSnoc(front, s[n]);
    if n == 0 {
      NoDigits();
    } else {
      PlainIsDecimal(front);
      LastDigit(Digits(front), d);
    }
    DecimalStep(Digits(s));
  }

  lemma LastDigit(front: int, d: int)
    requires front >= 0 && 0 <= d < 10
    ensures (front * 10 + d) / 10 == front && (front * 10 + d) % 10 == d
  {
  }

  /** A printed number reads back as itself, and only its own numeral prints it. */
  lemma NumberOfDecimal(n: int)
    ensures NumberOf(Decimal(n)) == n && Numeral(Decimal(n))
  {
    hide Decimal, Digits;
    if n < 0 {
      DecimalIsPlain(-n);
      DecimalStep(-n);
      assert Decimal(n)[1..] == Decimal(-n);
    } else {
      DecimalIsPlain(n);
      assert IsDigit(Decimal(n)[0]);
    }
  }

  lemma NumberOfMinus(t: string)
    ensures NumberOf("-" + t) == -Digits(t)
  {
    hide Digits;
    assert ("-" + t)[1..] == t;
  }

  lemma MinusIsDecimal(t: string)
    requires PlainDigits(t) && t[0] != '0'
    ensures Decimal(-Digits(t)) == "-" + t
  {
    hide Decimal, Digits, PlainDigits;
    PlainIsDecimal(t);
    DecimalStep(Digits(t));
  }

  lemma DecimalOfNumber(s: string)
    requires Numeral(s)
    ensures Decimal(NumberOf(s)) == s
  {
    hide Decimal, Digits;
    if s[0] == '-' {
      MinusIsDecimal(s[1..]);
      NumberOfMinus(s[1..]);
      assert s == "-" + s[1..];
    } else {
      PlainIsDecimal(s);
    }
  }

  /** Different numbers are printed differently. */
  lemma DecimalsDiffer(m: int, n: int)
    requires m != n
    ensures Decimal(m) != Decimal(n)
  {
    NumberOfDecimal(m);
    NumberOfDecimal(n);
  }

  /** Where a character first stands; the length if it does not occur. */
  function Find(s: string, c: char): (i: nat)
    ensures i <= |s|
    ensures i < |s| ==> s[i] == c
    ensures forall k :: 0 <= k < i ==> s[k] != c
  {
    if s == "" || s[0] == c then 0 else 1 + Find(s[1..], c)
  }

  lemma FindAt(a: string, c: char, rest: string)
    requires c !in a
    ensures Find(a + [c] + rest, c) == |a|
  {
    var s := a + [c] + rest;
    assert s[|a|] == c;
    assert forall k :: 0 <= k < |a| ==> s[k] == a[k] && a[k] in a;
  }
}
