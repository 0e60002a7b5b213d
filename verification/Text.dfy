/** Decimal text as printf and the stream and sscanf readers treat it. */
module Text {
  import opened Wrappers

  function DigitChar(d: int): (c: char)
    requires 0 <= d < 10
    ensures IsDigit(c) && DigitValue(c) == d
    ensures c == "0123456789"[d]
  {
    '0' + d as char
  }

  predicate IsDigit(c: char) { '0' <= c <= '9' }

  function DigitValue(c: char): (d: int)
    requires IsDigit(c)
    ensures 0 <= d < 10 && c == "0123456789"[d]
  {
    c as int - '0' as int
  }

  /** %u / %ld of a non-negative value. */
  function Decimal(n: nat): (s: string)
    ensures s != []
    ensures forall c | c in s :: IsDigit(c)
  {
    if n < 10 then [DigitChar(n)] else Decimal(n / 10) + [DigitChar(n % 10)]
  }

  /** %ld of any value. */
  function SignedDecimal(n: int): string {
    if n < 0 then "-" + Decimal(-n) else Decimal(n)
  }

  /** Value of a run of digits. */
  function DigitsValue(s: string): (n: nat)
    requires forall c | c in s :: IsDigit(c)
  {
    if s == [] then 0 else 10 * DigitsValue(s[..|s| - 1]) + DigitValue(s[|s| - 1])
  }

  lemma {:induction false} DecimalValue(n: nat)
    ensures DigitsValue(Decimal(n)) == n
  {
    if n < 10 {
      assert Decimal(n)[..0] == [];
    } else {
      DecimalValue(n / 10);
      assert Decimal(n)[..|Decimal(n)| - 1] == Decimal(n / 10);
    }
  }

  /** Digits without a leading zero. */
  predicate IsNumeral(s: string) {
    s != [] && (forall c | c in s :: IsDigit(c)) && (|s| > 1 ==> s[0] != '0')
  }

  /** Decimal(n) is the numeral of n, and the only one. */
  lemma {:induction false} NumeralUnique(s: string, n: nat)
    ensures IsNumeral(s) && DigitsValue(s) == n <==> s == Decimal(n)
  {
    hide Decimal, DigitsValue;
    DecimalValue(n);
    DecimalIsNumeral(n);
    if IsNumeral(s) { NumeralBack(s); }
  }

  lemma {:induction false} DecimalIsNumeral(n: nat)
    ensures IsNumeral(Decimal(n)) && (n > 0 ==> Decimal(n)[0] != '0')
  {
    if n >= 10 { DecimalIsNumeral(n / 10); }
  }

  lemma {:induction false} NumeralBack(s: string)
    requires IsNumeral(s)
    ensures Decimal(DigitsValue(s)) == s
    ensures s[0] != '0' ==> DigitsValue(s) > 0
  {
    var front, last := s[..|s| - 1], DigitValue(s[|s| - 1]);
    if front == [] {
      assert DigitsValue(front) == 0;
      assert s == [DigitChar(last)];
    } else {
      NumeralBack(front);
      assert DigitsValue(s) / 10 == DigitsValue(front) && DigitsValue(s) % 10 == last;
      assert s == front + [DigitChar(last)];
    }
  }

  function Pow10(k: nat): nat { if k == 0 then 1 else 10 * Pow10(k - 1) }

  lemma {:induction false} DecimalLength(n: nat, k: nat)
    requires k >= 1 && n < Pow10(k)
    ensures |Decimal(n)| <= k
  {
    if n >= 10 {
      DecimalLength(n / 10, k - 1);
    }
  }

  /** strtol on text that holds a sign and digits and then a newline. */
  function ParseLine(s: string): Option<int> {
    if |s| < 2 || s[|s| - 1] != '\n' then None
    else
      var negative := s[0] == '-';
      var digits := s[if negative then 1 else 0..|s| - 1];
      if digits == [] || exists c | c in digits :: !IsDigit(c) then None
      else Some(if negative then -(DigitsValue(digits) as int) else DigitsValue(digits) as int)
  }

  /** Every 64-bit signed value prints in at most 20 characters and reads back from its line. */
  lemma SignedDecimalLine(n: int)
    requires -0x8000_0000_0000_0000 <= n <= 0x7FFF_FFFF_FFFF_FFFF
    ensures |SignedDecimal(n) + "\n"| <= 21
    ensures ParseLine(SignedDecimal(n) + "\n") == Some(n)
    ensures n >= 0 ==> SignedDecimal(n) == Decimal(n)
  {
    hide Decimal, DigitsValue, Pow10;
    var m := if n < 0 then -n else n;
    PowersOfTen();
    DecimalLength(m, 19);
    DecimalValue(m);
    var line := SignedDecimal(n) + "\n";
    assert Decimal(m)[0] in Decimal(m);
    assert line[if n < 0 then 1 else 0..|line| - 1] == Decimal(m);
  }

  lemma PowersOfTen()
    ensures Pow10(19) == 10_000_000_000_000_000_000
  {
    assert Pow10(4) == 10_000;
    assert Pow10(8) == 100_000_000;
    assert Pow10(12) == 1_000_000_000_000;
    assert Pow10(16) == 10_000_000_000_000_000;
  }

  // ------------------------------------------------- std::istringstream >> integer

  const INT_MAX := 0x7FFF_FFFF
  const INT_MIN := -0x8000_0000
  const UINT_MAX := 0xFFFF_FFFF

  predicate IsSpace(c: char) {
    c in {' ', '\t', '\n', '\r', 11 as char, 12 as char}
  }

  function SkipSpaces(s: string): string {
    if s != [] && IsSpace(s[0]) then SkipSpaces(s[1..]) else s
  }

  /** The longest prefix of digits. */
  function LeadingDigits(s: string): (d: string)
    ensures forall c | c in d :: IsDigit(c)
  {
    if s != [] && IsDigit(s[0]) then [s[0]] + LeadingDigits(s[1..]) else []
  }

  /** What the extraction finds: nothing but blanks, no number, or a sign and a magnitude. */
  datatype Scan = Blank | NoNumber | Number(negative: bool, magnitude: nat)

  function ScanInteger(text: string): Scan {
    var s := SkipSpaces(text);
    if s == [] then Blank
    else
      var digits := LeadingDigits(if s[0] in {'+', '-'} then s[1..] else s);
      if digits == [] then NoNumber else Number(s[0] == '-', DigitsValue(digits))
  }

  /** `int tmp; ss >> tmp`: the variable keeps its indeterminate value (`junk`) on blank text,
      becomes 0 when there is no number, and is clamped to the range of int. */
  function ExtractInt(text: string, junk: int): int {
    match ScanInteger(text)
    case Blank => junk
    case NoNumber => 0
    case Number(negative, m) =>
      if negative then if 0 - m < INT_MIN then INT_MIN else 0 - m
      else if m > INT_MAX then INT_MAX else m
  }

  /** `unsigned tmp; ss >> tmp`: as above, a minus sign wraps around. */
  function ExtractUnsigned(text: string, junk: nat): nat {
    match ScanInteger(text)
    case Blank => junk
    case NoNumber => 0
    case Number(negative, m) =>
      if m > UINT_MAX then UINT_MAX
      else if negative && m > 0 then UINT_MAX + 1 - m
      else m
  }

  /** atoi */
  function Atoi(text: string): int {
    match ScanInteger(text)
    case Blank => 0
    case NoNumber => 0
    case Number(negative, m) => if negative then 0 - m else m
  }

  lemma {:induction false} AllDigits(s: string)
    requires forall c | c in s :: IsDigit(c)
    ensures LeadingDigits(s) == s
  {
    if s != [] {
      AllDigits(s[1..]);
      assert s == [s[0]] + s[1..];
    }
  }

  lemma NothingToSkip(s: string)
    requires s != [] && !IsSpace(s[0])
    ensures SkipSpaces(s) == s
  {
  }

  /** Digits, with a minus sign before them or not. */
  lemma ScanDigits(d: string, negative: bool)
    requires d != [] && forall c | c in d :: IsDigit(c)
    ensures ScanInteger(if negative then "-" + d else d) == Number(negative, DigitsValue(d))
  {
    AllDigits(d);
    hide DigitsValue, LeadingDigits, SkipSpaces;
    var text := if negative then "-" + d else d;
    assert d[0] in d;
    assert text[0] == if negative then '-' else d[0];
    NothingToSkip(text);
    if negative { assert text[1..] == d; }
  }

  lemma ScanDecimal(n: nat, negative: bool)
    ensures ScanInteger(if negative then "-" + Decimal(n) else Decimal(n)) == Number(negative, n)
  {
    hide Decimal, DigitsValue, ScanInteger;
    ScanDigits(Decimal(n), negative);
    DecimalValue(n);
  }

  /** Extraction into an int clamps to its range, into an unsigned wraps negative numbers around; atoi
      has no limits here. Every value in range is read back from its decimal text. */
  lemma DecimalIsExtracted(n: int, junk: int, unset: nat)
    ensures ExtractInt(SignedDecimal(n), junk) ==
            if n > 0x7FFF_FFFF then 0x7FFF_FFFF else if n < -0x8000_0000 then -0x8000_0000 else n
    ensures Atoi(SignedDecimal(n)) == n
    ensures ExtractUnsigned(SignedDecimal(n), unset) ==
            if n > 0xFFFF_FFFF || n < -0xFFFF_FFFF then 0xFFFF_FFFF else if n < 0 then 0x1_0000_0000 + n else n
  {
    hide ScanInteger, Decimal;
    ScanDecimal(if n < 0 then -n else n, n < 0);
  }

  lemma {:induction false} BlanksSkipped(blanks: string, s: string)
    requires (forall c | c in blanks :: IsSpace(c)) && (s != [] ==> !IsSpace(s[0]))
    ensures SkipSpaces(blanks + s) == s
  {
    if blanks == [] {
      assert blanks + s == s;
    } else {
      BlanksSkipped(blanks[1..], s);
      assert (blanks + s)[1..] == blanks[1..] + s;
    }
  }

  lemma {:induction false} DigitsEnd(d: string, rest: string)
    requires (forall c | c in d :: IsDigit(c)) && (rest != [] ==> !IsDigit(rest[0]))
    ensures LeadingDigits(d + rest) == d
  {
    if d == [] {
      assert d + rest == rest;
    } else {
      DigitsEnd(d[1..], rest);
      assert (d + rest)[1..] == d[1..] + rest && d == [d[0]] + d[1..];
    }
  }

  /** What is read: blanks, then a sign or none, then digits; what is behind them does not matter. */
  lemma ScanReads(blanks: string, sign: string, digits: string, rest: string)
    requires (forall c | c in blanks :: IsSpace(c)) && (sign == "" || sign == "+" || sign == "-")
    requires (forall c | c in digits :: IsDigit(c)) && (rest != [] ==> !IsDigit(rest[0]))
    requires sign == digits == "" && rest != [] ==> !IsSpace(rest[0]) && rest[0] != '+' && rest[0] != '-'
    ensures ScanInteger(blanks + sign + digits + rest) ==
            if digits != "" then Number(sign == "-", DigitsValue(digits))
            else if sign == rest == "" then Blank else NoNumber
  {
    var s := sign + digits + rest;
    assert blanks + sign + digits + rest == blanks + s;
    assert s != [] ==> s[0] == if sign != "" then sign[0] else if digits != "" then digits[0] else rest[0];
    assert digits != "" ==> digits[0] in digits;
    BlanksSkipped(blanks, s);
    DigitsEnd(digits, rest);
    hide SkipSpaces, LeadingDigits, DigitsValue;
    assert sign == "" ==> s == digits + rest;
    assert sign != "" ==> s[1..] == digits + rest;
  }
}
