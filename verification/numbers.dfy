/**
 * The C library's `atoi`, used by `exit` to read its status argument:
 * leading white space, an optional sign, then the longest run of decimal
 * digits; anything else yields 0. Integers are unbounded here (see README).
 */
module Numbers {

  predicate IsDigit(c: char)
  {
    '0' <= c <= '9'
  }

  /** `isspace` in the C locale: space, `\t`, `\n`, `\v`, `\f`, `\r`. */
  predicate IsSpace(c: char)
  {
    c == ' ' || 9 <= c as int <= 13
  }

  predicate AllDigits(s: string)
  {
    forall i :: 0 <= i < |s| ==> IsDigit(s[i])
  }

  function DigitValue(c: char): (d: nat)
    requires IsDigit(c)
    ensures d < 10
  {
    c as int - '0' as int
  }

  function DigitChar(d: nat): (c: char)
    requires d < 10
    ensures IsDigit(c) && DigitValue(c) == d
  {
    ('0' as int + d) as char
  }

  /** Value of a digit string read most-significant digit first. */
  function DigitsValue(s: string): nat
    requires AllDigits(s)
  {
    if s == [] then 0 else DigitsValue(s[..|s| - 1]) * 10 + DigitValue(s[|s| - 1])
  }

  function LeadingDigits(s: string): (n: nat)
    ensures n <= |s| && AllDigits(s[..n])
    ensures n < |s| ==> !IsDigit(s[n])
  {
    if s == [] || !IsDigit(s[0]) then 0
    else
      var n := 1 + LeadingDigits(s[1..]);
      assert s[..n] == [s[0]] + s[1..][..n - 1];
      n
  }

  function SkipSpaces(s: string): (t: string)
    ensures |t| <= |s| && t == s[|s| - |t|..]
    ensures t == [] || !IsSpace(t[0])
  {
    if s != [] && IsSpace(s[0]) then SkipSpaces(s[1..]) else s
  }

  /** The value of the leading digit run of `s` (0 when there is none). */
  function NumberPrefix(s: string): nat
  {
    var n := LeadingDigits(s);
    DigitsValue(s[..n])
  }

  function Atoi(s: string): (v: int)
    ensures (SkipSpaces(s) == [] || !(IsDigit(SkipSpaces(s)[0]) || SkipSpaces(s)[0] in "+-")) ==> v == 0
  {
    var t := SkipSpaces(s);
    if t != [] && t[0] == '-' then 0 - NumberPrefix(t[1..])
    else if t != [] && t[0] == '+' then NumberPrefix(t[1..])
    else NumberPrefix(t)
  }

  /** Decimal rendering of a natural number, without leading zeros. */
  function Decimal(n: nat): (s: string)
    ensures |s| > 0 && AllDigits(s)
    ensures |s| > 1 ==> s[0] != '0'
  {
    if n < 10 then [DigitChar(n)]
    else
      var s := Decimal(n / 10) + [DigitChar(n % 10)];
      assert s[0] == Decimal(n / 10)[0];
      s
  }

  lemma {:induction false} DigitsValueOfDecimal(n: nat)
    ensures DigitsValue(Decimal(n)) == n
  {
    if n >= 10 {
      var s := Decimal(n);
      assert s[..|s| - 1] == Decimal(n / 10);
      DigitsValueOfDecimal(n / 10);
    }
  }

  lemma {:induction false} LeadingDigitsOfDigits(s: string)
    requires AllDigits(s)
    ensures LeadingDigits(s) == |s|
    decreases |s|
  {
    if s != [] {
      LeadingDigitsOfDigits(s[1..]);
    }
  }

  lemma NumberPrefixOfDecimal(n: nat)
    ensures NumberPrefix(Decimal(n)) == n
  {
    var s := Decimal(n);
    LeadingDigitsOfDigits(s);
    assert s[..|s|] == s;
    DigitsValueOfDecimal(n);
  }

  lemma SkipSpacesOfDigitStart(s: string)
    requires |s| > 0 && (IsDigit(s[0]) || s[0] == '-')
    ensures SkipSpaces(s) == s
  {
  }

  /** Round trip: `atoi` reads back the decimal rendering of any integer. */
  lemma AtoiOfDecimal(n: nat)
    ensures Atoi(Decimal(n)) == n
    ensures Atoi("-" + Decimal(n)) == 0 - n
  {
    var s := Decimal(n);
    NumberPrefixOfDecimal(n);
    SkipSpacesOfDigitStart(s);
    var m := "-" + s;
    SkipSpacesOfDigitStart(m);
    assert m[1..] == s;
  }
}
