/**
 * Python's conversions between integers and decimal text, as the program
 * uses them: str() on an int, and int() on a string.
 */
module Numbers {
  import opened Wrappers

  predicate IsDigit(c: char) {
    '0' as int <= c as int <= '9' as int
  }

  predicate AllDigits(s: string) {
    forall i | 0 <= i < |s| :: IsDigit(s[i])
  }

  function DigitChar(d: nat): (c: char)
    requires d < 10
    ensures IsDigit(c) && c as int - '0' as int == d
  {
    ('0' as int + d) as char
  }

  /** The number a string of decimal digits denotes (0 for the empty string). */
  function DigitsValue(s: string): nat
    requires AllDigits(s)
    decreases |s|
  {
    if s == [] then 0 else DigitsValue(s[..|s| - 1]) * 10 + (s[|s| - 1] as int - '0' as int)
  }

  /**
   * str(i): the decimal digits of i, without a leading zero except for 0
   * itself, and a minus sign before those of -i when i is negative.
   */
  function IntToString(i: int): (s: string)
    ensures |s| > 0
    decreases if i < 0 then 1 - i else i
  {
    if i < 0 then "-" + IntToString(-i)
    else if i < 10 then [DigitChar(i)]
    else IntToString(i / 10) + [DigitChar(i % 10)]
  }

  /** str(n) of a natural number is made of digits, has no leading zero, and denotes n. */
  lemma {:induction false} IntToStringDigits(n: nat)
    ensures AllDigits(IntToString(n))
    ensures n > 0 ==> IntToString(n)[0] != '0'
    ensures DigitsValue(IntToString(n)) == n
    decreases n
  {
    if n >= 10 {
      var prefix := IntToString(n / 10);
      IntToStringDigits(n / 10);
      var s := prefix + [DigitChar(n % 10)];
      assert s == IntToString(n);
      assert s[..|prefix|] == prefix;
      assert s[0] == prefix[0];
    }
  }

  /**
   * The ASCII whitespace int() ignores around a number: space, tab, line
   * feed, vertical tab, form feed, carriage return and the four separators
   * 0x1C to 0x1F.
   */
  predicate IsSpace(c: char) {
    c == ' ' || 9 <= c as int <= 13 || 28 <= c as int <= 31
  }

  function DigitValue(c: char): nat
    requires IsDigit(c)
  {
    c as int - '0' as int
  }

  /** Where int() is in its text: before the number, after a sign, in the digits, or after them. */
  datatype ScanState = Leading | Signed(negative: bool) | InDigits(negative: bool, acc: nat) | Trailing(negative: bool, acc: nat)

  function WithSign(negative: bool, n: nat): int {
    if negative then -(n as int) else n
  }

  /**
   * int() read from position i on, in state st: whitespace, an optional
   * sign, at least one decimal digit, whitespace; anything else is a
   * ValueError (None here).
   */
  function Scan(s: string, i: nat, st: ScanState): Option<int>
    requires i <= |s|
    decreases |s| - i
  {
    if i == |s| then
      match st
      case InDigits(negative, acc) => Some(WithSign(negative, acc))
      case Trailing(negative, acc) => Some(WithSign(negative, acc))
      case _ => None
    else
      var c := s[i];
      match st
      case Leading =>
        if IsSpace(c) then Scan(s, i + 1, Leading)
        else if c == '-' then Scan(s, i + 1, Signed(true))
        else if c == '+' then Scan(s, i + 1, Signed(false))
        else if IsDigit(c) then Scan(s, i + 1, InDigits(false, DigitValue(c)))
        else None
      case Signed(negative) =>
        if IsDigit(c) then Scan(s, i + 1, InDigits(negative, DigitValue(c))) else None
      case InDigits(negative, acc) =>
        if IsDigit(c) then Scan(s, i + 1, InDigits(negative, acc * 10 + DigitValue(c)))
        else if IsSpace(c) then Scan(s, i + 1, Trailing(negative, acc))
        else None
      case Trailing(negative, acc) =>
        if IsSpace(c) then Scan(s, i + 1, Trailing(negative, acc)) else None
  }

  /** int(s) */
  function ParseInt(s: string): Option<int> {
    Scan(s, 0, Leading)
  }

  /** Reading the rest of a run of digits finishes the number those digits denote. */
  lemma {:induction false} ScanDigits(s: string, j: nat, i: nat, negative: bool)
    requires j < i <= |s| && AllDigits(s[j..])
    ensures AllDigits(s[j..i])
    ensures Scan(s, i, InDigits(negative, DigitsValue(s[j..i]))) == Some(WithSign(negative, DigitsValue(s[j..])))
    decreases |s| - i
  {
    assert forall k | 0 <= k < |s[j..i]| :: s[j..i][k] == s[j..][k];
    if i < |s| {
      assert s[j..i + 1][..i - j] == s[j..i];
      assert s[j..i + 1][i - j] == s[j..][i - j];
      assert DigitsValue(s[j..i + 1]) == DigitsValue(s[j..i]) * 10 + DigitValue(s[i]);
      ScanDigits(s, j, i + 1, negative);
    } else {
      assert s[j..i] == s[j..];
    }
  }

  /** int(str(i)) == i: parsing undoes printing. */
  lemma {:induction false} ParseIntToString(i: int)
    ensures ParseInt(IntToString(i)) == Some(i)
  {
    var s := IntToString(i);
    if i < 0 {
      var d := IntToString(-i);
      IntToStringDigits(-i);
      assert s[1..] == d && s[0] == '-';
      assert s[1..2] == [d[0]];
      assert IsDigit(d[0]) && s[1] == d[0];
      assert DigitsValue([d[0]]) == DigitValue(d[0]);
      ScanDigits(s, 1, 2, true);
      assert Scan(s, 1, Signed(true)) == Scan(s, 2, InDigits(true, DigitValue(s[1])));
    } else {
      IntToStringDigits(i);
      assert s[0..] == s && s[0..1] == [s[0]];
      assert IsDigit(s[0]);
      assert DigitsValue([s[0]]) == DigitValue(s[0]);
      ScanDigits(s, 0, 1, false);
    }
  }

  /** Distinct integers print differently. */
  lemma {:induction false} IntToStringInjective(a: int, b: int)
    requires IntToString(a) == IntToString(b)
    ensures a == b
  {
    ParseIntToString(a);
    ParseIntToString(b);
  }

  /** str() of a positive number never starts with '0' (or with a sign). */
  lemma PositiveHasNoLeadingZero(n: int)
    requires n > 0
    ensures IntToString(n)[0] != '0' && IsDigit(IntToString(n)[0])
  {
    IntToStringDigits(n);
  }
}
