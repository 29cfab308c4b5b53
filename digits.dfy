/** Decimal digit strings, as the check-in form reads them: a field's text is
    accepted by `str.isdigit()` and then converted with `int()`. Only the ASCII
    digits '0'..'9' are modelled. */
module Digits {

  datatype Option<+T> = None | Some(value: T)

  predicate IsDigit(c: char) {
    '0' <= c <= '9'
  }

  /** Every character is a digit (the empty string included). */
  predicate AllDigits(s: string) {
    forall i :: 0 <= i < |s| ==> IsDigit(s[i])
  }

  /** `s.isdigit()`: non-empty and made of digits only; "" is not a digit string. */
  predicate IsDigitString(s: string) {
    |s| > 0 && AllDigits(s)
  }

  function DigitValue(c: char): (v: nat)
    requires IsDigit(c)
    ensures v < 10
  {
    c as int - '0' as int
  }

  function DigitChar(v: nat): (c: char)
    requires v < 10
    ensures IsDigit(c) && DigitValue(c) == v
  {
    ('0' as int + v) as char
  }

  /** `int(s)` for a string of digits: base-10 value, leading zeros allowed. */
  function Value(s: string): nat
    requires AllDigits(s)
  {
    if s == [] then 0 else Value(s[..|s| - 1]) * 10 + DigitValue(s[|s| - 1])
  }

  /** The text of a field as the form reads it: its integer value when it is a
      digit string, nothing otherwise. */
  function Parse(s: string): Option<nat> {
    if IsDigitString(s) then Some(Value(s)) else None
  }

  /** A single digit reads as its own value. */
  lemma SingleDigit(s: string)
    requires |s| == 1 && IsDigit(s[0])
    ensures IsDigitString(s) && Value(s) == DigitValue(s[0])
  {
    assert s[..0] == [];
  }

  /** The shortest decimal rendering of `n` (what `str(n)` gives). */
  function Show(n: nat): (s: string)
    ensures IsDigitString(s)
    ensures |s| > 1 ==> s[0] != '0'
  {
    if n < 10 then [DigitChar(n)] else Show(n / 10) + [DigitChar(n % 10)]
  }

  /** Every natural number is read back from its own rendering. */
  lemma {:induction false} ParseShow(n: nat)
    ensures Parse(Show(n)) == Some(n)
  {
    var s := Show(n);
    if n < 10 {
      SingleDigit(s);
    } else {
      ParseShow(n / 10);
      assert s[..|s| - 1] == Show(n / 10);
      assert s[|s| - 1] == DigitChar(n % 10);
      assert Value(s) == Value(Show(n / 10)) * 10 + n % 10;
    }
  }

  /** A leading zero does not change the value read: "05" reads as 5. */
  lemma {:induction false} LeadingZeroIgnored(s: string)
    requires AllDigits(s)
    ensures AllDigits("0" + s) && Value("0" + s) == Value(s)
  {
    if s != [] {
      var t := s[..|s| - 1];
      LeadingZeroIgnored(t);
      assert ("0" + s)[..|s|] == "0" + t;
    }
  }

  /** Hence a digit string and the same string with a zero in front are
      collected as the same rating. */
  lemma ParseLeadingZero(s: string)
    requires s != ""
    ensures Parse("0" + s) == Parse(s)
  {
    if IsDigitString(s) {
      LeadingZeroIgnored(s);
    } else {
      var i :| 0 <= i < |s| && !IsDigit(s[i]);
      assert ("0" + s)[i + 1] == s[i];
    }
  }
}
