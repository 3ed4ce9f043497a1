/** Python's `int(x)` on a string, restricted to plain decimal literals: an optional
    `+` or `-` sign followed by one or more ASCII digits. `FormatInt` (Python's
    `str(n)`) is its inverse. */
module IntLiteral {
  import opened Wrappers

  predicate IsDigit(ch: char) {
    '0' <= ch <= '9'
  }

  predicate AllDigits(s: string) {
    forall i :: 0 <= i < |s| ==> IsDigit(s[i])
  }

  /** A decimal literal: digits, or a sign followed by digits; at least one digit. */
  predicate IsLiteral(s: string) {
    (|s| >= 1 && AllDigits(s)) ||
    (|s| >= 2 && (s[0] == '+' || s[0] == '-') && AllDigits(s[1..]))
  }

  function DigitValue(ch: char): (d: nat)
    requires IsDigit(ch)
    ensures d < 10
  {
    ch as int - '0' as int
  }

  function DigitChar(d: nat): (ch: char)
    requires d < 10
    ensures IsDigit(ch) && DigitValue(ch) == d
  {
    ('0' as int + d) as char
  }

  /** The value of a string of digits, most significant first. */
  function DigitsValue(s: string): nat
    requires AllDigits(s)
  {
    if |s| == 0 then 0
    else DigitsValue(s[..|s| - 1]) * 10 + DigitValue(s[|s| - 1])
  }

  /** `int(s)`: the value of a decimal literal, `None` where Python raises `ValueError`. */
  function ParseInt(s: string): (r: Option<int>)
    ensures r.Some? <==> IsLiteral(s)
  {
    if |s| >= 2 && (s[0] == '+' || s[0] == '-') && AllDigits(s[1..]) then
      var v: int := DigitsValue(s[1..]);
      Some(if s[0] == '-' then -v else v)
    else if |s| >= 1 && AllDigits(s) then Some(DigitsValue(s))
    else None
  }

  /** `str(n)` for a natural number: its decimal digits, no leading zeros. */
  function FormatNat(n: nat): (s: string)
    ensures |s| >= 1 && AllDigits(s)
  {
    if n < 10 then [DigitChar(n)]
    else FormatNat(n / 10) + [DigitChar(n % 10)]
  }

  /** `str(n)`: a `-` before the digits of a negative number. */
  function FormatInt(n: int): (s: string)
    ensures IsLiteral(s)
    ensures ',' !in s
  {
    if n < 0 then
      var d := FormatNat(-n);
      assert ("-" + d)[1..] == d;
      "-" + d
    else
      FormatNat(n)
  }

  lemma {:induction false} DigitsOfFormatNat(n: nat)
    ensures DigitsValue(FormatNat(n)) == n
  {
    if n >= 10 {
      var s := FormatNat(n);
      assert s[..|s| - 1] == FormatNat(n / 10);
      DigitsOfFormatNat(n / 10);
    }
  }

  /** Every integer written out by `str` parses back to itself. */
  lemma {:induction false} ParseFormat(n: int)
    ensures ParseInt(FormatInt(n)) == Some(n)
  {
    DigitsOfFormatNat(if n < 0 then -n else n);
    if n < 0 {
      assert FormatInt(n)[1..] == FormatNat(-n);
    } else {
      assert IsDigit(FormatInt(n)[0]);
    }
  }
}
