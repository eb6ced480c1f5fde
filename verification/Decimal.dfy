/** Base-ten printing and parsing of 64-bit integers, as Go's strconv does them. */
module Decimal {
  import opened Results

  const MAX_INT64: int := 0x7FFF_FFFF_FFFF_FFFF
  const MIN_INT64: int := -0x8000_0000_0000_0000

  predicate IsDigit(c: char) {
    '0' <= c <= '9'
  }

  function DigitChar(d: nat): (c: char)
    requires d < 10
    ensures IsDigit(c) && DigitValue(c) == d
  {
    '0' + d as char
  }

  function DigitValue(c: char): (d: nat)
    requires IsDigit(c)
    ensures d < 10
  {
    (c - '0') as nat
  }

  function FormatNat(n: nat): (s: string)
    ensures s != [] && forall c | c in s :: IsDigit(c)
  {
    if n < 10 then [DigitChar(n)] else FormatNat(n / 10) + [DigitChar(n % 10)]
  }

  function FormatInt(n: int): string {
    if n < 0 then "-" + FormatNat(-n) else FormatNat(n)
  }

  /** The value of a non-empty string of digits. */
  function ParseNat(s: string): Option<nat> {
    if s == [] || !IsDigit(s[|s| - 1]) then None
    else if |s| == 1 then Some(DigitValue(s[0]))
    else match ParseNat(s[..|s| - 1])
      case None => None
      case Some(n) => Some(10 * n + DigitValue(s[|s| - 1]))
  }

  /** An optional sign, then digits; out-of-range values are errors. */
  function ParseInt(s: string): Option<int> {
    var negative := s != [] && s[0] == '-';
    var digits := if s != [] && (s[0] == '-' || s[0] == '+') then s[1..] else s;
    match ParseNat(digits)
    case None => None
    case Some(n) =>
      var v := if negative then 0 - n else n + 0;
      if MIN_INT64 <= v <= MAX_INT64 then Some(v) else None
  }

  lemma {:induction false} ParseFormatNat(n: nat)
    ensures ParseNat(FormatNat(n)) == Some(n)
  {
    if n >= 10 {
      ParseFormatNat(n / 10);
      var s := FormatNat(n);
      assert s[..|s| - 1] == FormatNat(n / 10);
    }
  }

  /** Every 64-bit integer survives printing and parsing. */
  lemma {:induction false} ParseFormatInt(n: int)
    requires MIN_INT64 <= n <= MAX_INT64
    ensures ParseInt(FormatInt(n)) == Some(n)
  {
    var s := FormatInt(n);
    FormatIntSign(n);
    if n < 0 {
      ParseFormatNat(-n);
      assert s[1..] == FormatNat(-n);
    } else {
      ParseFormatNat(n);
      assert s == FormatNat(n) && s[0] in s && IsDigit(s[0]);
    }
  }

  /** Different numbers print differently. */
  lemma FormatIntInjective(m: int, n: int)
    requires FormatInt(m) == FormatInt(n)
    ensures m == n
  {
    FormatIntSign(m);
    FormatIntSign(n);
    if m >= 0 {
      ParseFormatNat(m);
      ParseFormatNat(n);
    } else {
      assert FormatInt(m)[1..] == FormatNat(-m) && FormatInt(n)[1..] == FormatNat(-n);
      ParseFormatNat(-m);
      ParseFormatNat(-n);
    }
  }

  lemma FormatIntSign(n: int)
    ensures FormatInt(n) != [] && (FormatInt(n)[0] == '-' <==> n < 0)
  {
    assert n >= 0 ==> IsDigit(FormatNat(n)[0]);
  }
}
