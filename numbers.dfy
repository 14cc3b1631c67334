/** Go's decimal integer text: strconv.ParseInt(s, 10, 64), which the
    download path applies to Content-Length, and the decimal form fmt.Sprint
    gives an int64, which the upload path sends as the modification time. */
module Numbers {
  import opened Wire

  const MinInt64: int := -0x8000_0000_0000_0000
  const MaxInt64: int := 0x7FFF_FFFF_FFFF_FFFF

  type int64 = x: int | MinInt64 <= x <= MaxInt64

  predicate IsDigit(c: char)
  {
    '0' <= c <= '9'
  }

  predicate AllDigits(s: string)
  {
    forall i :: 0 <= i < |s| ==> IsDigit(s[i])
  }

  /** The value of a string of decimal digits, most significant first. */
  function DigitsValue(s: string): nat
    requires AllDigits(s)
  {
    if s == [] then 0 else DigitsValue(s[..|s| - 1]) * 10 + (s[|s| - 1] as int - '0' as int)
  }

  /** What follows an optional leading '+' or '-'. */
  function Unsigned(s: string): string
  {
    if |s| > 0 && (s[0] == '+' || s[0] == '-') then s[1..] else s
  }

  /** The syntax base 10 accepts: an optional sign, then at least one digit
      (no underscores, no spaces, no base prefix). */
  predicate IsDecimal(s: string)
  {
    |Unsigned(s)| > 0 && AllDigits(Unsigned(s))
  }

  function DecimalValue(s: string): int
    requires IsDecimal(s)
  {
    if s[0] == '-' then -(DigitsValue(Unsigned(s)) as int) else DigitsValue(Unsigned(s))
  }

  /** strconv.ParseInt(s, 10, 64). None stands for both of its errors: the
      syntax error and the range error (a value outside int64). */
  function ParseInt(s: string): Option<int64>
  {
    if IsDecimal(s) && MinInt64 <= DecimalValue(s) <= MaxInt64 then Some(DecimalValue(s)) else None
  }

  function DigitChar(d: int): char
    requires 0 <= d < 10
  {
    ('0' as int + d) as char
  }

  /** The shortest decimal digits of n. */
  function FormatNat(n: nat): string
  {
    if n < 10 then [DigitChar(n)] else FormatNat(n / 10) + [DigitChar(n % 10)]
  }

  /** fmt.Sprint of an integer: a '-' for negative values, never a '+'. */
  function FormatInt(n: int): string
  {
    if n < 0 then "-" + FormatNat(-n) else FormatNat(n)
  }

  /** The digits FormatNat writes are digits, and read back as n. */
  lemma {:induction false} FormatNatReadsBack(n: nat)
    ensures |FormatNat(n)| > 0 && AllDigits(FormatNat(n))
    ensures DigitsValue(FormatNat(n)) == n
  {
    if n >= 10 {
      FormatNatReadsBack(n / 10);
      var s := FormatNat(n);
      assert s[..|s| - 1] == FormatNat(n / 10);
    }
  }

  /** FormatInt writes decimal text whose value is n. */
  lemma FormatIntReadsBack(n: int)
    ensures IsDecimal(FormatInt(n)) && DecimalValue(FormatInt(n)) == n
  {
    var s := FormatInt(n);
    var m: nat := if n < 0 then -n else n;
    FormatNatReadsBack(m);
    assert Unsigned(s) == FormatNat(m);
  }

  /** Every int64 printed in decimal parses back to itself. */
  lemma ParseFormatRoundTrip(n: int64)
    ensures ParseInt(FormatInt(n)) == Some(n)
  {
    FormatIntReadsBack(n);
  }

  /** Decimal text for a value beyond int64 is a range error. */
  lemma ParseIntRangeError(n: int)
    requires n < MinInt64 || n > MaxInt64
    ensures ParseInt(FormatInt(n)) == None
  {
    FormatIntReadsBack(n);
  }

  /** Text with a character that is neither a digit nor a leading sign is a
      syntax error. */
  lemma ParseIntSyntaxError(s: string, i: nat)
    requires i < |s| && !IsDigit(s[i])
    requires i == 0 ==> s[0] != '+' && s[0] != '-'
    ensures ParseInt(s) == None
  {
    if |s| > 0 && (s[0] == '+' || s[0] == '-') {
      assert Unsigned(s)[i - 1] == s[i];
    }
  }

  /** The empty text and a sign alone are syntax errors: at least one digit is needed. */
  lemma ParseIntNeedsDigit()
    ensures ParseInt("") == None && ParseInt("+") == None && ParseInt("-") == None
  {
  }
}
