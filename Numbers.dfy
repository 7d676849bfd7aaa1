/**
 * Kotlin's `String.toLongOrNull()` / `toIntOrNull()` (radix 10) and the decimal
 * rendering of `Int`/`Long` values (`toString()` and string templates).
 */
module Numbers {

  import opened Wrappers

  const INT_MIN: int := -0x8000_0000
  const INT_MAX: int := 0x7FFF_FFFF
  const LONG_MIN: int := -0x8000_0000_0000_0000
  const LONG_MAX: int := 0x7FFF_FFFF_FFFF_FFFF

  predicate IsDigit(c: char) { '0' <= c <= '9' }

  function DigitValue(c: char): nat
    requires IsDigit(c)
  {
    c as int - '0' as int
  }

  function DigitChar(n: nat): char
    requires n < 10
  {
    ('0' as int + n) as char
  }

  predicate AllDigits(s: string) {
    forall i :: 0 <= i < |s| ==> IsDigit(s[i])
  }

  /** The value of a run of decimal digits, most significant first. */
  function DigitsValue(s: string): nat
    requires AllDigits(s)
  {
    if |s| == 0 then 0 else 10 * DigitsValue(s[..|s| - 1]) + DigitValue(s[|s| - 1])
  }

  /**
   * Kotlin's radix-10 `toLongOrNull`/`toIntOrNull` for the range [lo, hi],
   * restricted to ASCII digits: an optional '+' or '-', then at least one
   * digit, and a value in range; anything else is null.
   */
  function ParseInteger(s: string, lo: int, hi: int): (r: Option<int>)
    ensures r.Some? ==> lo <= r.value <= hi
    ensures |s| == 0 ==> r.None?
  {
    if |s| == 0 then None
    else
      var negative := s[0] == '-';
      var digits := if s[0] == '-' || s[0] == '+' then s[1..] else s;
      if |digits| == 0 || !AllDigits(digits) then None
      else
        var m: int := DigitsValue(digits);
        var v := if negative then 0 - m else m;
        if lo <= v <= hi then Some(v) else None
  }

  // What `ParseInteger` accepts and what it yields, one form at a time. They
  // are lemmas rather than postconditions so that callers needing only the
  // range do not carry them.

  /** Unsigned digits parse to their value when it is in range. */
  lemma ParseIntegerUnsigned(s: string, lo: int, hi: int)
    requires |s| > 0 && AllDigits(s)
    ensures ParseInteger(s, lo, hi) == (if lo <= DigitsValue(s) <= hi then Some(DigitsValue(s)) else None)
  {
  }

  /** '+' and digits parse to the digits' value when it is in range. */
  lemma ParseIntegerPlus(s: string, lo: int, hi: int)
    requires |s| > 1 && s[0] == '+' && AllDigits(s[1..])
    ensures ParseInteger(s, lo, hi) == (if lo <= DigitsValue(s[1..]) <= hi then Some(DigitsValue(s[1..])) else None)
  {
  }

  /** '-' and digits parse to the negated value when it is in range. */
  lemma ParseIntegerMinus(s: string, lo: int, hi: int)
    requires |s| > 1 && s[0] == '-' && AllDigits(s[1..])
    ensures ParseInteger(s, lo, hi) == (if lo <= -(DigitsValue(s[1..]) as int) <= hi then Some(-(DigitsValue(s[1..]) as int)) else None)
  {
  }

  /** Nothing else parses: a lone sign, a sign inside the text, or any other character gives null. */
  lemma ParseIntegerAccepted(s: string, lo: int, hi: int)
    requires ParseInteger(s, lo, hi).Some?
    ensures (|s| > 0 && AllDigits(s)) || (|s| > 1 && (s[0] == '+' || s[0] == '-') && AllDigits(s[1..]))
  {
  }

  function ToLongOrNull(s: string): Option<int> { ParseInteger(s, LONG_MIN, LONG_MAX) }

  function ToIntOrNull(s: string): Option<int> { ParseInteger(s, INT_MIN, INT_MAX) }

  /** Decimal digits of a natural number, without leading zeros. */
  function NatString(n: nat): (r: string)
    ensures |r| >= 1 && AllDigits(r)
    ensures DigitsValue(r) == n
  {
    if n < 10 then [DigitChar(n)]
    else
      var r := NatString(n / 10) + [DigitChar(n % 10)];
      assert r[..|r| - 1] == NatString(n / 10);
      r
  }

  /** `n.toString()` for an integer: a '-' sign for negatives, then the digits. */
  function DecimalString(n: int): (r: string)
    ensures |r| >= 1
    ensures n >= 0 <==> IsDigit(r[0])
  {
    if n < 0 then "-" + NatString(-n) else NatString(n)
  }

  /** Parsing the decimal rendering of an in-range integer gives it back. */
  lemma ParseDecimalString(n: int, lo: int, hi: int)
    requires lo <= n <= hi
    ensures ParseInteger(DecimalString(n), lo, hi) == Some(n)
  {
    var s := DecimalString(n);
    if n < 0 {
      assert s[1..] == NatString(-n);
    }
  }
}
