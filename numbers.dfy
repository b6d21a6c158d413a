/** Decimal conversions: Kotlin's `toString()` on integers, and
    `toLongOrNull()` / `toIntOrNull()`, which return null unless the whole
    string is an optionally signed run of digits whose value fits the type. */
module Numbers {
  import opened Wrappers

  const LONG_MIN: int := -0x8000_0000_0000_0000
  const LONG_MAX: int := 0x7FFF_FFFF_FFFF_FFFF
  const INT_MIN: int := -0x8000_0000
  const INT_MAX: int := 0x7FFF_FFFF

  predicate IsDigit(c: char) {
    '0' <= c <= '9'
  }

  predicate AllDigits(s: string) {
    forall i :: 0 <= i < |s| ==> IsDigit(s[i])
  }

  /** The value of a run of decimal digits, most significant first. */
  function DigitsValue(s: string): nat
    requires AllDigits(s)
  {
    if s == [] then 0 else DigitsValue(s[..|s| - 1]) * 10 + (s[|s| - 1] as int - '0' as int)
  }

  function DigitChar(d: nat): (c: char)
    requires d < 10
    ensures IsDigit(c) && c as int - '0' as int == d
  {
    ('0' as int + d) as char
  }

  /** `n.toString()` for a non-negative `n`: digits without leading zeros. */
  function NatToString(n: nat): (r: string)
    ensures |r| >= 1 && AllDigits(r)
    ensures DigitsValue(r) == n
    ensures r[0] == '0' ==> n == 0 && |r| == 1
  {
    if n < 10 then [DigitChar(n)]
    else
      var r := NatToString(n / 10) + [DigitChar(n % 10)];
      assert r[..|r| - 1] == NatToString(n / 10);
      r
  }

  /** `i.toString()` for any integer. */
  function IntToString(i: int): string {
    if i < 0 then "-" + NatToString(-i) else NatToString(i)
  }

  /** Kotlin's `toLongOrNull()` / `toIntOrNull()` in radix 10, for a type
      whose values are `lo..hi`. A leading '-' or '+' needs at least one digit
      after it; any other character, or a value out of range, gives null. */
  function ParseInteger(s: string, lo: int, hi: int): (r: Option<int>)
    ensures r.Some? ==> lo <= r.value <= hi
    ensures r.Some? ==> |s| >= 1 && AllDigits(s[1..]) && (IsDigit(s[0]) || s[0] == '-' || s[0] == '+')
  {
    if |s| == 0 then None
    else if s[0] < '0' && (|s| == 1 || (s[0] != '-' && s[0] != '+')) then None
    else
      var digits := if s[0] < '0' then s[1..] else s;
      if !AllDigits(digits) then None
      else
        var n: int := DigitsValue(digits);
        var v := if s[0] == '-' then -n else n;
        if lo <= v <= hi then Some(v) else None
  }

  function ParseLong(s: string): Option<int> {
    ParseInteger(s, LONG_MIN, LONG_MAX)
  }

  function ParseInt(s: string): Option<int> {
    ParseInteger(s, INT_MIN, INT_MAX)
  }

  /** Printing then parsing an integer gives it back, whenever it fits. */
  lemma ParseIntToString(i: int, lo: int, hi: int)
    requires lo <= i <= hi
    ensures ParseInteger(IntToString(i), lo, hi) == Some(i)
  {
    if i < 0 {
      var s := IntToString(i);
      assert s[1..] == NatToString(-i);
    }
  }

  /** A string that holds a character other than a digit past its first
      position, or a non-sign non-digit first, is not a number. */
  lemma NotANumber(s: string, p: nat, lo: int, hi: int)
    requires p < |s|
    requires !IsDigit(s[p]) && (p > 0 || (s[p] != '-' && s[p] != '+'))
    ensures ParseInteger(s, lo, hi) == None
  {
    if p > 0 {
      assert s[1..][p - 1] == s[p];
    }
  }
}
