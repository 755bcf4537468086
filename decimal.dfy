/** Decimal integers as the bot reads and writes them: `str.isdigit()`,
    `int()` applied to a string of dashes and digits, and `str()` of an `int`. */
module Decimal {
  import opened Wrappers
  import opened Strings

  predicate IsDigit(c: char) {
    '0' <= c <= '9'
  }

  /** `s.isdigit()`: non-empty and digits only. */
  predicate IsDigits(s: string) {
    |s| > 0 && forall i :: 0 <= i < |s| ==> IsDigit(s[i])
  }

  /** The value of a string of decimal digits, most significant first. */
  function DigitsValue(s: string): nat
    requires forall i :: 0 <= i < |s| ==> IsDigit(s[i])
  {
    if s == [] then 0
    else
      assert IsDigit(s[|s| - 1]);
      DigitsValue(s[..|s| - 1]) * 10 + (s[|s| - 1] as int - '0' as int)
  }

  /** The shortest decimal spelling of `n`, as Python's `str(n)` writes it. */
  function NatDigits(n: nat): (s: string)
    ensures IsDigits(s) && DigitsValue(s) == n
    ensures |s| > 1 ==> s[0] != '0'
  {
    var last := ('0' as int + n % 10) as char;
    if n < 10 then [last]
    else
      var s := NatDigits(n / 10) + [last];
      assert s[..|s| - 1] == NatDigits(n / 10);
      s
  }

  /** Python's `str(n)` for an `int`: a minus sign for negatives. */
  function IntToString(n: int): string {
    if n < 0 then "-" + NatDigits(-n) else NatDigits(n)
  }

  /** Python's `int(s)` on a string the bot has checked with
      `s.lstrip("-").isdigit()`: one optional minus sign, then digits (leading
      zeros allowed); two or more dashes make `int()` raise `ValueError`,
      modelled as `None`. */
  function IntLiteral(s: string): (r: Option<int>)
    requires IsDigits(LStripChar(s, '-'))
    ensures r.None? <==> |s| >= 2 && s[0] == '-' && s[1] == '-'
    ensures r.Some? ==> (if s[0] == '-' then -r.value else r.value) == DigitsValue(LStripChar(s, '-'))
    ensures r.Some? && r.value < 0 ==> s[0] == '-'
  {
    LStripCharSpec(s, '-');
    var digits := LStripChar(s, '-');
    var dashes := |s| - |digits|;
    var magnitude: int := DigitsValue(digits);
    if dashes == 0 then Some(magnitude)
    else if dashes == 1 then Some(-magnitude)
    else None
  }

  /** Leading zeros do not change the value: `int("007") == 7`. */
  lemma {:induction false} LeadingZero(s: string)
    requires forall i :: 0 <= i < |s| ==> IsDigit(s[i])
    ensures DigitsValue("0" + s) == DigitsValue(s)
  {
    if s != [] {
      var t := "0" + s;
      assert t[..|t| - 1] == "0" + s[..|s| - 1];
      LeadingZero(s[..|s| - 1]);
    }
  }

  /** `int(str(n)) == n`: what `str()` writes, `int()` reads back. */
  lemma IntRoundTrip(n: int)
    ensures IsDigits(LStripChar(IntToString(n), '-'))
    ensures IntLiteral(IntToString(n)) == Some(n)
  {
    var s := IntToString(n);
    if n < 0 {
      assert s[1..] == NatDigits(-n);
      assert LStripChar(s[1..], '-') == s[1..];
    } else {
      assert LStripChar(s, '-') == s;
    }
  }

  /** Distinct integers are written differently. */
  lemma IntToStringInjective(m: int, n: int)
    requires IntToString(m) == IntToString(n)
    ensures m == n
  {
    IntRoundTrip(m);
    IntRoundTrip(n);
  }
}
