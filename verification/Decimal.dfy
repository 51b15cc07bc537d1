/** Decimal numerals: printing, and parsing as the integer parsers of the source do. */
module Decimal {
  import opened Options
  import opened Text

  function DigitValue(c: char): (v: nat)
    requires IsDigit(c)
    ensures v <= 9
  {
    c as int - '0' as int
  }

  function DigitChar(v: nat): (c: char)
    requires v <= 9
    ensures IsDigit(c) && DigitValue(c) == v
  {
    ('0' as int + v) as char
  }

  predicate AllDigits(s: string) {
    forall k :: 0 <= k < |s| ==> IsDigit(s[k])
  }

  function Value(s: string): nat
    requires AllDigits(s)
  {
    if s == [] then 0 else 10 * Value(s[..|s| - 1]) + DigitValue(s[|s| - 1])
  }

  /** The numeral of `n`, without leading zeros. */
  function Print(n: nat): (s: string)
    ensures s != [] && AllDigits(s) && Value(s) == n
    ensures n > 0 ==> s[0] != '0'
    ensures n == 0 ==> s == "0"
    decreases n
  {
    if n <= 9 then [DigitChar(n)]
    else
      var s := Print(n / 10);
      var r := s + [DigitChar(n % 10)];
      assert r[..|r| - 1] == s;
      r
  }

  /** Numerals without leading zeros are printed back. */
  lemma {:induction false} PrintOfValue(s: string)
    requires AllDigits(s) && s != [] && (s[0] == '0' ==> |s| == 1)
    ensures Print(Value(s)) == s
  {
    if |s| == 1 {
      assert Value(s[..0]) == 0;
    } else {
      var front := s[..|s| - 1];
      PrintOfValue(front);
      PositiveValue(front);
      assert Value(s) / 10 == Value(front) && Value(s) % 10 == DigitValue(s[|s| - 1]);
      assert s == front + [s[|s| - 1]];
    }
  }

  lemma {:induction false} PositiveValue(s: string)
    requires AllDigits(s) && s != [] && s[0] != '0'
    ensures Value(s) > 0
  {
    if |s| > 1 {
      PositiveValue(s[..|s| - 1]);
    }
  }

  /** Parsing an unsigned integer: an optional plus sign, then at least one digit, and at most `max`. */
  function ParseUnsigned(s: string, max: nat): Option<nat> {
    var digits := if s != [] && s[0] == '+' then s[1..] else s;
    if digits != [] && AllDigits(digits) && Value(digits) <= max then Some(Value(digits)) else None
  }

  /** Accepted are exactly the numerals of at most `max`, leading zeros or not, with or without a plus sign. */
  lemma ParseUnsignedIff(s: string, max: nat, v: nat)
    ensures ParseUnsigned(s, max) == Some(v) <==>
            v <= max && exists d :: (s == d || s == "+" + d) && d != [] && AllDigits(d) && Value(d) == v
  {
    if s != [] && s[0] == '+' {
      assert s == "+" + s[1..];
    }
    if d :| s == "+" + d && d != [] && AllDigits(d) && Value(d) == v {
      assert s[1..] == d;
    }
  }
}
