/**
 * Decimal text of integers: Java's string concatenation of an `int` (used for `li $v0 <value>`
 * and for label suffixes) and `Integer.parseInt`, which the parser uses to tell numbers from names.
 */
module Decimal {
  import opened Options
  import opened JavaInt

  predicate IsDigitChar(c: char) {
    '0' <= c <= '9'
  }

  predicate AllDigits(s: string) {
    forall i :: 0 <= i < |s| ==> IsDigitChar(s[i])
  }

  function DigitChar(d: nat): (c: char)
    requires d < 10
    ensures IsDigitChar(c) && c as int - '0' as int == d
  {
    ('0' as int + d) as char
  }

  /** The decimal digits of `n`, without leading zeros. */
  function NatToString(n: nat): (s: string)
    ensures |s| >= 1 && AllDigits(s)
    ensures |s| > 1 ==> s[0] != '0'
    decreases n
  {
    if n < 10 then [DigitChar(n)] else NatToString(n / 10) + [DigitChar(n % 10)]
  }

  /** Java's `"" + i` for an `int`: an optional minus sign, then the digits of the magnitude. */
  function IntToString(i: int): (s: string)
    ensures |s| >= 1
    ensures i >= 0 ==> s == NatToString(i)
    ensures i < 0 ==> s == "-" + NatToString(-i)
  {
    if i < 0 then "-" + NatToString(-i) else NatToString(i)
  }

  /** The number a run of decimal digits denotes (leading zeros allowed). */
  function DigitsValue(s: string): nat
    requires AllDigits(s)
    decreases |s|
  {
    if |s| == 0 then 0 else DigitsValue(s[..|s| - 1]) * 10 + (s[|s| - 1] as int - '0' as int)
  }

  /** Reading back the digits of `n` gives `n`. */
  lemma {:induction false} DigitsValueOfNatToString(n: nat)
    ensures DigitsValue(NatToString(n)) == n
    decreases n
  {
    if n >= 10 {
      var s := NatToString(n);
      assert s[..|s| - 1] == NatToString(n / 10);
      DigitsValueOfNatToString(n / 10);
    }
  }

  /** Distinct naturals have distinct decimal spellings, so numbered labels never coincide. */
  lemma NatToStringInjective(a: nat, b: nat)
    requires NatToString(a) == NatToString(b)
    ensures a == b
  {
    DigitsValueOfNatToString(a);
    DigitsValueOfNatToString(b);
  }

  /**
   * `Integer.parseInt(s)` in radix 10: an optional `-` or `+`, at least one digit, and a value
   * within `int` range; anything else throws NumberFormatException, here `None`.
   */
  function ParseInt(s: string): (r: Option<Int32>)
    ensures r.Some? ==> |s| > 0 && (IsDigitChar(s[0]) || s[0] == '-' || s[0] == '+')
    ensures r.Some? && s[0] != '-' ==> r.value >= 0
  {
    if |s| == 0 then None
    else if s[0] == '-' || s[0] == '+' then
      var body := s[1..];
      if |body| == 0 || !AllDigits(body) then None
      else
        var v: int := if s[0] == '-' then -(DigitsValue(body) as int) else DigitsValue(body);
        if MIN <= v <= MAX then Some(v) else None
    else if AllDigits(s) && DigitsValue(s) <= MAX then Some(DigitsValue(s))
    else None
  }

  /** `parseInt` reads back what `toString` writes, for every `int`. */
  lemma ParseIntOfIntToString(v: Int32)
    ensures ParseInt(IntToString(v)) == Some(v)
  {
    if v < 0 {
      var s := IntToString(v);
      var n: nat := -(v as int);
      assert s[1..] == NatToString(n);
      DigitsValueOfNatToString(n);
    } else {
      DigitsValueOfNatToString(v);
    }
  }

  /** A digit run whose value exceeds `int` range is not a number to `parseInt`. */
  lemma ParseIntRejectsOverflow(s: string)
    requires |s| > 0 && AllDigits(s) && DigitsValue(s) > MAX
    ensures ParseInt(s) == None
  {
  }
}
