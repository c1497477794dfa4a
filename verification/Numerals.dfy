/** Decimal numerals: Rust's `to_string` and `str::parse::<u32>`. */
module Numerals {
  import opened Wrappers
  import opened Text

  const U32_LIMIT := 0x1_0000_0000

  function DigitOf(n: nat): char
    requires n < 10
  {
    n as char + '0'
  }

  /** `n.to_string()`: no sign, no leading zero. */
  function Decimal(n: nat): (s: string)
    ensures |s| > 0
    ensures forall i | 0 <= i < |s| :: IsDigitAscii(s[i])
  {
    if n < 10 then [DigitOf(n)] else Decimal(n / 10) + [DigitOf(n % 10)]
  }

  /** The value of a digit string, most significant digit first. */
  function DigitsValue(s: string): nat
    requires forall i | 0 <= i < |s| :: IsDigitAscii(s[i])
  {
    if s == [] then 0
    else
      assert IsDigitAscii(s[|s| - 1]);
      10 * DigitsValue(s[..|s| - 1]) + (s[|s| - 1] as int - '0' as int)
  }

  function Unsigned(t: string): string {
    if |t| > 0 && t[0] == '+' then t[1..] else t
  }

  /** `str::parse::<u32>().ok()`: an optional `+`, then digits, within 32 bits. */
  function ParseU32(t: string): Option<nat> {
    var d := Unsigned(t);
    if d == [] || exists i | 0 <= i < |d| :: !IsDigitAscii(d[i]) then None
    else if DigitsValue(d) < U32_LIMIT then Some(DigitsValue(d))
    else None
  }

  lemma {:induction false} DecimalValue(n: nat)
    ensures DigitsValue(Decimal(n)) == n
  {
    if n >= 10 {
      DecimalValue(n / 10);
      assert Decimal(n)[..|Decimal(n)| - 1] == Decimal(n / 10);
    }
  }

  /** Distinct numbers have distinct numerals. */
  lemma DecimalInjective(m: nat, n: nat)
    ensures Decimal(m) == Decimal(n) <==> m == n
  {
    DecimalValue(m);
    DecimalValue(n);
  }

  /** Printing a 32-bit number and parsing it back is the identity. */
  lemma ParseDecimal(n: nat)
    requires n < U32_LIMIT
    ensures ParseU32(Decimal(n)) == Some(n)
  {
    DecimalValue(n);
    assert IsDigitAscii(Decimal(n)[0]);
  }

  // ---- What is taken for a number ------------------------------------------------------

  /** The value of a numeral: nothing for none, and each further digit takes it tenfold and adds its own. */
  lemma DigitsSpelled(s: string, k: nat)
    requires (forall i | 0 <= i < |s| :: IsDigitAscii(s[i])) && k < 10
    ensures DigitsValue("") == 0
    ensures IsDigitAscii(DIGITS[k]) && DigitsValue(s + [DIGITS[k]]) == 10 * DigitsValue(s) + k
  {
    var t := s + [DIGITS[k]];
    assert DIGITS[k] as int == '0' as int + k;
    assert t[..|t| - 1] == s;
  }

  ghost predicate AllDigits(s: string) {
    s != "" && forall i | 0 <= i < |s| :: s[i] in DIGITS
  }

  /** Digits are taken for their value if it is below 2^32, with a `+` before them or without. */
  lemma ParsesDigits(d: string)
    requires AllDigits(d)
    ensures forall i | 0 <= i < |d| :: IsDigitAscii(d[i])
    ensures ParseU32(d) == ParseU32("+" + d)
    ensures ParseU32(d) == if DigitsValue(d) < 0x1_0000_0000 then Some(DigitsValue(d)) else None
  {
    forall i | 0 <= i < |d| ensures IsDigitAscii(d[i]) { DigitListed(d[i]); }
    hide DigitsValue;
    assert ("+" + d)[1..] == d;
  }

  /** And nothing else is. */
  lemma ParsesNothingElse(t: string)
    ensures ParseU32(t).Some? ==> AllDigits(t) || (t != "" && t[0] == '+' && AllDigits(t[1..]))
  {
    if ParseU32(t).Some? {
      var d := Unsigned(t);
      forall i | 0 <= i < |d| ensures d[i] in DIGITS { DigitListed(d[i]); }
    }
  }
}
