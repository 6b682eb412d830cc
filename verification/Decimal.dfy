/** Decimal text of integers: `fmt` with `%d`, `big.Int.String` and `big.Int.SetString(s, 10)`. */
module Decimal {
  predicate IsDigit(c: char) {
    '0' <= c <= '9'
  }

  predicate AllDigits(s: string) {
    forall i | 0 <= i < |s| :: IsDigit(s[i])
  }

  function DigitValue(c: char): (d: nat)
    requires IsDigit(c)
    ensures d < 10
  {
    c as int - '0' as int
  }

  function DigitChar(d: nat): (c: char)
    requires d < 10
    ensures IsDigit(c) && DigitValue(c) == d
  {
    ('0' as int + d) as char
  }

  /** Only digits, and no superfluous zero in front. */
  function Print(n: nat): (s: string)
    ensures |s| > 0 && AllDigits(s)
    ensures s[0] == '0' ==> n == 0 && s == "0"
  {
    if n < 10 then [DigitChar(n)] else Print(n / 10) + [DigitChar(n % 10)]
  }

  function Parse(s: string): nat
    requires AllDigits(s)
  {
    if s == "" then 0 else 10 * Parse(s[..|s| - 1]) + DigitValue(s[|s| - 1])
  }

  lemma {:induction false} ParsePrint(n: nat)
    ensures Parse(Print(n)) == n
  {
    if n >= 10 {
      var front := Print(n / 10);
      assert Print(n)[..|Print(n)| - 1] == front;
      ParsePrint(n / 10);
    } else {
      assert Print(n)[..0] == "";
    }
  }

  /** The digits at the beginning of a text. */
  function DigitPrefix(s: string): (d: string)
    ensures AllDigits(d) && d <= s
    ensures |d| < |s| ==> !IsDigit(s[|d|])
    ensures AllDigits(s) ==> d == s
  {
    if s == "" || !IsDigit(s[0]) then ""
    else
      var d := DigitPrefix(s[1..]);
      assert AllDigits(s) ==> AllDigits(s[1..]);
      [s[0]] + d
  }

  /** The value left in a fresh `big.Int` by `SetString(s, 10)`: an optional sign and the digits
      that follow it; whatever comes after them is not read. */
  function BigIntOf(s: string): int {
    if s != "" && s[0] == '-' then 0 - Parse(DigitPrefix(s[1..]))
    else if s != "" && s[0] == '+' then Parse(DigitPrefix(s[1..]))
    else Parse(DigitPrefix(s))
  }

  lemma BigIntOfPrint(n: nat)
    ensures BigIntOf(Print(n)) == n
  {
    ParsePrint(n);
  }
}
