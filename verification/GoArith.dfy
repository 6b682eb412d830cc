/** Go's integer arithmetic where it differs from Dafny's. */
module GoArith {
  const TWO_TO_64 := 0x1_0000_0000_0000_0000

  /** Division truncates toward zero. */
  function Quot(a: int, b: int): int
    requires b > 0
  {
    if a >= 0 then a / b else -((-a) / b)
  }

  /** Conversion of a signed value to, and arithmetic in, uint64. */
  function Uint64(a: int): nat {
    a % TWO_TO_64
  }

  /** Conversion of a uint64 value to int64. */
  function ToInt64(n: nat): int
    requires n < TWO_TO_64
  {
    if n < TWO_TO_64 / 2 then n else n - TWO_TO_64
  }

  /** The remainder is smaller than the divisor and has the sign of the dividend. */
  lemma QuotTruncates(a: int, b: int)
    requires b > 0
    ensures var rest := a - b * Quot(a, b); -b < rest < b && (a >= 0 ==> rest >= 0) && (a <= 0 ==> rest <= 0)
  {
  }

  /** Both conversions keep the value modulo 2^64, in their own range. */
  lemma ConversionsWrap(a: int)
    ensures Uint64(a) < TWO_TO_64 && (Uint64(a) - a) % TWO_TO_64 == 0
    ensures var n := ToInt64(Uint64(a));
            -0x8000_0000_0000_0000 <= n < 0x8000_0000_0000_0000 && (n - a) % TWO_TO_64 == 0
    ensures -0x8000_0000_0000_0000 <= a < 0x8000_0000_0000_0000 ==> ToInt64(Uint64(a)) == a
  {
  }
}
