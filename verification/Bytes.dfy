/** Byte strings and the integers they stand for. */
module Bytes {
  newtype byte = b: int | 0 <= b < 256

  function Pow256(k: nat): nat {
    if k == 0 then 1 else 256 * Pow256(k - 1)
  }

  /** Least significant byte first. */
  function FromLE(bytes: seq<byte>): nat {
    if bytes == [] then 0 else bytes[0] as nat + 256 * FromLE(bytes[1..])
  }

  /** Most significant byte first, as `big.Int.SetBytes` reads them. */
  function FromBE(bytes: seq<byte>): nat {
    if bytes == [] then 0 else 256 * FromBE(bytes[..|bytes| - 1]) + bytes[|bytes| - 1] as nat
  }

  /** The `k` lowest bytes of `n`, least significant first. */
  function ToLE(n: nat, k: nat): (bytes: seq<byte>)
    ensures |bytes| == k
  {
    if k == 0 then [] else [(n % 256) as byte] + ToLE(n / 256, k - 1)
  }

  /** The first byte is the lowest. */
  lemma FirstByteIsLowest(bytes: seq<byte>)
    requires bytes != []
    ensures FromLE(bytes) % 256 == bytes[0] as nat && FromLE(bytes) / 256 == FromLE(bytes[1..])
  {
  }

  lemma {:induction false} FromToLE(n: nat, k: nat)
    requires n < Pow256(k)
    ensures FromLE(ToLE(n, k)) == n
  {
    if k > 0 {
      FromToLE(n / 256, k - 1);
      assert ToLE(n, k)[1..] == ToLE(n / 256, k - 1);
    }
  }

  lemma {:induction false} ToFromLE(bytes: seq<byte>)
    ensures FromLE(bytes) < Pow256(|bytes|)
    ensures ToLE(FromLE(bytes), |bytes|) == bytes
  {
    if bytes != [] {
      ToFromLE(bytes[1..]);
      assert bytes == [bytes[0]] + bytes[1..];
    }
  }

  function Reversed(bytes: seq<byte>): (r: seq<byte>)
    ensures |r| == |bytes|
  {
    seq(|bytes|, i requires 0 <= i < |bytes| => bytes[|bytes| - 1 - i])
  }

  lemma {:induction false} ReversedIsBigEndian(bytes: seq<byte>)
    ensures FromBE(Reversed(bytes)) == FromLE(bytes)
  {
    if bytes != [] {
      ReversedIsBigEndian(bytes[1..]);
      assert Reversed(bytes)[..|bytes| - 1] == Reversed(bytes[1..]);
    }
  }

  /** Copies the bytes and swaps opposite ends, from the middle outwards. */
  method ReverseBytes(src: array<byte>) returns (dst: array<byte>)
    ensures fresh(dst) && dst[..] == Reversed(src[..])
  {
    var n := src.Length;
    ghost var bytes := src[..];
    dst := new byte[n](i requires 0 <= i < n reads src => src[i]);
    var i := n / 2 - 1;
    while i >= 0
      invariant -1 <= i <= n / 2 - 1
      invariant forall k | 0 <= k <= i :: dst[k] == bytes[k]
      invariant forall k | i < k < n - 1 - i :: dst[k] == bytes[n - 1 - k]
      invariant forall k | n - 1 - i <= k < n :: dst[k] == bytes[k]
    {
      var opp := n - 1 - i;
      dst[i], dst[opp] := dst[opp], dst[i];
      i := i - 1;
    }
  }

  function HexChar(d: nat): (c: char)
    requires d < 16
    ensures c != '-'
  {
    if d < 10 then ('0' as int + d) as char else ('a' as int + d - 10) as char
  }

  /** `hexutil.Encode`: lower-case digits behind "0x". */
  function Hex(bytes: seq<byte>): string {
    "0x" + HexDigits(bytes)
  }

  function HexDigits(bytes: seq<byte>): (s: string)
    ensures |s| == 2 * |bytes| && '-' !in s
  {
    if bytes == [] then ""
    else [HexChar(bytes[0] as nat / 16), HexChar(bytes[0] as nat % 16)] + HexDigits(bytes[1..])
  }

  lemma {:induction false} HexInjective(a: seq<byte>, b: seq<byte>)
    requires HexDigits(a) == HexDigits(b)
    ensures a == b
  {
    if a != [] {
      var s := HexDigits(a);
      assert s[0] == HexChar(a[0] as nat / 16) == HexChar(b[0] as nat / 16);
      assert s[1] == HexChar(a[0] as nat % 16) == HexChar(b[0] as nat % 16);
      assert HexDigits(a[1..]) == s[2..] == HexDigits(b[1..]);
      HexInjective(a[1..], b[1..]);
      assert a == [a[0]] + a[1..] && b == [b[0]] + b[1..];
    }
  }

  const HEX_DIGITS := "0123456789abcdef"

  lemma HexCharIsDigit(d: nat)
    requires d < 16
    ensures HexChar(d) == HEX_DIGITS[d]
  {
  }

  /** Two digits for every byte, the high one first. */
  lemma {:induction false} HexDigitAt(bytes: seq<byte>, k: nat)
    requires k < |bytes|
    ensures |Hex(bytes)| == 2 + 2 * |bytes| && Hex(bytes)[..2] == "0x"
    ensures Hex(bytes)[2 + 2 * k] == HEX_DIGITS[bytes[k] as nat / 16]
    ensures Hex(bytes)[3 + 2 * k] == HEX_DIGITS[bytes[k] as nat % 16]
  {
    var s := HexDigits(bytes);
    HexCharIsDigit(bytes[k] as nat / 16);
    HexCharIsDigit(bytes[k] as nat % 16);
    if k == 0 {
      assert s[0] == HexChar(bytes[0] as nat / 16) && s[1] == HexChar(bytes[0] as nat % 16);
    } else {
      HexDigitAt(bytes[1..], k - 1);
      assert s[2..] == HexDigits(bytes[1..]);
      assert s[2 * k] == s[2..][2 * (k - 1)] && s[2 * k + 1] == s[2..][2 * (k - 1) + 1];
    }
  }
}
