/** The text kept of a block's extra data (`database/typesconv.go`). */
module ExtraData {
  import opened Bytes

  predicate Printable(b: byte) {
    32 <= b <= 126
  }

  function Sanitised(b: byte): byte {
    if Printable(b) then b else 32
  }

  /** Bytes outside the printable ASCII range become spaces; what is left is valid UTF-8. */
  function ExtraDataToUtf8Str(data: seq<byte>): string {
    seq(|data|, i requires 0 <= i < |data| => Sanitised(data[i]) as char)
  }

  method ExtraDataToUtf8StrInPlace(extraData: array<byte>) returns (s: string)
    modifies extraData
    ensures s == ExtraDataToUtf8Str(old(extraData[..]))
    ensures forall i | 0 <= i < extraData.Length :: extraData[i] == Sanitised(old(extraData[i]))
  {
    for i := 0 to extraData.Length
      invariant forall j | 0 <= j < i :: extraData[j] == Sanitised(old(extraData[j]))
      invariant forall j | i <= j < extraData.Length :: extraData[j] == old(extraData[j])
    {
      if extraData[i] < 32 || extraData[i] > 126 {
        extraData[i] := 32;
      }
    }
    s := seq(extraData.Length, i requires 0 <= i < extraData.Length reads extraData => extraData[i] as char);
  }

  /** Every byte that is not printable becomes a space, and others stay: no line break survives, and text
      that has been sanitised once is not changed again. */
  lemma SanitisedText(data: seq<byte>)
    ensures forall c | c in ExtraDataToUtf8Str(data) :: ' ' <= c <= '~'
    ensures '\n' !in ExtraDataToUtf8Str(data)
    ensures |ExtraDataToUtf8Str(data)| == |data|
    ensures forall i | 0 <= i < |data| && !(32 <= data[i] <= 126) :: ExtraDataToUtf8Str(data)[i] == ' '
    ensures (forall b | b in data :: Printable(b)) ==>
              forall i | 0 <= i < |data| :: ExtraDataToUtf8Str(data)[i] as int == data[i] as int
  {
    forall c | c in ExtraDataToUtf8Str(data) ensures ' ' <= c <= '~' {
      var i :| 0 <= i < |data| && c == Sanitised(data[i]) as char;
    }
  }
}
