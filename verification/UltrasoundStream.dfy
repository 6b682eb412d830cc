/** The wire format of the ultrasound top-bid stream and the way of its value to the top-bid
    comparison (`common/ultrasoundbid*.go`, `services/bidcollect/ultrasound-stream.go`). */
module UltrasoundStream {
  import opened Wrappers
  import opened Bytes
  import opened Decimal
  import opened Bids
  import opened GoArith

  type U64 = n: nat | n < TWO_TO_64

  datatype StreamBid = StreamBid(
    timestamp: U64,
    slot: U64,
    blockNumber: U64,
    blockHash: seq<byte>,
    parentHash: seq<byte>,
    builderPubkey: seq<byte>,
    feeRecipient: seq<byte>,
    value: seq<byte>)
  {
    /** The lengths of the fixed-size fields. */
    predicate Valid() {
      |blockHash| == 32 && |parentHash| == 32 && |builderPubkey| == 48 && |feeRecipient| == 20 && |value| == 32
    }
  }

  const SIZE := 188

  function Encode(b: StreamBid): seq<byte> {
    ToLE(b.timestamp, 8) + ToLE(b.slot, 8) + ToLE(b.blockNumber, 8) + b.blockHash + b.parentHash
    + b.builderPubkey + b.feeRecipient + b.value
  }

  lemma EightBytes()
    ensures Pow256(8) == TWO_TO_64
  {
    assert Pow256(2) == 256 * 256;
    assert Pow256(4) == 256 * (256 * Pow256(2));
    assert Pow256(6) == 256 * (256 * Pow256(4));
    assert Pow256(8) == 256 * (256 * Pow256(6));
  }

  function ReadU64(bytes: seq<byte>): U64
    requires |bytes| == 8
  {
    EightBytes();
    ToFromLE(bytes);
    FromLE(bytes)
  }

  function Decode(buf: seq<byte>): Option<StreamBid> {
    if |buf| != SIZE then None
    else Some(StreamBid(ReadU64(buf[0..8]), ReadU64(buf[8..16]), ReadU64(buf[16..24]), buf[24..56], buf[56..88],
                        buf[88..136], buf[136..156], buf[156..188]))
  }

  /** The concatenation of parts, cut at the sums of their sizes. */
  lemma CutParts(t: seq<byte>, s: seq<byte>, n: seq<byte>, h: seq<byte>, p: seq<byte>, k: seq<byte>, f: seq<byte>,
                 v: seq<byte>)
    requires |t| == |s| == |n| == 8 && |h| == |p| == |v| == 32 && |k| == 48 && |f| == 20
    ensures var buf := t + s + n + h + p + k + f + v;
            && |buf| == SIZE && buf[0..8] == t && buf[8..16] == s && buf[16..24] == n && buf[24..56] == h
            && buf[56..88] == p && buf[88..136] == k && buf[136..156] == f && buf[156..188] == v
  {
  }

  lemma JoinParts(buf: seq<byte>)
    requires |buf| == SIZE
    ensures buf[0..8] + buf[8..16] + buf[16..24] + buf[24..56] + buf[56..88] + buf[88..136] + buf[136..156]
            + buf[156..188] == buf
  {
  }

  /** Unmarshalling undoes marshalling. */
  lemma DecodeEncode(b: StreamBid)
    requires b.Valid()
    ensures |Encode(b)| == SIZE && Decode(Encode(b)) == Some(b)
  {
    EightBytes();
    FromToLE(b.timestamp, 8);
    FromToLE(b.slot, 8);
    FromToLE(b.blockNumber, 8);
    CutParts(ToLE(b.timestamp, 8), ToLE(b.slot, 8), ToLE(b.blockNumber, 8), b.blockHash, b.parentHash, b.builderPubkey,
             b.feeRecipient, b.value);
  }

  /** Serialization of a container of fixed-size parts (SSZ specification, section "Serialization"):
      every field sits at the sum of the sizes before it, numbers with the low byte first. */
  lemma FieldOffsets(b: StreamBid)
    requires b.Valid()
    ensures var buf := Encode(b);
            && |buf| == 3 * 8 + 32 + 32 + 48 + 20 + 32
            && FromLE(buf[..8]) == b.timestamp && FromLE(buf[8..16]) == b.slot && FromLE(buf[16..24]) == b.blockNumber
            && buf[24..][..32] == b.blockHash && buf[56..][..32] == b.parentHash && buf[88..][..48] == b.builderPubkey
            && buf[136..][..20] == b.feeRecipient && buf[156..] == b.value
  {
    DecodeEncode(b);
    var buf := Encode(b);
    assert buf[24..56] == buf[24..][..32] && buf[56..88] == buf[56..][..32] && buf[88..136] == buf[88..][..48];
    assert buf[136..156] == buf[136..][..20] && buf[156..188] == buf[156..];
  }

  /** Exactly the buffers of 188 bytes are accepted, and marshalling gives them back. */
  lemma EncodeDecode(buf: seq<byte>)
    ensures Decode(buf).Some? <==> |buf| == SIZE
    ensures Decode(buf).Some? ==> Decode(buf).value.Valid() && Encode(Decode(buf).value) == buf
  {
    if |buf| == SIZE {
      ToFromLE(buf[0..8]);
      ToFromLE(buf[8..16]);
      ToFromLE(buf[16..24]);
      JoinParts(buf);
    }
  }

  // ---------------------------------------------------------------- the struct and its two methods

  class UltrasoundStreamBid {
    var timestamp: U64
    var slot: U64
    var blockNumber: U64
    var blockHash: seq<byte>
    var parentHash: seq<byte>
    var builderPubkey: seq<byte>
    var feeRecipient: seq<byte>
    var value: seq<byte>

    ghost predicate Valid()
      reads this
    {
      Contents().Valid()
    }

    function Contents(): StreamBid
      reads this
    {
      StreamBid(timestamp, slot, blockNumber, blockHash, parentHash, builderPubkey, feeRecipient, value)
    }

    constructor ()
      ensures Valid()
    {
      timestamp, slot, blockNumber := 0, 0, 0;
      blockHash, parentHash := seq(32, i => 0), seq(32, i => 0);
      builderPubkey, feeRecipient, value := seq(48, i => 0), seq(20, i => 0), seq(32, i => 0);
    }

    method MarshalSSZTo(buf: seq<byte>) returns (dst: seq<byte>)
      requires Valid()
      ensures dst == buf + Encode(Contents())
    {
      dst := buf;
      dst := dst + ToLE(timestamp, 8);
      dst := dst + ToLE(slot, 8);
      dst := dst + ToLE(blockNumber, 8);
      dst := dst + blockHash;
      dst := dst + parentHash;
      dst := dst + builderPubkey;
      dst := dst + feeRecipient;
      dst := dst + value;
    }

    /** A buffer of the wrong size is an error and leaves the struct as it is. */
    method UnmarshalSSZ(buf: seq<byte>) returns (ok: bool)
      requires Valid()
      modifies this
      ensures Valid()
      ensures ok == Decode(buf).Some?
      ensures Contents() == if ok then Decode(buf).value else old(Contents())
    {
      if |buf| != SIZE {
        return false;
      }
      timestamp := ReadU64(buf[0..8]);
      slot := ReadU64(buf[8..16]);
      blockNumber := ReadU64(buf[16..24]);
      blockHash := buf[24..56];
      parentHash := buf[56..88];
      builderPubkey := buf[88..136];
      feeRecipient := buf[136..156];
      value := buf[156..188];
      ok := true;
    }
  }

  // ---------------------------------------------------------------- from the wire to the comparison

  /** `U256.String`: the bytes reversed, read as a big-endian number, printed. */
  function U256String(value: seq<byte>): string {
    Print(FromBE(Reversed(value)))
  }

  const SOURCE_TYPE_ULTRASOUND_STREAM := 2

  function UltrasoundStreamToCommonBid(b: StreamBid, relay: string, receivedAtMs: int): CommonBid {
    CommonBid(SOURCE_TYPE_ULTRASOUND_STREAM, receivedAtMs, ToInt64(b.timestamp), b.slot, b.blockNumber,
              Hex(b.blockHash), Hex(b.parentHash), Hex(b.builderPubkey), U256String(b.value), Hex(b.feeRecipient),
              relay)
  }

  /** The value reaches the top-bid comparison intact: it is the little-endian integer of the
      last 32 bytes of the message. */
  lemma WireValueIsCompared(buf: seq<byte>, relay: string, receivedAtMs: int)
    requires |buf| == SIZE
    ensures ValueAsBigInt(UltrasoundStreamToCommonBid(Decode(buf).value, relay, receivedAtMs)) == FromLE(buf[156..188])
  {
    ReversedIsBigEndian(buf[156..188]);
    BigIntOfPrint(FromLE(buf[156..188]));
  }

  /** Which bytes of the message become which field of the bid. */
  lemma WireFields(buf: seq<byte>, relay: string, receivedAtMs: int)
    requires |buf| == SIZE
    ensures var bid := UltrasoundStreamToCommonBid(Decode(buf).value, relay, receivedAtMs);
            && bid.slot == FromLE(buf[8..16]) && bid.blockNumber == FromLE(buf[16..24])
            && (bid.timestampMs - FromLE(buf[0..8])) % TWO_TO_64 == 0
            && bid.blockHash == Hex(buf[24..56]) && bid.parentHash == Hex(buf[56..88])
            && bid.builderPubkey == Hex(buf[88..136]) && bid.blockFeeRecipient == Hex(buf[136..156])
            && bid.value == Print(FromLE(buf[156..188]))
            && bid.relay == relay && bid.receivedAtMs == receivedAtMs
  {
    ReversedIsBigEndian(buf[156..188]);
  }

  /** Stream bids meet the hypothesis of the deduplication theorems, and their key is as good as
      the five fields on the wire. */
  lemma StreamKeyIsTheWireFields(a: StreamBid, b: StreamBid, relayA: string, relayB: string, receivedA: int,
                                 receivedB: int)
    requires a.Valid() && b.Valid()
    ensures HyphenFree(UltrasoundStreamToCommonBid(a, relayA, receivedA))
    ensures UniqueKey(UltrasoundStreamToCommonBid(a, relayA, receivedA))
            == UniqueKey(UltrasoundStreamToCommonBid(b, relayB, receivedB)) <==>
              a.slot == b.slot && a.blockHash == b.blockHash && a.parentHash == b.parentHash
              && a.builderPubkey == b.builderPubkey && a.value == b.value
  {
    var x, y := UltrasoundStreamToCommonBid(a, relayA, receivedA), UltrasoundStreamToCommonBid(b, relayB, receivedB);
    UniqueKeyInjective(x, y);
    if TupleOf(x) == TupleOf(y) {
      HexTextInjective(a.blockHash, b.blockHash);
      HexTextInjective(a.parentHash, b.parentHash);
      HexTextInjective(a.builderPubkey, b.builderPubkey);
      ParsePrint(FromBE(Reversed(a.value)));
      ParsePrint(FromBE(Reversed(b.value)));
      ReversedIsBigEndian(a.value);
      ReversedIsBigEndian(b.value);
      ToFromLE(a.value);
      ToFromLE(b.value);
    }
  }

  lemma HexTextInjective(a: seq<byte>, b: seq<byte>)
    requires Hex(a) == Hex(b)
    ensures a == b
  {
    assert HexDigits(a) == Hex(a)[2..] == Hex(b)[2..] == HexDigits(b);
    HexInjective(a, b);
  }
}
