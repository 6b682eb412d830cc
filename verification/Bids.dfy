/** The common bid and its deduplication key (`services/bidcollect/types/types.go`). */
module Bids {
  import opened Decimal

  datatype CommonBid = CommonBid(
    sourceType: int,
    receivedAtMs: int,
    timestampMs: int,
    slot: nat,
    blockNumber: nat,
    blockHash: string,
    parentHash: string,
    builderPubkey: string,
    value: string,
    blockFeeRecipient: string,
    relay: string)

  function ValueAsBigInt(bid: CommonBid): int {
    BigIntOf(bid.value)
  }

  function UniqueKey(bid: CommonBid): string {
    Print(bid.slot) + "-" + bid.blockHash + "-" + bid.parentHash + "-" + bid.builderPubkey + "-" + bid.value
  }

  /** The tuple the key stands for. */
  datatype Tuple = Tuple(slot: nat, blockHash: string, parentHash: string, builderPubkey: string, value: string)

  function TupleOf(bid: CommonBid): Tuple {
    Tuple(bid.slot, bid.blockHash, bid.parentHash, bid.builderPubkey, bid.value)
  }

  predicate HyphenFree(bid: CommonBid) {
    '-' !in bid.blockHash && '-' !in bid.parentHash && '-' !in bid.builderPubkey
  }

  lemma FirstHyphenSplits(a: string, x: string, b: string, y: string)
    requires a + "-" + x == b + "-" + y
    requires '-' !in a && '-' !in b
    ensures a == b && x == y
  {
    var s := a + "-" + x;
    assert s[|a|] == '-' && s[|b|] == '-';
    assert a == s[..|a|] && b == s[..|b|];
    assert x == s[|a| + 1..] && y == s[|b| + 1..];
  }

  /** On hyphen-free hashes and keys the text determines the tuple. */
  lemma UniqueKeyInjective(a: CommonBid, b: CommonBid)
    requires HyphenFree(a) && HyphenFree(b)
    ensures UniqueKey(a) == UniqueKey(b) <==> TupleOf(a) == TupleOf(b)
  {
    if UniqueKey(a) == UniqueKey(b) {
      var a4, b4 := a.builderPubkey + "-" + a.value, b.builderPubkey + "-" + b.value;
      var a3, b3 := a.parentHash + "-" + a4, b.parentHash + "-" + b4;
      var a2, b2 := a.blockHash + "-" + a3, b.blockHash + "-" + b3;
      assert UniqueKey(a) == Print(a.slot) + "-" + a2;
      assert UniqueKey(b) == Print(b.slot) + "-" + b2;
      FirstHyphenSplits(Print(a.slot), a2, Print(b.slot), b2);
      FirstHyphenSplits(a.blockHash, a3, b.blockHash, b3);
      FirstHyphenSplits(a.parentHash, a4, b.parentHash, b4);
      FirstHyphenSplits(a.builderPubkey, a.value, b.builderPubkey, b.value);
      ParsePrint(a.slot);
      ParsePrint(b.slot);
    }
  }

  /** What a key looks like. */
  lemma KeyText(bid: CommonBid)
    requires bid.slot == 42 && bid.blockHash == "0xb" && bid.parentHash == "0xa" && bid.builderPubkey == "0xc"
    requires bid.value == "7"
    ensures UniqueKey(bid) == "42-0xb-0xa-0xc-7"
  {
    assert Print(42) == Print(4) + "2";
  }
}
