/** The check of one delivered payload against the chain
    (the worker body in `cmd/core/check-payload-value.go`, without `--check-tx`). */
module PaymentCheck {
  import opened Wrappers
  import opened Database
  import opened Bytes
  import opened ExtraData
  import opened Sequences

  datatype Tx = Tx(chainId: nat, from: string, to: Option<string>, value: int, isBlobTx: bool, blobHashes: nat)

  datatype Block = Block(number: int, coinbase: string, extra: seq<byte>, time: int, txs: seq<Tx>)

  /** What the two eth nodes together answer, and the builder-owned addresses of a coinbase.
      `None` is a block that is not found, or a header that is nil. */
  datatype Chain = Chain(
    blockByHash: string -> Option<Block>,
    headerHashByNumber: int -> Option<string>,
    balanceAt: (string, int) -> int,
    builderAddresses: map<string, set<string>>)

  /** The selected columns of a row that the outcome depends on. */
  datatype Input = Input(blockHash: string, proposerFeeRecipient: string, valueClaimedWei: int,
    blockNumber: Option<int>)

  function InputOf(r: Row): Input {
    Input(r.blockHash, r.proposerFeeRecipient, r.valueClaimedWei, r.checks.blockNumber)
  }

  /** `Save` carries the columns of the update; `Crash` is the nil dereference of the last
      transaction's recipient. */
  datatype Outcome = Save(columns: CheckColumns) | NoSave | Crash

  function BalanceDiff(chain: Chain, address: string, number: int): int {
    chain.balanceAt(address, number) - chain.balanceAt(address, number - 1)
  }

  function BlobTxs(txs: seq<Tx>): nat {
    if txs == [] then 0 else BlobTxs(txs[..|txs| - 1]) + if txs[|txs| - 1].isBlobTx then 1 else 0
  }

  function Blobs(txs: seq<Tx>): nat {
    if txs == [] then 0
    else Blobs(txs[..|txs| - 1]) + if txs[|txs| - 1].isBlobTx then txs[|txs| - 1].blobHashes else 0
  }

  predicate ToOwnAddress(chain: Chain, coinbase: string, tx: Tx) {
    && tx.chainId != 0 && tx.from == coinbase && tx.to.Some?
    && coinbase in chain.builderAddresses && tx.to.value in chain.builderAddresses[coinbase]
  }

  /** What the coinbase sent to addresses of its own builder. */
  function SentToOwn(chain: Chain, coinbase: string, txs: seq<Tx>): int {
    if txs == [] then 0
    else
      var last := txs[|txs| - 1];
      SentToOwn(chain, coinbase, txs[..|txs| - 1]) + if ToOwnAddress(chain, coinbase, last) then last.value else 0
  }

  predicate LastTxPays(e: Input, block: Block) {
    && block.txs != []
    && block.txs[|block.txs| - 1].to == Some(e.proposerFeeRecipient)
  }

  /** The columns known once the block is found by its hash. */
  function FoundColumns(e: Input, block: Block): CheckColumns {
    EMPTY_CHECKS.(
      foundOnChain := Some(true),
      blockNumber := if e.blockNumber.Some? then e.blockNumber else Some(block.number),
      blockCoinbaseAddr := Some(block.coinbase),
      blockCoinbaseIsProposer := Some(block.coinbase == e.proposerFeeRecipient))
  }

  function PaidColumns(chain: Chain, e: Input, block: Block): CheckColumns {
    var delivered := BalanceDiff(chain, e.proposerFeeRecipient, block.number);
    var off := delivered != e.valueClaimedWei;
    var diff := if off && LastTxPays(e, block) then e.valueClaimedWei - block.txs[|block.txs| - 1].value
                else e.valueClaimedWei - delivered;
    FoundColumns(e, block).(
      numBlobTxs := Some(BlobTxs(block.txs)),
      numBlobs := Some(Blobs(block.txs)),
      extraData := ExtraDataToUtf8Str(block.extra),
      valueCheckOk := Some(diff == 0),
      valueCheckMethod := Some(if off then "balanceDiff+txValue" else "balanceDiff"),
      valueDeliveredWei := Some(delivered),
      valueDeliveredDiffWei := Some(diff),
      blockTimestamp := Some(block.time),
      coinbaseDiffWei :=
        if block.coinbase == e.proposerFeeRecipient then None
        else Some(BalanceDiff(chain, block.coinbase, block.number) + SentToOwn(chain, block.coinbase, block.txs)))
  }

  function Check(chain: Chain, e: Input): Outcome {
    match chain.blockByHash(e.blockHash)
    case None => Save(EMPTY_CHECKS.(blockNumber := e.blockNumber, foundOnChain := Some(false)))
    case Some(block) =>
      match chain.headerHashByNumber(block.number)
      case None => NoSave
      case Some(hash) =>
        if hash != e.blockHash then Save(FoundColumns(e, block).(slotMissed := Some(true)))
        else if BalanceDiff(chain, e.proposerFeeRecipient, block.number) != e.valueClaimedWei && block.txs != []
                && block.txs[|block.txs| - 1].to == None then Crash
        else Save(PaidColumns(chain, e, block))
  }

  /** The block is on chain and is the one at its number. */
  predicate Confirmed(chain: Chain, blockHash: string) {
    chain.blockByHash(blockHash).Some?
      && chain.headerHashByNumber(chain.blockByHash(blockHash).value.number) == Some(blockHash)
  }

  /** The value check is made exactly for confirmed blocks, and it passes exactly if the fee
      recipient's balance grew by the claim or the last transaction pays it the claim. */
  lemma CheckMeaning(chain: Chain, e: Input)
    requires Check(chain, e).Save?
    ensures var c := Check(chain, e).columns;
            && (c.valueCheckOk.Some? <==> Confirmed(chain, e.blockHash))
            && (c.valueCheckOk.Some? ==>
                  var block := chain.blockByHash(e.blockHash).value;
                  (c.valueCheckOk.value <==>
                     || BalanceDiff(chain, e.proposerFeeRecipient, block.number) == e.valueClaimedWei
                     || (LastTxPays(e, block) && block.txs[|block.txs| - 1].value == e.valueClaimedWei)))
  {
  }

  /** Exactly when the worker dereferences a nil address: the block is confirmed, its balance check
      fails, and its last transaction creates a contract. */
  lemma CrashExactly(chain: Chain, e: Input)
    ensures Check(chain, e).Crash? <==>
              && Confirmed(chain, e.blockHash)
              && var block := chain.blockByHash(e.blockHash).value;
                 && BalanceDiff(chain, e.proposerFeeRecipient, block.number) != e.valueClaimedWei
                 && block.txs != [] && block.txs[|block.txs| - 1].to == None
  {
  }

  /** A chain whose only block ends in the creation of a contract; every balance grows by one. */
  function ContractCreation(): Chain {
    Chain(h => Some(Block(7, "coinbase", [], 0, [Tx(1, "deployer", None, 0, false, 0)])),
          n => Some("block"), (address, n) => n, map[])
  }

  lemma ContractCreationCrashes()
    ensures Check(ContractCreation(), Input("block", "proposer", 100, None)) == Crash
  {
    assert BalanceDiff(ContractCreation(), "proposer", 7) == 1;
  }

  /** Checking again after the update finds the same: the only column fed back is the block
      number, and it stays. */
  lemma CheckIsIdempotent(chain: Chain, e: Input)
    requires Check(chain, e).Save?
    ensures Check(chain, e.(blockNumber := Check(chain, e).columns.blockNumber)) == Check(chain, e)
  {
  }

  // ---------------------------------------------------------------- what the columns say

  /** A row whose block has no header at its number is not saved. */
  lemma UnsavedExactly(chain: Chain, r: Row)
    ensures Check(chain, InputOf(r)).NoSave? <==>
              && chain.blockByHash(r.blockHash).Some?
              && chain.headerHashByNumber(chain.blockByHash(r.blockHash).value.number) == None
  {
  }

  /** The columns on where the block was found; a block number in the row stays. */
  lemma FoundOrMissed(chain: Chain, r: Row)
    requires Check(chain, InputOf(r)).Save?
    ensures var c, answer := Check(chain, InputOf(r)).columns, chain.blockByHash(r.blockHash);
            && c.foundOnChain == Some(answer.Some?)
            && (c.slotMissed == Some(true) <==>
                  answer.Some? && chain.headerHashByNumber(answer.value.number) != Some(r.blockHash))
            && (c.slotMissed.Some? ==> c.slotMissed.value)
            && (r.checks.blockNumber.Some? ==> c.blockNumber == r.checks.blockNumber)
            && (r.checks.blockNumber.None? && answer.Some? ==> c.blockNumber == Some(answer.value.number))
            && (r.checks.blockNumber.None? && answer.None? ==> c.blockNumber == None)
            && (answer.Some? ==> c.blockCoinbaseAddr == Some(answer.value.coinbase))
            && (answer.Some? ==>
                  c.blockCoinbaseIsProposer == Some(answer.value.coinbase == r.proposerFeeRecipient))
            && (!Confirmed(chain, r.blockHash) ==> c.valueDeliveredWei == None && c.valueDeliveredDiffWei == None)
  {
  }

  /** The value columns of a confirmed block: what the fee recipient's balance grew by, and the claim less
      that, or less the last transaction if the balance is off and that pays the fee recipient. */
  lemma ClaimLessDelivered(chain: Chain, r: Row)
    requires Confirmed(chain, r.blockHash) && Check(chain, InputOf(r)).Save?
    ensures var c, block := Check(chain, InputOf(r)).columns, chain.blockByHash(r.blockHash).value;
            var n, last := block.number, |block.txs| - 1;
            var grown := chain.balanceAt(r.proposerFeeRecipient, n) - chain.balanceAt(r.proposerFeeRecipient, n - 1);
            var paidByLast := last >= 0 && block.txs[last].to == Some(r.proposerFeeRecipient);
            && c.valueDeliveredWei == Some(grown)
            && (grown == r.valueClaimedWei ==> c.valueDeliveredDiffWei == Some(0))
            && (grown != r.valueClaimedWei && !paidByLast ==>
                  c.valueDeliveredDiffWei == Some(r.valueClaimedWei - grown))
            && (grown != r.valueClaimedWei && paidByLast ==>
                  c.valueDeliveredDiffWei == Some(r.valueClaimedWei - block.txs[last].value))
            && (c.valueCheckOk == Some(true) <==> c.valueDeliveredDiffWei == Some(0)) && c.valueCheckOk.Some?
            && c.valueCheckMethod == Some(if grown == r.valueClaimedWei then "balanceDiff" else "balanceDiff+txValue")
            && c.blockTimestamp == Some(block.time)
  {
  }

  /** The amounts that the coinbase sent to addresses of its builder. */
  ghost function OwnTransfers(chain: Chain, coinbase: string, txs: seq<Tx>): seq<int> {
    seq(|txs|, i requires 0 <= i < |txs| =>
      if txs[i].chainId != 0 && txs[i].from == coinbase && txs[i].to.Some? && coinbase in chain.builderAddresses
         && txs[i].to.value in chain.builderAddresses[coinbase]
      then txs[i].value else 0)
  }

  ghost function BlobCounts(txs: seq<Tx>): seq<int> {
    seq(|txs|, i requires 0 <= i < |txs| => if txs[i].isBlobTx then txs[i].blobHashes else 0)
  }

  ghost function BlobIndices(txs: seq<Tx>): set<int> {
    set i | 0 <= i < |txs| && txs[i].isBlobTx
  }

  lemma {:induction false} OwnTotal(chain: Chain, coinbase: string, txs: seq<Tx>)
    ensures SentToOwn(chain, coinbase, txs) == Sum(OwnTransfers(chain, coinbase, txs))
  {
    if txs != [] {
      var n := |txs| - 1;
      OwnTotal(chain, coinbase, txs[..n]);
      assert OwnTransfers(chain, coinbase, txs)[..n] == OwnTransfers(chain, coinbase, txs[..n]);
    }
  }

  lemma {:induction false} BlobTotal(txs: seq<Tx>)
    ensures Blobs(txs) == Sum(BlobCounts(txs))
  {
    if txs != [] {
      BlobTotal(txs[..|txs| - 1]);
      assert BlobCounts(txs)[..|txs| - 1] == BlobCounts(txs[..|txs| - 1]);
    }
  }

  lemma {:induction false} BlobTxTotal(txs: seq<Tx>)
    ensures BlobTxs(txs) == |BlobIndices(txs)|
  {
    if txs == [] {
      assert BlobIndices(txs) == {};
    } else {
      var n := |txs| - 1;
      BlobTxTotal(txs[..n]);
      assert BlobIndices(txs) == BlobIndices(txs[..n]) + if txs[n].isBlobTx then {n} else {};
    }
  }

  /** The totals over the transactions of a confirmed block: blob transactions, their blobs, and for a
      coinbase other than the fee recipient its balance growth plus what it sent to its builder's addresses. */
  lemma TotalsOfBlock(chain: Chain, r: Row)
    requires Confirmed(chain, r.blockHash) && Check(chain, InputOf(r)).Save?
    ensures var c, block := Check(chain, InputOf(r)).columns, chain.blockByHash(r.blockHash).value;
            var n, coinbase := block.number, block.coinbase;
            && c.numBlobTxs == Some(|BlobIndices(block.txs)|)
            && c.numBlobs.Some? && c.numBlobs.value == Sum(BlobCounts(block.txs))
            && (coinbase == r.proposerFeeRecipient ==> c.coinbaseDiffWei == None)
            && (coinbase != r.proposerFeeRecipient ==>
                  c.coinbaseDiffWei == Some(chain.balanceAt(coinbase, n) - chain.balanceAt(coinbase, n - 1)
                                            + Sum(OwnTransfers(chain, coinbase, block.txs))))
            && |c.extraData| == |block.extra|
            && forall k | 0 <= k < |block.extra| ::
                 c.extraData[k] == if 32 <= block.extra[k] <= 126 then block.extra[k] as char else ' '
  {
    var block := chain.blockByHash(r.blockHash).value;
    OwnTotal(chain, block.coinbase, block.txs);
    BlobTotal(block.txs);
    BlobTxTotal(block.txs);
  }

  method CountBlobs(txs: seq<Tx>) returns (numBlobTxs: nat, numBlobs: nat)
    ensures numBlobTxs == BlobTxs(txs) && numBlobs == Blobs(txs)
  {
    numBlobTxs, numBlobs := 0, 0;
    for i := 0 to |txs|
      invariant numBlobTxs == BlobTxs(txs[..i]) && numBlobs == Blobs(txs[..i])
    {
      assert txs[..i + 1][..i] == txs[..i];
      if txs[i].isBlobTx {
        numBlobTxs := numBlobTxs + 1;
        numBlobs := numBlobs + txs[i].blobHashes;
      }
    }
    assert txs[..|txs|] == txs;
  }

  method AdjustedBuilderDiff(chain: Chain, block: Block) returns (diff: int)
    ensures diff == BalanceDiff(chain, block.coinbase, block.number) + SentToOwn(chain, block.coinbase, block.txs)
  {
    var txs := block.txs;
    diff := BalanceDiff(chain, block.coinbase, block.number);
    for i := 0 to |txs|
      invariant diff == BalanceDiff(chain, block.coinbase, block.number) + SentToOwn(chain, block.coinbase, txs[..i])
    {
      assert txs[..i + 1][..i] == txs[..i];
      var tx := txs[i];
      if tx.chainId == 0 {
        continue;
      }
      if tx.from == block.coinbase && tx.to.Some? && block.coinbase in chain.builderAddresses
         && tx.to.value in chain.builderAddresses[block.coinbase] {
        diff := diff + tx.value;
      }
    }
    assert txs[..|txs|] == txs;
  }

  /** The comparison with the claim; `None` is the nil dereference. */
  method CompareWithClaim(e: Input, block: Block, delivered: int) returns (checkMethod: string, diff: Option<int>)
    ensures checkMethod == if delivered != e.valueClaimedWei then "balanceDiff+txValue" else "balanceDiff"
    ensures diff == None <==>
              delivered != e.valueClaimedWei && block.txs != [] && block.txs[|block.txs| - 1].to == None
    ensures diff.Some? ==>
              diff.value == if delivered != e.valueClaimedWei && LastTxPays(e, block)
                            then e.valueClaimedWei - block.txs[|block.txs| - 1].value
                            else e.valueClaimedWei - delivered
  {
    checkMethod := "balanceDiff";
    var txs := block.txs;
    var diffFromClaim := e.valueClaimedWei - delivered;
    if diffFromClaim != 0 {
      checkMethod := "balanceDiff+txValue";
      if |txs| > 0 {
        var paymentTx := txs[|txs| - 1];
        if paymentTx.to == None {
          return checkMethod, None;
        }
        if paymentTx.to.value == e.proposerFeeRecipient {
          diffFromClaim := e.valueClaimedWei - paymentTx.value;
        }
      }
    }
    diff := Some(diffFromClaim);
  }

  /** The worker body, which fills in the columns step by step. */
  method CheckEntry(chain: Chain, e: Input) returns (outcome: Outcome)
    ensures outcome == Check(chain, e)
  {
    var entry := EMPTY_CHECKS.(blockNumber := e.blockNumber);
    var answer := chain.blockByHash(e.blockHash);
    if answer == None {
      entry := entry.(foundOnChain := Some(false));
      return Save(entry);
    }
    var block := answer.value;
    entry := entry.(foundOnChain := Some(true));
    if entry.blockNumber == None {
      entry := entry.(blockNumber := Some(block.number));
    }
    entry := entry.(blockCoinbaseAddr := Some(block.coinbase));
    var coinbaseIsProposer := block.coinbase == e.proposerFeeRecipient;
    entry := entry.(blockCoinbaseIsProposer := Some(coinbaseIsProposer));

    var header := chain.headerHashByNumber(block.number);
    if header == None {
      return NoSave;
    } else if header.value != e.blockHash {
      entry := entry.(slotMissed := Some(true));
      return Save(entry);
    }

    var proposerBalanceDiff := BalanceDiff(chain, e.proposerFeeRecipient, block.number);
    var txs := block.txs;
    var checkMethod, payment := CompareWithClaim(e, block, proposerBalanceDiff);
    if payment == None {
      return Crash;
    }
    var diffFromClaim := payment.value;

    var numBlobTxs, numBlobs := CountBlobs(txs);
    entry := entry.(numBlobTxs := Some(numBlobTxs), numBlobs := Some(numBlobs));
    entry := entry.(extraData := ExtraDataToUtf8Str(block.extra));
    entry := entry.(valueCheckOk := Some(diffFromClaim == 0), valueCheckMethod := Some(checkMethod));
    entry := entry.(valueDeliveredWei := Some(proposerBalanceDiff), valueDeliveredDiffWei := Some(diffFromClaim));
    entry := entry.(blockTimestamp := Some(block.time));

    if !coinbaseIsProposer {
      var builderBalanceDiff := AdjustedBuilderDiff(chain, block);
      entry := entry.(coinbaseDiffWei := Some(builderBalanceDiff));
    }
    return Save(entry);
  }
}
