/** Re-sending underpriced transactions (`boostUnderpricedPendingTransactionsForSigner` and what it calls). */
module Boosting {
  import opened Prelude
  import opened Events
  import opened Sorting
  import opened TxStore

  /** Gas prices are real numbers: how the source rounds a boosted price is not the point here. */
  datatype PriceConfig = PriceConfig(retryGasPriceFactor: real, maxGasPrice: real)
  {
    function Scaled(gasPrice: real): real {
      gasPrice * retryGasPriceFactor
    }

    /** The smaller of the cap and the old price times the factor. */
    function NewGasPrice(oldGasPrice: real): (newGasPrice: real)
      ensures newGasPrice <= maxGasPrice && newGasPrice <= oldGasPrice * retryGasPriceFactor
      ensures newGasPrice == maxGasPrice || newGasPrice == oldGasPrice * retryGasPriceFactor
    {
      if Scaled(oldGasPrice) > maxGasPrice then maxGasPrice else Scaled(oldGasPrice)
    }
  }

  /** The transaction signed again: same destination, gas limit, data and nonce, and no value at all. */
  function Resigned(tx: StoredTx, newGasPrice: real): SignedTx {
    SignedTx(tx.From(), Transaction(tx.to, 0, tx.gas, newGasPrice, tx.data, tx.nonce))
  }

  function WithAttempt(tx: StoredTx, newGasPrice: real, currentBlock: nat): StoredTx {
    CreateStoredTransaction(Resigned(tx, newGasPrice),
                            Metadata(tx.From(), tx.metadata.attempts + 1, tx.metadata.serverAction,
                                     tx.metadata.creationBlockNumber, Some(currentBlock), tx.metadata.minedBlockNumber))
  }

  function ResendOne(docs: Docs, tx: StoredTx, newGasPrice: real, currentBlock: nat): PutResult {
    PutTx(docs, WithAttempt(tx, newGasPrice, currentBlock), true)
  }

  function Below(price: real): StoredTx -> bool {
    (tx: StoredTx) => tx.gasPrice < price
  }

  /**
   `after` is `before` sent again: the same signer, destination, gas limit, data and nonce, at the new price and without
   value; one attempt more, boosted in this block, and for the rest the same bookkeeping.
   */
  ghost predicate SentAgain(before: StoredTx, after: StoredTx, newGasPrice: real, currentBlock: nat) {
    && after.txId.signer == before.metadata.from && after.txId.tx.to == before.to && after.txId.tx.value == 0
    && after.txId.tx.gasLimit == before.gas && after.txId.tx.gasPrice == newGasPrice
    && after.txId.tx.data == before.data && after.txId.tx.nonce == before.nonce
    && after.to == before.to && after.gas == before.gas && after.gasPrice == newGasPrice
    && after.data == before.data && after.nonce == before.nonce
    && after.metadata.from == before.metadata.from && after.metadata.attempts == before.metadata.attempts + 1
    && after.metadata.serverAction == before.metadata.serverAction
    && after.metadata.creationBlockNumber == before.metadata.creationBlockNumber
    && after.metadata.boostBlockNumber == Some(currentBlock)
    && after.metadata.minedBlockNumber == before.metadata.minedBlockNumber
  }

  lemma ResendOneEffect(docs: Docs, tx: StoredTx, newGasPrice: real, currentBlock: nat)
    requires WellIndexed(docs) && Holds(docs, tx)
    ensures SentAgain(tx, WithAttempt(tx, newGasPrice, currentBlock), newGasPrice, currentBlock)
    ensures WithAttempt(tx, newGasPrice, currentBlock).txId == Resigned(tx, newGasPrice)
    ensures var r := ResendOne(docs, tx, newGasPrice, currentBlock);
      r.Stored? && WellIndexed(r.docs) && r.docs == docs[tx.Key() := WithAttempt(tx, newGasPrice, currentBlock)]
  {
    PutAccepts(docs, WithAttempt(tx, newGasPrice, currentBlock), true);
  }

  /** The store once the entries of `resent` have been sent again, everything else untouched. */
  ghost function AfterResends(docs: Docs, resent: seq<StoredTx>, newGasPrice: real, currentBlock: nat): Docs {
    map k | k in docs :: if docs[k] in resent then WithAttempt(docs[k], newGasPrice, currentBlock) else docs[k]
  }

  ghost predicate NonceAscending(txs: seq<StoredTx>) {
    forall i, j | 0 <= i < j < |txs| :: txs[i].nonce <= txs[j].nonce && txs[i].Key() != txs[j].Key()
  }

  lemma {:induction false} FilterAscending(txs: seq<StoredTx>, keep: StoredTx -> bool)
    requires NonceAscending(txs)
    ensures NonceAscending(Filter(txs, keep))
  {
    if txs != [] {
      var init := txs[..|txs| - 1];
      FilterAscending(init, keep);
      FilterMembers(init, keep);
      forall i | 0 <= i < |Filter(init, keep)|
        ensures Filter(init, keep)[i].nonce <= txs[|txs| - 1].nonce
          && Filter(init, keep)[i].Key() != txs[|txs| - 1].Key()
      {
        assert Filter(init, keep)[i] in init;
      }
    }
  }

  lemma ResendStep(docs: Docs, txs: seq<StoredTx>, i: nat, newGasPrice: real, currentBlock: nat)
    requires WellIndexed(docs) && NonceAscending(txs) && i < |txs|
    requires forall j | 0 <= j < |txs| :: Holds(docs, txs[j])
    requires WellIndexed(AfterResends(docs, txs[..i], newGasPrice, currentBlock))
    ensures Holds(AfterResends(docs, txs[..i], newGasPrice, currentBlock), txs[i])
    ensures ResendOne(AfterResends(docs, txs[..i], newGasPrice, currentBlock), txs[i], newGasPrice, currentBlock)
         == Stored(AfterResends(docs, txs[..i + 1], newGasPrice, currentBlock))
    ensures WellIndexed(AfterResends(docs, txs[..i + 1], newGasPrice, currentBlock))
  {
    var now, next := AfterResends(docs, txs[..i], newGasPrice, currentBlock),
      AfterResends(docs, txs[..i + 1], newGasPrice, currentBlock);
    assert forall j | 0 <= j < i :: txs[j].Key() != txs[i].Key();
    assert Holds(docs, txs[i]);
    ResendOneEffect(now, txs[i], newGasPrice, currentBlock);
    assert txs[..i + 1] == txs[..i] + [txs[i]];
    forall k | k in docs ensures next[k] == now[txs[i].Key() := WithAttempt(txs[i], newGasPrice, currentBlock)][k] {
      assert docs[k].Key() == k;
    }
    assert next == now[txs[i].Key() := WithAttempt(txs[i], newGasPrice, currentBlock)];
  }

  /** After a boost that ran to the end, no entry of the signer is priced below the new price. */
  lemma BoostRaisesAll(docs: Docs, signer: Address, txs: seq<StoredTx>, newGasPrice: real, currentBlock: nat,
      k: NonceSigner)
    requires WellIndexed(docs) && IsListing(docs, Some(signer), txs)
    requires k in docs
    ensures var now := AfterResends(docs, Filter(txs, Below(newGasPrice)), newGasPrice, currentBlock);
      now[k] ==
        if k.signer == signer && docs[k].gasPrice < newGasPrice then WithAttempt(docs[k], newGasPrice, currentBlock)
        else docs[k]
    ensures k.signer == signer ==>
      AfterResends(docs, Filter(txs, Below(newGasPrice)), newGasPrice, currentBlock)[k].gasPrice >= newGasPrice
  {
    FilterMembers(txs, Below(newGasPrice));
    if docs[k] in txs {
      var i :| 0 <= i < |txs| && txs[i] == docs[k];
      assert SelectedBy(Some(signer), txs[i]);
    }
  }
}
