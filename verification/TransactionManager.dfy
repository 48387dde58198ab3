/** Sending, boosting and sweeping (`TransactionManager.ts`), run without interruption. */
module TransactionManagers {
  import opened Prelude
  import opened Events
  import opened Sorting
  import opened TxStore
  import opened Sweep
  import opened Boosting

  datatype SendDetails = SendDetails(signer: Address, serverAction: ServerAction, destination: Address, value: nat,
                                     gasLimit: nat, gasPrice: Option<real>, data: seq<Byte>, creationBlockNumber: nat)

  /** What the node does with a raw transaction: refuse it, or answer with a hash. */
  datatype NodeAnswer = Refused | Accepted(hash: TxId)

  /** What a send meets on its way to the store: a `None` or `false` is a rejected promise or an exception. */
  datatype SendAnswers = SendAnswers(networkGasPrice: Option<real>, pendingCount: Option<nat>, signingOk: bool,
                                     insertOk: bool)

  datatype SendOutcome =
    | NoGasPrice
    | PollFailed
    | SigningFailed
    | StoreRejected
    | BroadcastFailed(signed: SignedTx)
    | HashMismatch(signed: SignedTx)
    | Sent(signed: SignedTx)

  datatype BoostOutcome = NothingPending | AlreadyMined | TooEarly | Completed | Aborted

  function SignedWith(details: SendDetails, gasPrice: real, nonce: nat): SignedTx {
    SignedTx(details.signer,
             Transaction(details.destination, details.value, details.gasLimit, gasPrice, details.data, nonce))
  }

  function NewEntry(details: SendDetails, gasPrice: real, nonce: nat): StoredTx {
    CreateStoredTransaction(SignedWith(details, gasPrice, nonce),
                            Metadata(details.signer, 1, details.serverAction, details.creationBlockNumber, None, None))
  }

  /** The entry, and the transaction it is for, hold what was requested, the price and the nonce, field by field. */
  ghost predicate AsRequested(entry: StoredTx, details: SendDetails, gasPrice: real, nonce: nat) {
    && SignsRequest(entry.txId, details) && entry.txId.tx.value == details.value
    && entry.txId.tx.gasPrice == gasPrice && entry.txId.tx.nonce == nonce
    && entry.to == details.destination && entry.gas == details.gasLimit && entry.data == details.data
    && entry.gasPrice == gasPrice && entry.nonce == nonce
    && entry.metadata.from == details.signer && entry.metadata.attempts == 1
    && entry.metadata.serverAction == details.serverAction
    && entry.metadata.creationBlockNumber == details.creationBlockNumber
    && entry.metadata.boostBlockNumber.None? && entry.metadata.minedBlockNumber.None?
  }

  /** Signed by the account the request names, for its destination, with its gas limit and data. */
  ghost predicate SignsRequest(signed: SignedTx, details: SendDetails) {
    && signed.signer == details.signer && signed.tx.to == details.destination
    && signed.tx.gasLimit == details.gasLimit && signed.tx.data == details.data
  }

  /** A broadcast succeeds exactly if the node answers with the hash of what was signed. */
  function Outcome(signed: SignedTx, answer: NodeAnswer): (outcome: SendOutcome)
    ensures outcome == Sent(signed) <==> answer == Accepted(signed)
    ensures outcome == BroadcastFailed(signed) <==> answer.Refused?
    ensures outcome in {Sent(signed), BroadcastFailed(signed), HashMismatch(signed)}
  {
    if answer.Refused? then BroadcastFailed(signed)
    else if answer.hash != signed then HashMismatch(signed)
    else Sent(signed)
  }

  class TransactionManager {
    const txStoreManager: TxStoreManager
    const prices: PriceConfig
    const confirmationsNeeded: int
    const pendingTransactionTimeoutBlocks: int
    var nonces: map<Address, nat>

    ghost predicate Valid()
      reads this, txStoreManager
    {
      txStoreManager.Valid()
    }

    constructor (txStoreManager: TxStoreManager, prices: PriceConfig, confirmationsNeeded: int, timeoutBlocks: int,
                 manager: Address, worker: Address)
      ensures this.txStoreManager == txStoreManager && this.prices == prices
      ensures this.confirmationsNeeded == confirmationsNeeded && pendingTransactionTimeoutBlocks == timeoutBlocks
      ensures nonces == map[manager := 0, worker := 0]
    {
      this.txStoreManager := txStoreManager;
      this.prices := prices;
      this.confirmationsNeeded := confirmationsNeeded;
      this.pendingTransactionTimeoutBlocks := timeoutBlocks;
      nonces := map[manager := 0, worker := 0];
    }

    /** The local counter catches up with the node's pending count, and never goes back. */
    method PollNonce(signer: Address, pendingCount: nat) returns (nonce: nat)
      requires signer in nonces
      modifies this
      ensures nonce == Max(old(nonces)[signer], pendingCount)
      ensures nonces == old(nonces)[signer := nonce]
    {
      if pendingCount > nonces[signer] {
        nonces := nonces[signer := pendingCount];
      }
      nonce := nonces[signer];
    }

    /**
     A send that gets as far as the poll moves the counter to the nonce, and one past it once the transaction is
     signed.
     */
    method SendTransaction(details: SendDetails, answers: SendAnswers, node: SignedTx -> NodeAnswer)
      returns (outcome: SendOutcome)
      requires Valid() && details.signer in nonces
      modifies this, txStoreManager
      ensures Valid()
      ensures outcome.NoGasPrice? <==> details.gasPrice.None? && answers.networkGasPrice.None?
      ensures outcome.PollFailed? <==> !outcome.NoGasPrice? && answers.pendingCount.None?
      ensures outcome in {NoGasPrice, PollFailed} ==>
        nonces == old(nonces) && txStoreManager.docs == old(txStoreManager.docs)
      ensures outcome !in {NoGasPrice, PollFailed} ==>
        var nonce := Max(old(nonces)[details.signer], answers.pendingCount.value);
        var price := if details.gasPrice.Some? then details.gasPrice.value else answers.networkGasPrice.value;
        var k := NonceSigner(nonce, details.signer);
        && nonces == old(nonces)[details.signer := if answers.signingOk then nonce + 1 else nonce]
        && (outcome.SigningFailed? <==> !answers.signingOk)
        && (outcome.StoreRejected? <==> answers.signingOk && (!answers.insertOk || k in old(txStoreManager.docs)))
        && (outcome in {SigningFailed, StoreRejected} ==> txStoreManager.docs == old(txStoreManager.docs))
        && (outcome !in {SigningFailed, StoreRejected} ==>
              && k in txStoreManager.docs && AsRequested(txStoreManager.docs[k], details, price, nonce)
              && txStoreManager.docs == old(txStoreManager.docs)[k := txStoreManager.docs[k]]
              && outcome == Outcome(txStoreManager.docs[k].txId, node(txStoreManager.docs[k].txId)))
    {
      if details.gasPrice.None? && answers.networkGasPrice.None? {
        return NoGasPrice;
      }
      var gasPrice := if details.gasPrice.Some? then details.gasPrice.value else answers.networkGasPrice.value;
      if answers.pendingCount.None? {
        return PollFailed;
      }
      var nonce := PollNonce(details.signer, answers.pendingCount.value);
      if !answers.signingOk {
        return SigningFailed;
      }
      var signed := SignedWith(details, gasPrice, nonce);
      var storedTx := NewEntry(details, gasPrice, nonce);
      nonces := nonces[details.signer := nonces[details.signer] + 1];
      if !answers.insertOk {
        return StoreRejected;
      }
      PutAccepts(txStoreManager.docs, storedTx, false);
      var stored := txStoreManager.Put(storedTx, false);
      if !stored {
        return StoreRejected;
      }
      outcome := Outcome(signed, node(signed));
    }

    method ResendTransaction(tx: StoredTx, currentBlock: nat, newGasPrice: real, node: SignedTx -> NodeAnswer)
      returns (outcome: SendOutcome)
      requires Valid() && Holds(txStoreManager.docs, tx)
      modifies txStoreManager
      ensures Valid()
      ensures Stored(txStoreManager.docs) == ResendOne(old(txStoreManager.docs), tx, newGasPrice, currentBlock)
      ensures tx.Key() in txStoreManager.docs
      ensures txStoreManager.docs == old(txStoreManager.docs)[tx.Key() := txStoreManager.docs[tx.Key()]]
      ensures SentAgain(tx, txStoreManager.docs[tx.Key()], newGasPrice, currentBlock)
      ensures var signed := txStoreManager.docs[tx.Key()].txId; outcome == Outcome(signed, node(signed))
    {
      ResendOneEffect(txStoreManager.docs, tx, newGasPrice, currentBlock);
      var signed := Resigned(tx, newGasPrice);
      var stored := txStoreManager.Put(WithAttempt(tx, newGasPrice, currentBlock), true);
      outcome := Outcome(signed, node(signed));
    }

    /**
     A sweep deals with the entries in order and stops at the first query that is rejected; what it has dealt with by
     then is as declared, and if it gets to the end so is the whole store, whatever the node answers.
     */
    method RemoveConfirmedTransactions(blockNumber: int, query: TxId -> Option<Receipt>)
      returns (completed: bool, ghost txs: seq<StoredTx>, ghost done: nat)
      requires Valid()
      modifies txStoreManager
      ensures Valid()
      ensures IsListing(old(txStoreManager.docs), None, txs)
      ensures SweptSoFar(old(txStoreManager.docs), txs, done, txStoreManager.docs,
                         Round(Answered(query), blockNumber, confirmationsNeeded))
      ensures forall j | 0 <= j < done && Due(txs[j], Round(Answered(query), blockNumber, confirmationsNeeded)) ::
        query(txs[j].txId).Some?
      ensures completed ==>
        done == |txs|
        && txStoreManager.docs == AfterSweep(old(txStoreManager.docs),
          Round(Answered(query), blockNumber, confirmationsNeeded))
      ensures !completed ==>
        && done < |txs| && query(txs[done].txId).None?
        && Due(txs[done], Round(Answered(query), blockNumber, confirmationsNeeded))
    {
      hide PutTx, RemoveTxsUntilNonce, AfterSweep, IsListing, SweptSoFar, WellIndexed, TxVerdict;
      ghost var was := txStoreManager.docs;
      ghost var round := Round(Answered(query), blockNumber, confirmationsNeeded);
      var sortedTxs := txStoreManager.GetAll();
      SweptNothing(was, sortedTxs, round);
      var i := 0;
      while i < |sortedTxs|
        invariant Valid() && i <= |sortedTxs| && SweptSoFar(was, sortedTxs, i, txStoreManager.docs, round)
        invariant forall j | 0 <= j < i && Due(sortedTxs[j], round) ::
            query(sortedTxs[j].txId).Some?
      {
        var transaction := sortedTxs[i];
        if ShouldRecheck(transaction, blockNumber, confirmationsNeeded) && query(transaction.txId).None? {
          return false, sortedTxs, i;
        }
        SweepStep(was, sortedTxs, i, txStoreManager.docs, round);
        var verdict := TxVerdict(transaction, Answered(query)(transaction.txId), blockNumber, confirmationsNeeded);
        if verdict.MarkMined? {
          var _ := txStoreManager.Put(WithMinedBlock(transaction, verdict.blockNumber), true);
        } else if verdict.Remove? {
          txStoreManager.RemoveUntilNonce(transaction.From(), transaction.nonce);
        }
        i := i + 1;
        SweptKeepsIndexes(was, sortedTxs, i, txStoreManager.docs, round);
      }
      SweepDone(was, sortedTxs, txStoreManager.docs, round);
      return true, sortedTxs, |sortedTxs|;
    }

    /** The resend loop: in order, until a broadcast fails. `resent` are the entries handed to the node. */
    method ResendUnderpriced(underpriced: seq<StoredTx>, currentBlock: nat, newGasPrice: real,
        node: SignedTx -> NodeAnswer)
      returns (completed: bool, resent: seq<StoredTx>, boosted: map<TxId, SignedTx>)
      requires Valid() && NonceAscending(underpriced)
      requires AllHeld(txStoreManager.docs, underpriced)
      modifies txStoreManager
      ensures Valid()
      ensures txStoreManager.docs == AfterResends(old(txStoreManager.docs), resent, newGasPrice, currentBlock)
      ensures resent <= underpriced
      ensures completed ==> resent == underpriced && AllBoosted(resent, newGasPrice, node, boosted)
      ensures !completed ==> resent != [] && !NodeTook(resent[|resent| - 1], newGasPrice, node)
    {
      hide BoostLoop, ResentSoFar, AllBoosted, AfterResends, ResendOne, NonceAscending, AllHeld, WellIndexed;
      ghost var was := txStoreManager.docs;
      boosted := map[];
      var i := 0;
      BoostLoopStarts(was, underpriced, newGasPrice, currentBlock, node);
      while i < |underpriced|
        invariant 0 <= i <= |underpriced| && Valid()
        invariant BoostLoop(was, underpriced, i, txStoreManager.docs, newGasPrice, currentBlock, node, boosted)
      {
        var transaction := underpriced[i];
        BoostLoopStep(was, underpriced, i, txStoreManager.docs, newGasPrice, currentBlock, node, boosted);
        var r := ResendTransaction(transaction, currentBlock, newGasPrice, node);
        if !r.Sent? {
          return false, underpriced[..i + 1], boosted;
        }
        boosted := boosted[transaction.txId := r.signed];
        i := i + 1;
      }
      BoostLoopEnds(was, underpriced, txStoreManager.docs, newGasPrice, currentBlock, node, boosted);
      return true, underpriced, boosted;
    }

    /**
     Re-sends, lowest nonce first, every entry of the signer below the new price, provided the oldest
     one is still pending and was last sent long enough ago.
     */
    method BoostUnderpricedPendingTransactionsForSigner(signer: Address, currentBlockHeight: nat, accountNonce: nat,
                                                        node: SignedTx -> NodeAnswer)
      returns (outcome: BoostOutcome, newGasPrice: real, resent: seq<StoredTx>, boosted: map<TxId, SignedTx>)
      requires Valid()
      modifies txStoreManager
      ensures Valid()
      ensures txStoreManager.docs == AfterResends(old(txStoreManager.docs), resent, newGasPrice, currentBlockHeight)
      ensures outcome.NothingPending? <==> forall k | k in old(txStoreManager.docs) :: k.signer != signer
      ensures outcome in {NothingPending, AlreadyMined, TooEarly} ==> resent == []
      ensures outcome in {Completed, Aborted} ==>
        exists oldest :: IsOldest(old(txStoreManager.docs), signer, oldest)
          && newGasPrice == prices.NewGasPrice(oldest.gasPrice)
          && newGasPrice == MinOf(prices.maxGasPrice, oldest.gasPrice * prices.retryGasPriceFactor)
          && oldest.nonce >= accountNonce
          && WaitedSince(oldest, currentBlockHeight) >= pendingTransactionTimeoutBlocks
      ensures outcome.AlreadyMined? ==>
        exists oldest :: IsOldest(old(txStoreManager.docs), signer, oldest) && oldest.nonce < accountNonce
      ensures outcome.TooEarly? ==>
        exists oldest :: IsOldest(old(txStoreManager.docs), signer, oldest)
          && WaitedSince(oldest, currentBlockHeight) < pendingTransactionTimeoutBlocks
      ensures AreUnderpriced(old(txStoreManager.docs), signer, newGasPrice, resent)
      ensures outcome.Completed? ==> AllBoosted(resent, newGasPrice, node, boosted)
      ensures outcome.Completed? ==> AllPricedFrom(txStoreManager.docs, signer, newGasPrice)
      ensures outcome.Aborted? ==> resent != [] && !NodeTook(resent[|resent| - 1], newGasPrice, node)
    {
      hide AfterResends, AreUnderpriced, AllPricedFrom, AllBoosted, NodeTook, NonceAscending, AllHeld, WellIndexed,
        Filter, IsListing, IsOldest;
      ghost var was := txStoreManager.docs;
      NothingResent(was, signer, 0.0, currentBlockHeight);
      var sortedTxs := txStoreManager.GetAllBySigner(signer);
      ListingOfSigner(was, signer, sortedTxs);
      if |sortedTxs| == 0 {
        return NothingPending, 0.0, [], map[];
      }
      var oldestPendingTx := sortedTxs[0];
      if oldestPendingTx.nonce < accountNonce {
        return AlreadyMined, 0.0, [], map[];
      }
      if currentBlockHeight - LastSentAt(oldestPendingTx) < pendingTransactionTimeoutBlocks {
        return TooEarly, 0.0, [], map[];
      }
      newGasPrice := prices.NewGasPrice(oldestPendingTx.gasPrice);
      var underpriced := Filter(sortedTxs, Below(newGasPrice));
      UnderpricedOfListing(was, signer, sortedTxs, newGasPrice, currentBlockHeight);
      var completed;
      completed, resent, boosted := ResendUnderpriced(underpriced, currentBlockHeight, newGasPrice, node);
      UnderpricedPrefix(was, signer, newGasPrice, resent, underpriced);
      outcome := if completed then Completed else Aborted;
    }
  }

  /** Entries of the signer, lowest nonce first, each held by the store at a price below the given one. */
  ghost predicate AreUnderpriced(docs: Docs, signer: Address, newGasPrice: real, txs: seq<StoredTx>) {
    && NonceAscending(txs)
    && AllHeld(docs, txs)
    && forall j | 0 <= j < |txs| :: txs[j].From() == signer && txs[j].gasPrice < newGasPrice
  }

  ghost predicate AllPricedFrom(docs: Docs, signer: Address, newGasPrice: real) {
    forall k | k in docs && k.signer == signer :: docs[k].gasPrice >= newGasPrice
  }

  lemma NothingResent(docs: Docs, signer: Address, newGasPrice: real, currentBlock: nat)
    ensures AfterResends(docs, [], newGasPrice, currentBlock) == docs
    ensures AreUnderpriced(docs, signer, newGasPrice, [])
  {
  }

  lemma UnderpricedPrefix(docs: Docs, signer: Address, newGasPrice: real, some: seq<StoredTx>, txs: seq<StoredTx>)
    requires AreUnderpriced(docs, signer, newGasPrice, txs) && some <= txs
    ensures AreUnderpriced(docs, signer, newGasPrice, some)
  {
    assert forall j | 0 <= j < |some| :: some[j] == txs[j];
  }

  lemma UnderpricedOfListing(docs: Docs, signer: Address, txs: seq<StoredTx>, newGasPrice: real, currentBlock: nat)
    requires WellIndexed(docs) && IsListing(docs, Some(signer), txs)
    ensures AreUnderpriced(docs, signer, newGasPrice, Filter(txs, Below(newGasPrice)))
    ensures NonceAscending(Filter(txs, Below(newGasPrice))) && AllHeld(docs, Filter(txs, Below(newGasPrice)))
    ensures AllPricedFrom(AfterResends(docs, Filter(txs, Below(newGasPrice)), newGasPrice, currentBlock), signer,
        newGasPrice)
  {
    var underpriced := Filter(txs, Below(newGasPrice));
    FilterMembers(txs, Below(newGasPrice));
    FilterAscending(txs, Below(newGasPrice));
    ListingOfSigner(docs, signer, txs);
    forall j | 0 <= j < |underpriced|
      ensures Holds(docs, underpriced[j]) && underpriced[j].From() == signer && underpriced[j].gasPrice < newGasPrice
    {
      assert underpriced[j] in txs;
    }
    forall k | k in docs && k.signer == signer
      ensures AfterResends(docs, underpriced, newGasPrice, currentBlock)[k].gasPrice >= newGasPrice
    {
      BoostRaisesAll(docs, signer, txs, newGasPrice, currentBlock, k);
    }
  }

  /** The oldest pending entry is not mined yet, and was last sent long enough ago. */
  predicate DueForBoost(oldest: StoredTx, accountNonce: nat, currentBlock: nat, timeoutBlocks: int) {
    oldest.nonce >= accountNonce && currentBlock - LastSentAt(oldest) >= timeoutBlocks
  }

  ghost function MinOf(x: real, y: real): real {
    if x < y then x else y
  }

  /** The blocks since the entry was last boosted, or created if it never was. */
  ghost function WaitedSince(tx: StoredTx, block: nat): int {
    match tx.metadata.boostBlockNumber
    case Some(boosted) => block - boosted
    case None => block - tx.metadata.creationBlockNumber
  }

  function LastSentAt(tx: StoredTx): nat {
    if tx.metadata.boostBlockNumber.Some? then tx.metadata.boostBlockNumber.value else tx.metadata.creationBlockNumber
  }

  predicate NodeTook(tx: StoredTx, newGasPrice: real, node: SignedTx -> NodeAnswer) {
    node(Resigned(tx, newGasPrice)) == Accepted(Resigned(tx, newGasPrice))
  }

  /** Every entry was taken by the node, and the returned map sends its old hash to what replaced it. */
  ghost predicate AllBoosted(txs: seq<StoredTx>, newGasPrice: real, node: SignedTx -> NodeAnswer,
      boosted: map<TxId, SignedTx>)
  {
    && (forall t | t in txs :: NodeTook(t, newGasPrice, node))
    && (forall t | t in txs :: t.txId in boosted && boosted[t.txId] == Resigned(t, newGasPrice))
    && (forall id | id in boosted :: exists t :: t in txs && t.txId == id && boosted[id] == Resigned(t, newGasPrice))
  }

  ghost predicate AllHeld(docs: Docs, txs: seq<StoredTx>) {
    forall j | 0 <= j < |txs| :: Holds(docs, txs[j])
  }

  ghost predicate ResentSoFar(was: Docs, resent: seq<StoredTx>, now: Docs, newGasPrice: real, currentBlock: nat) {
    now == AfterResends(was, resent, newGasPrice, currentBlock) && WellIndexed(now)
  }

  lemma ResentStep(was: Docs, txs: seq<StoredTx>, i: nat, now: Docs, newGasPrice: real, currentBlock: nat)
    requires WellIndexed(was) && NonceAscending(txs) && AllHeld(was, txs) && i < |txs|
    requires ResentSoFar(was, txs[..i], now, newGasPrice, currentBlock)
    ensures Holds(now, txs[i])
    ensures ResendOne(now, txs[i], newGasPrice, currentBlock).Stored?
    ensures ResentSoFar(was, txs[..i + 1], ResendOne(now, txs[i], newGasPrice, currentBlock).docs, newGasPrice,
        currentBlock)
  {
    ResendStep(was, txs, i, newGasPrice, currentBlock);
  }

  lemma AllBoostedStep(txs: seq<StoredTx>, i: nat, newGasPrice: real, node: SignedTx -> NodeAnswer,
      boosted: map<TxId, SignedTx>)
    requires NonceAscending(txs) && i < |txs| && forall j | 0 <= j < |txs| :: Faithful(txs[j])
    requires AllBoosted(txs[..i], newGasPrice, node, boosted)
    ensures NodeTook(txs[i], newGasPrice, node) ==>
      AllBoosted(txs[..i + 1], newGasPrice, node, boosted[txs[i].txId := Resigned(txs[i], newGasPrice)])
  {
    assert txs[..i + 1] == txs[..i] + [txs[i]];
    forall j | 0 <= j < i ensures txs[j].txId != txs[i].txId {
      assert txs[j].Key() != txs[i].Key();
      assert Faithful(txs[j]) && Faithful(txs[i]);
    }
  }

  /** Before target `i`: all targets so far re-sent, stored and taken by the node. */
  ghost predicate BoostLoop(was: Docs, txs: seq<StoredTx>, i: nat, now: Docs, newGasPrice: real, currentBlock: nat,
      node: SignedTx -> NodeAnswer, boosted: map<TxId, SignedTx>)
  {
    && i <= |txs| && NonceAscending(txs) && AllHeld(was, txs) && WellIndexed(was)
    && ResentSoFar(was, txs[..i], now, newGasPrice, currentBlock)
    && AllBoosted(txs[..i], newGasPrice, node, boosted)
  }

  lemma BoostLoopStarts(was: Docs, txs: seq<StoredTx>, newGasPrice: real, currentBlock: nat,
      node: SignedTx -> NodeAnswer)
    requires WellIndexed(was) && NonceAscending(txs) && AllHeld(was, txs)
    ensures BoostLoop(was, txs, 0, was, newGasPrice, currentBlock, node, map[])
  {
    assert AfterResends(was, txs[..0], newGasPrice, currentBlock) == was;
  }

  lemma BoostLoopStep(was: Docs, txs: seq<StoredTx>, i: nat, now: Docs, newGasPrice: real, currentBlock: nat,
      node: SignedTx -> NodeAnswer, boosted: map<TxId, SignedTx>)
    requires i < |txs| && BoostLoop(was, txs, i, now, newGasPrice, currentBlock, node, boosted)
    ensures Holds(now, txs[i]) && ResendOne(now, txs[i], newGasPrice, currentBlock).Stored?
    ensures var next := ResendOne(now, txs[i], newGasPrice, currentBlock).docs;
      && next == AfterResends(was, txs[..i + 1], newGasPrice, currentBlock)
      && (NodeTook(txs[i], newGasPrice, node) ==>
            BoostLoop(was, txs, i + 1, next, newGasPrice, currentBlock, node,
              boosted[txs[i].txId := Resigned(txs[i], newGasPrice)]))
  {
    assert forall j | 0 <= j < |txs| :: Faithful(txs[j]);
    hide Holds, Faithful, AfterResends, ResendOne, AllBoosted, WellIndexed, NonceAscending, AllHeld;
    ResentStep(was, txs, i, now, newGasPrice, currentBlock);
    AllBoostedStep(txs, i, newGasPrice, node, boosted);
  }

  lemma BoostLoopEnds(was: Docs, txs: seq<StoredTx>, now: Docs, newGasPrice: real, currentBlock: nat,
      node: SignedTx -> NodeAnswer, boosted: map<TxId, SignedTx>)
    requires BoostLoop(was, txs, |txs|, now, newGasPrice, currentBlock, node, boosted)
    ensures now == AfterResends(was, txs, newGasPrice, currentBlock) && AllBoosted(txs, newGasPrice, node, boosted)
  {
    assert txs[..|txs|] == txs;
  }

  ghost predicate IsOldest(docs: Docs, signer: Address, oldest: StoredTx) {
    && Holds(docs, oldest)
    && oldest.From() == signer
    && forall k | k in docs && k.signer == signer :: oldest.nonce <= k.nonce
  }

  lemma ListingOfSigner(docs: Docs, signer: Address, txs: seq<StoredTx>)
    requires WellIndexed(docs) && IsListing(docs, Some(signer), txs)
    ensures txs == [] <==> forall k | k in docs :: k.signer != signer
    ensures txs != [] ==> IsOldest(docs, signer, txs[0])
    ensures NonceAscending(txs)
    ensures forall t | t in txs :: Holds(docs, t) && t.From() == signer
  {
    forall k | k in docs && k.signer == signer ensures docs[k] in txs {
      assert SelectedBy(Some(signer), docs[k]);
    }
    if txs != [] {
      assert txs[0].Key() in docs;
    }
  }
}
