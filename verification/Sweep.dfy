/** The confirmation sweep of `removeConfirmedTransactions`, one store entry at a time and as a whole. */
module Sweep {
  import opened Prelude
  import opened TxStore

  /** What the node says about a transaction hash: unknown, known but in no block, or in a block. */
  datatype Receipt = NoReceipt | NoBlock | MinedAt(blockNumber: nat)

  datatype Verdict = Keep | MarkMined(blockNumber: nat) | Remove

  /** One sweep at a block height. Each hash is asked about at most once, so answers go by hash. */
  datatype Round = Round(answers: TxId -> Receipt, blockNumber: int, confirmationsNeeded: int)
  {
    function Judge(tx: StoredTx): Verdict {
      TxVerdict(tx, answers(tx.txId), blockNumber, confirmationsNeeded)
    }

    /** The node reports the transaction in a block that is deep enough. */
    predicate DeepEnough(tx: StoredTx) {
      answers(tx.txId).MinedAt? && blockNumber - answers(tx.txId).blockNumber >= confirmationsNeeded
    }
  }

  /**
   The answers of queries that may be rejected; a rejected one stops the sweep, so what it counts as does not matter.
   */
  function Answered(query: TxId -> Option<Receipt>): TxId -> Receipt {
    (txId: TxId) => if query(txId).Some? then query(txId).value else NoReceipt
  }

  predicate ShouldRecheck(tx: StoredTx, blockNumber: int, confirmationsNeeded: int) {
    tx.Unmined() || blockNumber - tx.metadata.minedBlockNumber.value >= confirmationsNeeded
  }

  /**
   An entry is due for a check if it is unmined, or was marked as mined `confirmationsNeeded` blocks ago or longer. One
   that is due and shown in a block goes if the block is deep enough, and is marked with it if not.
   */
  function TxVerdict(tx: StoredTx, receipt: Receipt, blockNumber: int, confirmationsNeeded: int): (v: Verdict)
    ensures var mined := tx.metadata.minedBlockNumber;
      var due := mined.None? || blockNumber - mined.value >= confirmationsNeeded;
      && (v.Remove? <==> due && receipt.MinedAt? && blockNumber - receipt.blockNumber >= confirmationsNeeded)
      && (forall b: nat :: v == MarkMined(b) <==>
            due && receipt == MinedAt(b) && blockNumber - b < confirmationsNeeded && mined != Some(b))
  {
    if !ShouldRecheck(tx, blockNumber, confirmationsNeeded) || !receipt.MinedAt? then Keep
    else if tx.metadata.minedBlockNumber != Some(receipt.blockNumber)
         && blockNumber - receipt.blockNumber < confirmationsNeeded then
      MarkMined(receipt.blockNumber)
    else Remove
  }

  function WithMinedBlock(tx: StoredTx, blockNumber: nat): StoredTx {
    tx.(metadata := tx.metadata.(minedBlockNumber := Some(blockNumber)))
  }

  /** The effect of one sweep iteration on the store; `tx` is from the snapshot, not read again. */
  function SweepOne(docs: Docs, tx: StoredTx, v: Verdict): PutResult {
    match v
    case Keep => Stored(docs)
    case MarkMined(b) => PutTx(docs, WithMinedBlock(tx, b), true)
    case Remove => Stored(RemoveTxsUntilNonce(docs, tx.From(), tx.nonce))
  }

  lemma SweepOneAccepts(docs: Docs, tx: StoredTx, v: Verdict)
    requires WellIndexed(docs) && Faithful(tx)
    ensures SweepOne(docs, tx, v).Stored? && WellIndexed(SweepOne(docs, tx, v).docs)
  {
    if v.MarkMined? {
      PutAccepts(docs, WithMinedBlock(tx, v.blockNumber), true);
    }
  }

  predicate Covers(tx: StoredTx, k: NonceSigner) {
    tx.From() == k.signer && k.nonce <= tx.nonce
  }

  /** An entry goes exactly when it, or a later nonce of its signer, is judged confirmed. */
  ghost predicate Swept(docs: Docs, k: NonceSigner, round: Round) {
    exists c | c in docs :: Covers(docs[c], k) && round.Judge(docs[c]).Remove?
  }

  function Survivor(tx: StoredTx, round: Round): StoredTx {
    match round.Judge(tx)
    case MarkMined(b) => WithMinedBlock(tx, b)
    case _ => tx
  }

  ghost function AfterSweep(docs: Docs, round: Round): Docs {
    map k | k in docs && !Swept(docs, k, round) :: Survivor(docs[k], round)
  }

  /** Removed by one of the first `i` entries of the snapshot. */
  ghost predicate Gone(txs: seq<StoredTx>, i: nat, k: NonceSigner, round: Round)
    requires i <= |txs|
  {
    exists j | 0 <= j < i :: Covers(txs[j], k) && round.Judge(txs[j]).Remove?
  }

  /** The store in the middle of a sweep that has dealt with the first `i` entries of its snapshot. */
  ghost predicate SweptSoFar(docs: Docs, txs: seq<StoredTx>, i: nat, now: Docs, round: Round) {
    && i <= |txs|
    && WellIndexed(now)
    && now.Keys <= docs.Keys
    && (forall k | k in docs :: k !in now <==> Gone(txs, i, k, round))
    && EntriesSoFar(txs, i, now, round)
  }

  ghost predicate EntriesSoFar(txs: seq<StoredTx>, i: nat, now: Docs, round: Round) {
    forall j | 0 <= j < |txs| :: txs[j].Key() in now ==>
      now[txs[j].Key()] == if j < i then Survivor(txs[j], round) else txs[j]
  }

  lemma SweptKeepsIndexes(docs: Docs, txs: seq<StoredTx>, i: nat, now: Docs, round: Round)
    requires SweptSoFar(docs, txs, i, now, round)
    ensures WellIndexed(now) && i <= |txs|
  {
  }

  lemma SweptNothing(docs: Docs, txs: seq<StoredTx>, round: Round)
    requires WellIndexed(docs) && IsListing(docs, None, txs)
    ensures SweptSoFar(docs, txs, 0, docs, round)
  {
  }

  lemma EntriesStep(txs: seq<StoredTx>, i: nat, now: Docs, next: Docs, round: Round)
    requires EntriesSoFar(txs, i, now, round) && i < |txs| && next.Keys <= now.Keys
    requires forall a, b | 0 <= a < b < |txs| :: txs[a].Key() != txs[b].Key()
    requires forall k | k in next :: next[k] == if k == txs[i].Key() then Survivor(txs[i], round) else now[k]
    ensures EntriesSoFar(txs, i + 1, next, round)
  {
    forall j | 0 <= j < |txs| && txs[j].Key() in next
      ensures next[txs[j].Key()] == if j < i + 1 then Survivor(txs[j], round) else txs[j]
    {
      assert j == i || txs[j].Key() != txs[i].Key();
    }
  }

  lemma GoneStep(txs: seq<StoredTx>, i: nat, k: NonceSigner, round: Round)
    requires i < |txs|
    ensures Gone(txs, i + 1, k, round) <==> Gone(txs, i, k, round) || (Covers(txs[i], k) && round.Judge(txs[i]).Remove?)
  {
  }

  /** Snapshot order protects the entries not yet examined: none of them has been removed. */
  lemma StillThere(docs: Docs, txs: seq<StoredTx>, i: nat, now: Docs, round: Round)
    requires IsListing(docs, None, txs) && i < |txs|
    requires SweptSoFar(docs, txs, i, now, round)
    ensures Holds(now, txs[i])
  {
    forall j | 0 <= j < i ensures !Covers(txs[j], txs[i].Key()) {
      assert txs[j].Key() != txs[i].Key();
    }
    assert Holds(docs, txs[i]);
  }

  lemma SweepOneEffect(now: Docs, tx: StoredTx, round: Round)
    requires WellIndexed(now) && Holds(now, tx)
    ensures var r := SweepOne(now, tx, round.Judge(tx));
      && r.Stored? && WellIndexed(r.docs) && r.docs.Keys <= now.Keys
      && (forall k | k in now :: k !in r.docs <==> Covers(tx, k) && round.Judge(tx).Remove?)
      && (forall k | k in r.docs :: r.docs[k] == if k == tx.Key() then Survivor(tx, round) else now[k])
  {
    SweepOneAccepts(now, tx, round.Judge(tx));
  }

  lemma SweepStep(docs: Docs, txs: seq<StoredTx>, i: nat, now: Docs, round: Round)
    requires IsListing(docs, None, txs) && i < |txs|
    requires SweptSoFar(docs, txs, i, now, round)
    ensures SweepOne(now, txs[i], round.Judge(txs[i])).Stored?
    ensures SweptSoFar(docs, txs, i + 1, SweepOne(now, txs[i], round.Judge(txs[i])).docs, round)
  {
    StillThere(docs, txs, i, now, round);
    SweepOneEffect(now, txs[i], round);
    var next := SweepOne(now, txs[i], round.Judge(txs[i])).docs;
    EntriesStep(txs, i, now, next, round);
    forall k | k in docs ensures k !in next <==> Gone(txs, i + 1, k, round) {
      GoneStep(txs, i, k, round);
    }
  }

  lemma SweptIsGone(docs: Docs, txs: seq<StoredTx>, k: NonceSigner, round: Round)
    requires WellIndexed(docs) && IsListing(docs, None, txs) && k in docs
    ensures Swept(docs, k, round) <==> Gone(txs, |txs|, k, round)
  {
    if Swept(docs, k, round) {
      var c :| c in docs && Covers(docs[c], k) && round.Judge(docs[c]).Remove?;
      assert docs[c] in txs;
    }
    if Gone(txs, |txs|, k, round) {
      var j :| 0 <= j < |txs| && Covers(txs[j], k) && round.Judge(txs[j]).Remove?;
      assert Holds(docs, txs[j]);
    }
  }

  lemma EntryDone(docs: Docs, txs: seq<StoredTx>, now: Docs, round: Round, k: NonceSigner)
    requires WellIndexed(docs) && IsListing(docs, None, txs) && k in docs
    requires EntriesSoFar(txs, |txs|, now, round)
    ensures k in now ==> now[k] == Survivor(docs[k], round)
  {
    assert docs[k] in txs;
    var j :| 0 <= j < |txs| && txs[j] == docs[k];
    assert txs[j].Key() == k;
  }

  lemma SweepDone(docs: Docs, txs: seq<StoredTx>, now: Docs, round: Round)
    requires WellIndexed(docs) && IsListing(docs, None, txs)
    requires SweptSoFar(docs, txs, |txs|, now, round)
    ensures now == AfterSweep(docs, round)
  {
    forall k | k in docs
      ensures k in now <==> k in AfterSweep(docs, round)
      ensures k in now ==> now[k] == AfterSweep(docs, round)[k]
    {
      SweptIsGone(docs, txs, k, round);
      EntryDone(docs, txs, now, round, k);
    }
  }

  /** Unmined, or marked as mined so long ago that the block would be deep enough by now. */
  ghost predicate Due(tx: StoredTx, round: Round) {
    var mined := tx.metadata.minedBlockNumber;
    mined.None? || mined.value + round.confirmationsNeeded <= round.blockNumber
  }

  /**
   What a sweep means for one entry, for any answers of the node: it goes only because of a deep enough
   confirmation at or above its nonce, and of each signer exactly the entries above its highest
   confirmed nonce survive. An entry that is due for a check and deep enough does go. One that is due, survives and is
   shown in a block is marked with that block, and differs in nothing else; all others survive as they are. No entry
   appears that was not there.
   */
  lemma SweepIsSound(docs: Docs, round: Round, k: NonceSigner)
    requires WellIndexed(docs) && k in docs
    ensures k !in AfterSweep(docs, round) ==> exists c | c in docs :: Covers(docs[c], k) && round.DeepEnough(docs[c])
    ensures k in AfterSweep(docs, round) <==>
              forall c | c in docs && c.signer == k.signer && round.Judge(docs[c]).Remove? :: c.nonce < k.nonce
    ensures Due(docs[k], round) && round.DeepEnough(docs[k]) ==> k !in AfterSweep(docs, round)
    ensures k in AfterSweep(docs, round) ==>
      var before, after, answer := docs[k], AfterSweep(docs, round)[k], round.answers(docs[k].txId);
      if Due(before, round) && answer.MinedAt? then
        && after.metadata.minedBlockNumber == Some(answer.blockNumber)
        && after.(metadata := after.metadata.(minedBlockNumber := before.metadata.minedBlockNumber)) == before
      else after == before
    ensures AfterSweep(docs, round).Keys <= docs.Keys
  {
    if Swept(docs, k, round) {
      var c :| c in docs && Covers(docs[c], k) && round.Judge(docs[c]).Remove?;
      assert round.DeepEnough(docs[c]);
    } else {
      assert Covers(docs[k], k) && !round.Judge(docs[k]).Remove?;
    }
  }
}
