/** The store of transactions sent but not yet confirmed (`TxStoreManager.ts`, `StoredTransaction.ts`). */
module TxStore {
  import opened Prelude
  import opened Events
  import opened Sorting

  datatype ServerAction = RegisterServer | AddWorker | RelayCall | ValueTransfer | DepositWithdrawal | Penalization

  datatype Transaction = Transaction(to: Address, value: nat, gasLimit: nat, gasPrice: real, data: seq<Byte>,
                                     nonce: nat)

  datatype SignedTx = SignedTx(signer: Address, tx: Transaction)

  /** The hash of a signed transaction is taken to be collision free: what was signed stands for it. */
  type TxId = SignedTx

  datatype NonceSigner = NonceSigner(nonce: nat, signer: Address)

  datatype Metadata = Metadata(from: Address, attempts: nat, serverAction: ServerAction, creationBlockNumber: nat,
                               boostBlockNumber: Option<nat>, minedBlockNumber: Option<nat>)

  /** A stored transaction. There is no field for the value sent. */
  datatype StoredTx = StoredTx(to: Address, gas: nat, gasPrice: real, data: seq<Byte>, nonce: nat, txId: TxId,
                               metadata: Metadata)
  {
    function Key(): NonceSigner { NonceSigner(nonce, metadata.from) }

    function From(): Address { metadata.from }

    predicate Unmined() { metadata.minedBlockNumber.None? }
  }

  type Docs = map<NonceSigner, StoredTx>

  function CreateStoredTransaction(signed: SignedTx, metadata: Metadata): StoredTx {
    StoredTx(signed.tx.to, signed.tx.gasLimit, signed.tx.gasPrice, signed.tx.data, signed.tx.nonce, signed, metadata)
  }

  function KeyOf(signed: SignedTx): NonceSigner {
    NonceSigner(signed.tx.nonce, signed.signer)
  }

  /** The two unique indexes, and every document agrees with the transaction its hash names. */
  ghost predicate WellIndexed(docs: Docs) {
    forall k | k in docs :: docs[k].Key() == k && Faithful(docs[k])
  }

  predicate Faithful(d: StoredTx) {
    && d.metadata.attempts > 0
    && d.metadata.from == d.txId.signer
    && d == CreateStoredTransaction(d.txId, d.metadata)
  }

  datatype PutResult = Stored(docs: Docs) | InvalidTx | UniqueViolated

  /** `$set` on a found document: a boost block the new document does not mention is kept. */
  function Merge(existing: StoredTx, tx: StoredTx): StoredTx {
    if tx.metadata.boostBlockNumber.None? then
      tx.(metadata := tx.metadata.(boostBlockNumber := existing.metadata.boostBlockNumber))
    else tx
  }

  predicate TxIdTaken(docs: Docs, txId: TxId, owner: NonceSigner) {
    exists k | k in docs :: k != owner && docs[k].txId == txId
  }

  function PutTx(docs: Docs, tx: StoredTx, updateExisting: bool): PutResult {
    if tx.metadata.attempts == 0 then InvalidTx
    else if tx.Key() in docs && !updateExisting then UniqueViolated
    else if TxIdTaken(docs, tx.txId, tx.Key()) then UniqueViolated
    else if tx.Key() in docs then Stored(docs[tx.Key() := Merge(docs[tx.Key()], tx)])
    else Stored(docs[tx.Key() := tx])
  }

  function RemoveTxsUntilNonce(docs: Docs, signer: Address, nonce: nat): Docs {
    map k | k in docs && !(k.signer == signer && k.nonce <= nonce) :: docs[k]
  }

  ghost predicate ActionPending(docs: Docs, action: ServerAction, destination: Option<Address>) {
    exists k | k in docs :: PendingAs(docs[k], action, destination)
  }

  predicate PendingAs(d: StoredTx, action: ServerAction, destination: Option<Address>) {
    d.Unmined() && d.metadata.serverAction == action && (destination.None? || d.to == destination.value)
  }

  ghost predicate AtMostOnePending(docs: Docs, action: ServerAction) {
    forall j, k |
      j in docs && k in docs && PendingAs(docs[j], action, None) && PendingAs(docs[k], action, None) :: j == k
  }

  predicate LowerNonce(a: StoredTx, b: StoredTx) {
    a.nonce < b.nonce
  }

  predicate SelectedBy(signer: Option<Address>, d: StoredTx) {
    signer.None? || d.From() == signer.value
  }

  /** `txs` lists the documents of the store (of one signer, if given) once each, lowest nonce first. */
  ghost predicate IsListing(docs: Docs, signer: Option<Address>, txs: seq<StoredTx>) {
    && (forall i, j | 0 <= i < j < |txs| :: txs[i].nonce <= txs[j].nonce && txs[i].Key() != txs[j].Key())
    && (forall i | 0 <= i < |txs| :: Holds(docs, txs[i]) && SelectedBy(signer, txs[i]))
    && (forall k | k in docs && SelectedBy(signer, docs[k]) :: docs[k] in txs)
  }

  predicate Holds(docs: Docs, d: StoredTx) {
    d.Key() in docs && docs[d.Key()] == d
  }

  lemma NonceOrder()
    ensures StrictWeakOrder(LowerNonce)
  {
  }

  lemma MultisetTwice<T>(s: seq<T>, i: nat, j: nat)
    requires i < j < |s| && s[i] == s[j]
    ensures multiset(s)[s[i]] >= 2
  {
    assert s == s[..j] + [s[j]] + s[j + 1..];
    assert s[i] in s[..j];
    assert multiset(s) == multiset(s[..j]) + multiset{s[j]} + multiset(s[j + 1..]);
  }

  lemma SortedListing(docs: Docs, signer: Option<Address>, found: seq<StoredTx>)
    requires WellIndexed(docs)
    requires forall d :: multiset(found)[d] == if Holds(docs, d) && SelectedBy(signer, d) then 1 else 0
    ensures IsListing(docs, signer, StableSort(found, LowerNonce))
  {
    NonceOrder();
    StableSortSorts(found, LowerNonce);
    var txs := StableSort(found, LowerNonce);
    forall i | 0 <= i < |txs| ensures Holds(docs, txs[i]) && SelectedBy(signer, txs[i]) {
      assert txs[i] in multiset(txs);
    }
    forall i, j | 0 <= i < j < |txs| ensures txs[i].Key() != txs[j].Key() {
      if txs[i].Key() == txs[j].Key() {
        MultisetTwice(txs, i, j);
      }
    }
    forall k | k in docs && SelectedBy(signer, docs[k]) ensures docs[k] in txs {
      assert docs[k] in multiset(txs);
    }
  }

  lemma ListingOfOne(tx: StoredTx, signer: Option<Address>)
    requires SelectedBy(signer, tx)
    ensures IsListing(map[tx.Key() := tx], signer, [tx])
  {
  }

  /** The two unique indexes alone, whatever the documents say. */
  ghost predicate UniqueIndexes(docs: Docs) {
    && (forall k | k in docs :: docs[k].Key() == k)
    && (forall j, k | j in docs && k in docs && docs[j].txId == docs[k].txId :: j == k)
  }

  /** Any document at all: what is put lands under its own key, nothing else changes, and both indexes stay unique. */
  lemma StoreKeepsIndexes(docs: Docs, tx: StoredTx, updateExisting: bool, signer: Address, nonce: nat)
    requires UniqueIndexes(docs)
    ensures UniqueIndexes(RemoveTxsUntilNonce(docs, signer, nonce))
    ensures var put := PutTx(docs, tx, updateExisting);
      put.Stored? ==>
        && UniqueIndexes(put.docs) && put.docs.Keys == docs.Keys + {tx.Key()}
        && put.docs[tx.Key()].txId == tx.txId
        && forall k | k in docs && k != tx.Key() :: put.docs[k] == docs[k]
  {
    var put := PutTx(docs, tx, updateExisting);
    if put.Stored? {
      assert !TxIdTaken(docs, tx.txId, tx.Key());
    }
  }

  /** With a well-indexed store the transaction-hash index never rejects on its own. */
  lemma PutAccepts(docs: Docs, tx: StoredTx, updateExisting: bool)
    requires WellIndexed(docs) && Faithful(tx)
    ensures PutTx(docs, tx, updateExisting).Stored? <==> (tx.Key() !in docs || updateExisting)
    ensures PutTx(docs, tx, updateExisting).Stored? ==> WellIndexed(PutTx(docs, tx, updateExisting).docs)
    ensures PutTx(docs, tx, updateExisting).Stored? ==>
      PutTx(docs, tx, updateExisting).docs.Keys == docs.Keys + {tx.Key()}
  {
    assert !TxIdTaken(docs, tx.txId, tx.Key());
  }

  class TxStoreManager {
    var docs: Docs

    ghost predicate Valid()
      reads this
    {
      WellIndexed(docs)
    }

    constructor ()
      ensures Valid() && docs == map[]
    {
      docs := map[];
    }

    method Put(tx: StoredTx, updateExisting: bool) returns (stored: bool)
      modifies this
      ensures stored <==> PutTx(old(docs), tx, updateExisting).Stored?
      ensures docs == if stored then PutTx(old(docs), tx, updateExisting).docs else old(docs)
    {
      var r := PutTx(docs, tx, updateExisting);
      stored := r.Stored?;
      if stored {
        docs := r.docs;
      }
    }

    method RemoveUntilNonce(signer: Address, nonce: nat)
      modifies this
      ensures docs == RemoveTxsUntilNonce(old(docs), signer, nonce)
      ensures old(Valid()) ==> Valid()
    {
      docs := RemoveTxsUntilNonce(docs, signer, nonce);
    }

    /** The documents found by a query, in no particular order, sorted by nonce. */
    method Find(signer: Option<Address>) returns (txs: seq<StoredTx>)
      requires Valid()
      ensures IsListing(docs, signer, txs)
    {
      var found: seq<StoredTx> := [];
      var keys := docs.Keys;
      while keys != {}
        invariant keys <= docs.Keys
        invariant forall d ::
          multiset(found)[d] == if Holds(docs, d) && SelectedBy(signer, d) && d.Key() !in keys then 1 else 0
        decreases |keys|
      {
        var k :| k in keys;
        if SelectedBy(signer, docs[k]) {
          found := found + [docs[k]];
        }
        keys := keys - {k};
      }
      var a := new StoredTx[|found|](i requires 0 <= i < |found| => found[i]);
      assert a[..] == found;
      SortInPlace(a, LowerNonce);
      SortedListing(docs, signer, found);
      txs := a[..];
    }

    method GetAll() returns (txs: seq<StoredTx>)
      requires Valid()
      ensures IsListing(docs, None, txs)
    {
      txs := Find(None);
    }

    method GetAllBySigner(signer: Address) returns (txs: seq<StoredTx>)
      requires Valid()
      ensures IsListing(docs, Some(signer), txs)
    {
      txs := Find(Some(signer));
    }

    method IsActionPending(action: ServerAction, destination: Option<Address>) returns (pending: bool)
      requires Valid()
      ensures pending <==> ActionPending(docs, action, destination)
      ensures pending <==> exists k | k in docs ::
        docs[k].metadata.minedBlockNumber.None? && docs[k].metadata.serverAction == action
        && (destination.Some? ==> docs[k].to == destination.value)
    {
      var txs := GetAll();
      pending := exists i | 0 <= i < |txs| :: PendingAs(txs[i], action, destination);
      if ActionPending(docs, action, destination) {
        ghost var k :| k in docs && PendingAs(docs[k], action, destination);
        assert docs[k] in txs;
      }
    }
  }
}
