/**
 How prices move in every run: when a boost makes geometric progress, and that re-sends of an entry come to an end.
 */
module Pricing {
  import opened Prelude
  import opened Events
  import opened Sorting
  import opened TxStore
  import opened Sweep
  import opened Boosting
  import opened TransactionManagers
  import opened Pipeline
  import opened Nonces
  import opened Raising

  // ---------- what the record of an entry's re-sends says ----------

  /** Re-sends that were not undercut raise geometrically until the cap; the others are charged to different nonces. */
  ghost predicate Geometric(prices: PriceConfig, r: Resends) {
    && r.undercuts < r.count && r.undercuts == |r.undercutBy|
    && 0.0 < r.first && r.last <= prices.maxGasPrice
    && r.last >= MinReal(prices.maxGasPrice, Raised(prices.retryGasPriceFactor, r.first, r.count - r.undercuts - 1))
    && (r.count - r.undercuts >= 2 ==>
          Raised(prices.retryGasPriceFactor, r.first, r.count - r.undercuts - 2) < prices.maxGasPrice)
  }

  lemma FirstResend(prices: PriceConfig, price: real)
    requires 0.0 < price <= prices.maxGasPrice
    ensures Geometric(prices, Resends(1, price, price, 0, {}))
  {
  }

  /** A re-send whose price is set by an entry at least as expensive: the factor over the previous one, or the cap. */
  lemma GeometricResend(prices: PriceConfig, r: Resends, oldest: real)
    requires Sensible(prices) && Geometric(prices, r)
    requires r.last <= oldest && r.last < prices.NewGasPrice(oldest)
    ensures Geometric(prices, r.(count := r.count + 1, last := prices.NewGasPrice(oldest)))
  {
    var n := r.count - r.undercuts;
    var f, previous := prices.retryGasPriceFactor, Raised(prices.retryGasPriceFactor, r.first, n - 1);
    var raised, raisedLast := Raised(f, r.first, n), prices.Scaled(r.last);
    assert raised == f * previous;
    hide Raised;
    Monotone(f, previous, r.last, raised, raisedLast);
    ReachesFactorIff(prices, oldest, r.last);
    OverPrevious(prices.maxGasPrice, previous, raised, r.last, raisedLast, prices.NewGasPrice(oldest));
  }

  lemma UndercutResend(prices: PriceConfig, r: Resends, price: real, nonce: nat)
    requires Geometric(prices, r) && r.last < price <= prices.maxGasPrice && nonce !in r.undercutBy
    ensures Geometric(prices, Resends(r.count + 1, r.first, price, r.undercuts + 1, r.undercutBy + {nonce}))
  {
    hide Raised;
  }

  // ---------- the store and the records ----------

  /** An entry once re-sent is at its last price. */
  ghost predicate PricesKept(docs: Docs, resends: map<NonceSigner, Resends>) {
    forall b | b in resends :: b in docs && docs[b].gasPrice == resends[b].last
  }

  /** A nonce that undercut `b` is below it, was sent in this run, and is not cheaper than `b` any more. */
  ghost predicate Charged(docs: Docs, resends: map<NonceSigner, Resends>, signings: seq<Signing>, runStart: nat) {
    && (forall b, n | b in resends && n in resends[b].undercutBy ::
          n < b.nonce && SentSince(signings, runStart, NonceSigner(n, b.signer)))
    && (forall b, k | b in resends && k in docs && k.signer == b.signer && k.nonce in resends[b].undercutBy ::
          docs[k].gasPrice >= resends[b].last)
  }

  /** What lies below a re-sent entry and is cheaper was sent in this run. */
  ghost predicate CheaperAreNew(docs: Docs, resends: map<NonceSigner, Resends>, signings: seq<Signing>, runStart: nat) {
    forall b, k | b in resends && k in docs && k.signer == b.signer && k.nonce <= b.nonce
      && docs[k].gasPrice < resends[b].last ::
      SentSince(signings, runStart, k)
  }

  // ---------- the resend loop ----------

  predicate Waiting(txs: seq<StoredTx>, i: nat, k: NonceSigner) {
    exists j | i <= j < |txs| :: txs[j].Key() == k
  }

  /** An entry of the signer that the boost did not find when it began. */
  predicate Late(signer: Address, snapshot: seq<StoredTx>, k: NonceSigner) {
    k.signer == signer && forall t | t in snapshot :: t.Key() != k
  }

  ghost predicate SnapshotKept(prices: PriceConfig, docs: Docs, w: Worker)
    requires w.Boosting?
  {
    && w.snapshot != [] && NonceAscending(w.snapshot)
    && (forall t | t in w.snapshot :: t.From() == w.signer && t.Key() in docs)
    && w.newGasPrice == prices.NewGasPrice(w.snapshot[0].gasPrice)
    && w.txs == Filter(w.snapshot, Below(w.newGasPrice)) && w.i <= |w.txs|
  }

  /** What is still too cheap is a target to come, or came late. */
  ghost predicate CheapWaitOrLate(docs: Docs, w: Worker)
    requires w.Boosting?
  {
    forall k | k in docs && k.signer == w.signer && docs[k].gasPrice < w.newGasPrice ::
      Waiting(w.txs, w.i, k) || Late(w.signer, w.snapshot, k)
  }

  /** What came late was sent since the boost began, and has undercut nothing yet. */
  ghost predicate LateAreNew(docs: Docs, w: Worker, resends: map<NonceSigner, Resends>, signings: seq<Signing>,
      runStart: nat)
    requires w.Boosting?
  {
    && runStart <= w.since <= |signings|
    && (forall k | k in docs && Late(w.signer, w.snapshot, k) :: SentSince(signings, w.since, k))
    && (forall k, b | k in docs && Late(w.signer, w.snapshot, k) && b in resends && b.signer == w.signer ::
          k.nonce !in resends[b].undercutBy)
  }

  /** If the oldest entry is about to undercut a target, it does so for the first time, and was sent in this run. */
  ghost predicate UndercutOnce(w: Worker, resends: map<NonceSigner, Resends>, signings: seq<Signing>, runStart: nat)
    requires w.Boosting? && w.snapshot != []
  {
    forall j | w.i <= j < |w.txs| && w.txs[j].Key() in resends && Undercut(w, resends[w.txs[j].Key()]) ::
      && w.snapshot[0].nonce !in resends[w.txs[j].Key()].undercutBy
      && w.snapshot[0].nonce < w.txs[j].nonce
      && SentSince(signings, runStart, w.snapshot[0].Key())
  }

  ghost predicate LoopKnown(prices: PriceConfig, docs: Docs, w: Worker, resends: map<NonceSigner, Resends>,
      signings: seq<Signing>, runStart: nat)
  {
    w.Boosting? ==>
      && SnapshotKept(prices, docs, w) && CheapWaitOrLate(docs, w)
      && LateAreNew(docs, w, resends, signings, runStart) && UndercutOnce(w, resends, signings, runStart)
  }

  ghost predicate NonNegative(docs: Docs, mutex: Mutex) {
    && (forall k | k in docs :: docs[k].gasPrice >= 0.0)
    && (mutex.Held? ==> mutex.gasPrice >= 0.0)
  }

  ghost predicate Recorded(docs: Docs, resends: map<NonceSigner, Resends>, signings: seq<Signing>, runStart: nat) {
    && PricesKept(docs, resends)
    && Charged(docs, resends, signings, runStart)
    && CheaperAreNew(docs, resends, signings, runStart)
  }

  ghost predicate Priced(cfg: Config, s: State) {
    && Linear(s)
    && NonNegative(s.docs, s.mutex)
    && (forall b | b in s.resends :: Geometric(cfg.prices, s.resends[b]))
    && Recorded(s.docs, s.resends, s.signings, s.runStart)
    && LoopKnown(cfg.prices, s.docs, s.worker, s.resends, s.signings, s.runStart)
  }

  lemma SentGrows(signings: seq<Signing>, after: seq<Signing>, from: nat, earlier: nat)
    requires signings <= after && earlier <= from
    ensures forall k | SentSince(signings, from, k) :: SentSince(after, earlier, k)
  {
    forall k | SentSince(signings, from, k) ensures SentSince(after, earlier, k) {
      var i :| from <= i < |signings| && !signings[i].resend && KeyOf(signings[i].signed) == k;
      assert after[i] == signings[i];
    }
  }

  // ---------- a send is stored ----------

  /** A nonce sent in this run is below its signer's counter. */
  lemma SentIsBelowCounter(s: State, k: NonceSigner)
    requires Linear(s) && SentSince(s.signings, s.runStart, k)
    ensures k.signer in s.nonces && k.nonce < s.nonces[k.signer]
  {
  }

  lemma NewEntryRecorded(docs: Docs, resends: map<NonceSigner, Resends>, signings: seq<Signing>, runStart: nat,
      k: NonceSigner, entry: StoredTx, x: Signing)
    requires Recorded(docs, resends, signings, runStart) && k !in docs && runStart <= |signings|
    requires !x.resend && KeyOf(x.signed) == k
    requires forall b | b in resends && b.signer == k.signer :: k.nonce !in resends[b].undercutBy
    ensures Recorded(docs[k := entry], resends, signings + [x], runStart)
  {
    SentGrows(signings, signings + [x], runStart, runStart);
    assert (signings + [x])[|signings|] == x;
    assert SentSince(signings + [x], runStart, k);
  }

  lemma NewEntryInLoop(prices: PriceConfig, docs: Docs, w: Worker, resends: map<NonceSigner, Resends>,
      signings: seq<Signing>, runStart: nat, k: NonceSigner, entry: StoredTx, x: Signing)
    requires w.Boosting? && LoopKnown(prices, docs, w, resends, signings, runStart) && k !in docs
    requires !x.resend && KeyOf(x.signed) == k
    requires forall b | b in resends && b.signer == k.signer :: k.nonce !in resends[b].undercutBy
    ensures LoopKnown(prices, docs[k := entry], w, resends, signings + [x], runStart)
  {
    SentGrows(signings, signings + [x], w.since, w.since);
    SentGrows(signings, signings + [x], runStart, runStart);
    assert (signings + [x])[|signings|] == x;
    assert SentSince(signings + [x], w.since, k);
    if k.signer == w.signer { assert Late(w.signer, w.snapshot, k); }
  }

  lemma NotCharged(s: State, k: NonceSigner)
    requires Linear(s) && Charged(s.docs, s.resends, s.signings, s.runStart)
    requires k.signer in s.nonces && k.nonce >= s.nonces[k.signer]
    ensures forall b | b in s.resends && b.signer == k.signer :: k.nonce !in s.resends[b].undercutBy
  {
    forall b | b in s.resends && b.signer == k.signer && k.nonce in s.resends[b].undercutBy ensures false {
      SentIsBelowCounter(s, NonceSigner(k.nonce, b.signer));
    }
  }

  lemma CommitChanges(s: State)
    requires Coherent(s) && s.mutex.Held?
    ensures var k, next := Polled(s), AfterCommit(s);
      var entry := NewEntry(s.mutex.details, s.mutex.gasPrice, s.mutex.nonce);
      && next.resends == s.resends && next.runStart == s.runStart && next.mutex.Free?
      && (next.worker == s.worker || !next.worker.Boosting?)
      && next.docs == (if k in s.docs then s.docs else s.docs[k := entry])
      && next.signings == (if k in s.docs then s.signings else s.signings + [Signing(entry.txId, false)])
      && KeyOf(entry.txId) == k && entry.gasPrice == s.mutex.gasPrice
  {
    hide LoopCoherent, WellIndexed;
    CommitCoherent(s);
  }

  lemma CommitPriced(cfg: Config, s: State)
    requires Coherent(s) && Priced(cfg, s) && s.mutex.Held?
    ensures Priced(cfg, AfterCommit(s))
  {
    CommitChanges(s);
    CommitLinear(s);
    hide Geometric, Recorded, LoopKnown, WellIndexed, LoopCoherent, Linear, AfterCommit, NewEntry;
    var k, next := Polled(s), AfterCommit(s);
    if k !in s.docs {
      var entry := NewEntry(s.mutex.details, s.mutex.gasPrice, s.mutex.nonce);
      RecordedIsCharged(s);
      NotCharged(s, k);
      NewEntryRecorded(s.docs, s.resends, s.signings, s.runStart, k, entry, Signing(entry.txId, false));
      if s.worker.Boosting? {
        NewEntryInLoop(cfg.prices, s.docs, s.worker, s.resends, s.signings, s.runStart, k, entry,
          Signing(entry.txId, false));
      }
    }
    if !next.worker.Boosting? {
      NoLoop(cfg.prices, next);
    }
  }

  lemma RecordedIsCharged(s: State)
    requires Recorded(s.docs, s.resends, s.signings, s.runStart) && Linear(s)
    ensures Charged(s.docs, s.resends, s.signings, s.runStart) && s.runStart <= |s.signings|
  {
  }

  lemma NoLoop(prices: PriceConfig, s: State)
    requires !s.worker.Boosting?
    ensures LoopKnown(prices, s.docs, s.worker, s.resends, s.signings, s.runStart)
  {
  }

  // ---------- entries are swept ----------

  lemma FewerRecorded(docs: Docs, resends: map<NonceSigner, Resends>, signings: seq<Signing>, runStart: nat,
      after: Docs, left: map<NonceSigner, Resends>)
    requires Recorded(docs, resends, signings, runStart)
    requires forall k | k in after :: k in docs && after[k].gasPrice == docs[k].gasPrice
    requires forall b | b in left :: b in after && b in resends && left[b] == resends[b]
    ensures Recorded(after, left, signings, runStart)
  {
  }

  lemma SweepNextKeepsPrices(cfg: Config, s: State, receipt: Receipt)
    requires Coherent(s) && s.worker.Sweeping? && s.worker.i < |s.worker.txs|
    ensures var next := AfterSweepNext(cfg, s, receipt);
      && next.worker.Sweeping?
      && (forall k | k in next.docs :: k in s.docs && next.docs[k].gasPrice == s.docs[k].gasPrice)
      && (forall b | b in next.resends :: b in next.docs && b in s.resends && next.resends[b] == s.resends[b])
  {
    SweepNextCoherent(cfg, s, receipt);
    assert Holds(s.docs, s.worker.txs[s.worker.i]);
  }

  lemma SweepNextPriced(cfg: Config, s: State, receipt: Receipt)
    requires Coherent(s) && Priced(cfg, s) && Enabled(cfg, s, SweepNext(receipt))
    ensures Priced(cfg, AfterSweepNext(cfg, s, receipt))
  {
    SweepNextKeepsPrices(cfg, s, receipt);
    StepLinear(cfg, s, SweepNext(receipt));
    hide Geometric, Recorded, LoopKnown, AfterSweepNext, Coherent, Linear;
    var next := AfterSweepNext(cfg, s, receipt);
    assert next.signings == s.signings && next.runStart == s.runStart && next.mutex == s.mutex by {
      SweepNextIsQuiet(cfg, s, receipt);
    }
    FewerRecorded(s.docs, s.resends, s.signings, s.runStart, next.docs, next.resends);
    NoLoop(cfg.prices, next);
  }

  lemma SweepNextIsQuiet(cfg: Config, s: State, receipt: Receipt)
    requires s.worker.Sweeping? && s.worker.i < |s.worker.txs|
    ensures var next := AfterSweepNext(cfg, s, receipt);
      next.signings == s.signings && next.runStart == s.runStart && next.mutex == s.mutex
  {
  }

  // ---------- a boost begins ----------

  /** Whatever is underpriced at the beginning is a target. */
  lemma TargetsComplete(docs: Docs, signer: Address, txs: seq<StoredTx>, newGasPrice: real, k: NonceSigner)
    requires IsListing(docs, Some(signer), txs) && WellIndexed(docs) && k in docs && k.signer == signer
    ensures docs[k].gasPrice >= newGasPrice || Waiting(Filter(txs, Below(newGasPrice)), 0, k)
    ensures !Late(signer, txs, k)
  {
    FilterMembers(txs, Below(newGasPrice));
    assert SelectedBy(Some(signer), docs[k]);
    assert docs[k] in txs && docs[k].Key() == k;
  }

  /** An oldest entry that is about to undercut a target has not done so before. */
  lemma OldestUndercutsOnce(s: State, signer: Address, oldest: StoredTx, b: NonceSigner)
    requires Recorded(s.docs, s.resends, s.signings, s.runStart) && IsOldest(s.docs, signer, oldest)
      && WellIndexed(s.docs)
    requires b in s.resends && b.signer == signer && oldest.gasPrice < s.resends[b].last
    ensures oldest.nonce !in s.resends[b].undercutBy && oldest.nonce < b.nonce
    ensures SentSince(s.signings, s.runStart, oldest.Key())
  {
    var k := oldest.Key();
    assert k in s.docs && s.docs[k] == oldest && k.nonce <= b.nonce;
    assert k != b;
  }

  lemma BeginBoostCheap(docs: Docs, w: Worker)
    requires w.Boosting? && w.txs == Filter(w.snapshot, Below(w.newGasPrice)) && w.i == 0
    requires WellIndexed(docs) && IsListing(docs, Some(w.signer), w.snapshot)
    ensures CheapWaitOrLate(docs, w) && forall k | k in docs :: !Late(w.signer, w.snapshot, k)
  {
    forall k | k in docs && k.signer == w.signer
      ensures (docs[k].gasPrice < w.newGasPrice ==> Waiting(w.txs, 0, k)) && !Late(w.signer, w.snapshot, k)
    {
      TargetsComplete(docs, w.signer, w.snapshot, w.newGasPrice, k);
    }
  }

  lemma BeginBoostOnce(s: State, w: Worker)
    requires w.Boosting? && w.snapshot != [] && w.txs == Filter(w.snapshot, Below(w.newGasPrice))
    requires WellIndexed(s.docs) && IsListing(s.docs, Some(w.signer), w.snapshot)
    requires Recorded(s.docs, s.resends, s.signings, s.runStart)
    ensures UndercutOnce(w, s.resends, s.signings, s.runStart)
  {
    FilterMembers(w.snapshot, Below(w.newGasPrice));
    ListingOfSigner(s.docs, w.signer, w.snapshot);
    forall j | w.i <= j < |w.txs| && w.txs[j].Key() in s.resends && Undercut(w, s.resends[w.txs[j].Key()])
      ensures w.snapshot[0].nonce !in s.resends[w.txs[j].Key()].undercutBy && w.snapshot[0].nonce < w.txs[j].nonce
      ensures SentSince(s.signings, s.runStart, w.snapshot[0].Key())
    {
      assert w.txs[j] in w.snapshot;
      OldestUndercutsOnce(s, w.signer, w.snapshot[0], w.txs[j].Key());
    }
  }

  lemma BeginBoostLoop(cfg: Config, s: State, w: Worker)
    requires Coherent(s) && Recorded(s.docs, s.resends, s.signings, s.runStart) && s.runStart <= |s.signings|
    requires w.Boosting? && IsListing(s.docs, Some(w.signer), w.snapshot) && w.snapshot != []
    requires w.newGasPrice == cfg.prices.NewGasPrice(w.snapshot[0].gasPrice)
    requires w.txs == Filter(w.snapshot, Below(w.newGasPrice)) && w.i == 0 && w.since == |s.signings|
    ensures LoopKnown(cfg.prices, s.docs, w, s.resends, s.signings, s.runStart)
  {
    hide Recorded, IsListing, WellIndexed, LoopCoherent, CheapWaitOrLate, UndercutOnce, Late, PriceConfig.NewGasPrice,
      Filter;
    BeginBoostCheap(s.docs, w);
    BeginBoostOnce(s, w);
    ListingOfSigner(s.docs, w.signer, w.snapshot);
    SnapshotKeys(s.docs, w.snapshot);
  }

  lemma BeginBoostPriced(cfg: Config, s: State, step: Step)
    requires Coherent(s) && Priced(cfg, s) && step.BeginBoost? && Enabled(cfg, s, step)
    ensures Priced(cfg, Apply(cfg, s, step))
  {
    hide DueForBoost, State.ConfirmedBelow, Geometric, Recorded, LoopKnown, IsListing, WellIndexed, LoopCoherent,
      PriceConfig.NewGasPrice, Filter, Increasing;
    BeginBoostLoop(cfg, s, Apply(cfg, s, step).worker);
  }

  lemma SnapshotKeys(docs: Docs, txs: seq<StoredTx>)
    requires forall t | t in txs :: Holds(docs, t)
    ensures forall t | t in txs :: t.Key() in docs
  {
  }

  // ---------- a target is re-sent ----------

  function NextRecord(w: Worker, resends: map<NonceSigner, Resends>, b: NonceSigner): Resends
    requires w.Boosting?
  {
    if b in resends then ResentAgain(w, resends[b]) else Resends(1, w.newGasPrice, w.newGasPrice, 0, {})
  }

  /** What is known of every target still to come. */
  lemma TargetFacts(cfg: Config, s: State, j: nat)
    requires Coherent(s) && Priced(cfg, s) && s.worker.Boosting? && s.worker.i <= j < |s.worker.txs|
    ensures var w, tx := s.worker, s.worker.txs[j];
      && w.snapshot != [] && w.newGasPrice == cfg.prices.NewGasPrice(w.snapshot[0].gasPrice)
      && Holds(s.docs, tx) && 0.0 <= tx.gasPrice < w.newGasPrice && tx.From() == w.signer
      && (tx.Key() in s.resends ==>
            && tx.gasPrice == s.resends[tx.Key()].last && Geometric(cfg.prices, s.resends[tx.Key()])
            && (Undercut(w, s.resends[tx.Key()]) ==> w.snapshot[0].nonce !in s.resends[tx.Key()].undercutBy))
  {
    hide Geometric, Filter, Charged, CheaperAreNew, Linear, LateAreNew, CheapWaitOrLate;
    assert Holds(s.docs, s.worker.txs[j]);
  }

  lemma ResentAgainIsGeometric(prices: PriceConfig, w: Worker, r: Resends)
    requires Sensible(prices) && Geometric(prices, r) && w.Boosting? && w.snapshot != []
    requires w.newGasPrice == prices.NewGasPrice(w.snapshot[0].gasPrice) && r.last < w.newGasPrice
    requires Undercut(w, r) ==> w.snapshot[0].nonce !in r.undercutBy
    ensures Geometric(prices, ResentAgain(w, r))
  {
    if Undercut(w, r) {
      UndercutResend(prices, r, w.newGasPrice, w.snapshot[0].nonce);
    } else {
      GeometricResend(prices, r, w.snapshot[0].gasPrice);
    }
  }

  lemma RecordStaysGeometric(cfg: Config, s: State)
    requires Sensible(cfg.prices) && Coherent(s) && Priced(cfg, s) && s.worker.Boosting? && s.worker.i < |s.worker.txs|
    ensures Geometric(cfg.prices, NextRecord(s.worker, s.resends, s.worker.txs[s.worker.i].Key()))
  {
    var w, b := s.worker, s.worker.txs[s.worker.i].Key();
    TargetFacts(cfg, s, w.i);
    hide Geometric, Priced, Coherent, PriceConfig.Scaled, Holds, ResentAgain, Undercut;
    if b in s.resends {
      ResentAgainIsGeometric(cfg.prices, w, s.resends[b]);
    } else {
      FirstResend(cfg.prices, w.newGasPrice);
    }
  }

  /** At or below the next target, only what came late is cheaper than the new price. */
  lemma CheapBelowTargetIsLate(docs: Docs, w: Worker, k: NonceSigner)
    requires w.Boosting? && w.i < |w.txs| && LoopCoherent(docs, w) && CheapWaitOrLate(docs, w)
    requires k in docs && k.signer == w.signer && k != w.txs[w.i].Key()
    requires k.nonce <= w.txs[w.i].nonce && docs[k].gasPrice < w.newGasPrice
    ensures Late(w.signer, w.snapshot, k)
  {
    assert w.txs[w.i].From() == w.signer;
    assert forall j | w.i < j < |w.txs| :: w.txs[w.i].nonce <= w.txs[j].nonce && w.txs[j].From() == w.signer;
  }

  lemma ResentIsCharged(docs: Docs, w: Worker, resends: map<NonceSigner, Resends>, signings: seq<Signing>,
      runStart: nat, entry: StoredTx)
    requires w.Boosting? && w.i < |w.txs| && LoopCoherent(docs, w) && WellIndexed(docs)
    requires w.snapshot != [] && CheapWaitOrLate(docs, w) && LateAreNew(docs, w, resends, signings, runStart)
    requires UndercutOnce(w, resends, signings, runStart) && Charged(docs, resends, signings, runStart)
    requires PricesKept(docs, resends)
    requires w.snapshot[0].From() == w.signer && entry.gasPrice == w.newGasPrice
    ensures var b := w.txs[w.i].Key();
      Charged(docs[b := entry], resends[b := NextRecord(w, resends, b)], signings, runStart)
  {
    var tx, b := w.txs[w.i], w.txs[w.i].Key();
    var r := NextRecord(w, resends, b);
    assert Holds(docs, tx) && tx.From() == w.signer && tx.gasPrice < w.newGasPrice;
    forall k | k in docs && k != b && k.signer == b.signer && k.nonce in r.undercutBy
      ensures docs[k].gasPrice >= r.last
    {
      if docs[k].gasPrice < w.newGasPrice {
        CheapBelowTargetIsLate(docs, w, k);
      }
    }
  }

  lemma ResentIsRecorded(prices: PriceConfig, docs: Docs, w: Worker, resends: map<NonceSigner, Resends>,
      signings: seq<Signing>, runStart: nat, entry: StoredTx)
    requires w.Boosting? && w.i < |w.txs| && LoopCoherent(docs, w) && WellIndexed(docs)
    requires Recorded(docs, resends, signings, runStart) && LoopKnown(prices, docs, w, resends, signings, runStart)
    requires entry.gasPrice == w.newGasPrice
    ensures var b := w.txs[w.i].Key();
      Recorded(docs[b := entry], resends[b := NextRecord(w, resends, b)], signings, runStart)
  {
    var tx, b := w.txs[w.i], w.txs[w.i].Key();
    ResentIsCharged(docs, w, resends, signings, runStart, entry);
    assert Holds(docs, tx) && tx.From() == w.signer && tx.gasPrice < w.newGasPrice;
    SentGrows(signings, signings, w.since, runStart);
    forall k | k in docs && k != b && k.signer == b.signer && k.nonce <= b.nonce && docs[k].gasPrice < w.newGasPrice
      ensures SentSince(signings, runStart, k)
    {
      CheapBelowTargetIsLate(docs, w, k);
      assert SentSince(signings, w.since, k);
    }
  }

  lemma ResentInLoop(prices: PriceConfig, docs: Docs, w: Worker, resends: map<NonceSigner, Resends>,
      signings: seq<Signing>, runStart: nat, entry: StoredTx)
    requires w.Boosting? && w.i < |w.txs| && LoopCoherent(docs, w)
    requires LoopKnown(prices, docs, w, resends, signings, runStart) && entry.gasPrice == w.newGasPrice
    ensures var b := w.txs[w.i].Key();
      LoopKnown(prices, docs[b := entry], NextTarget(w), resends[b := NextRecord(w, resends, b)], signings, runStart)
  {
    hide CheapWaitOrLate, LateAreNew, UndercutOnce, WellIndexed, NextRecord, Filter, PriceConfig.NewGasPrice;
    ResentWaits(docs, w, entry);
    ResentLate(prices, docs, w, resends, signings, runStart, entry);
    ResentOnce(w, resends, signings, runStart);
  }

  lemma ResentLate(prices: PriceConfig, docs: Docs, w: Worker, resends: map<NonceSigner, Resends>,
      signings: seq<Signing>, runStart: nat, entry: StoredTx)
    requires w.Boosting? && w.i < |w.txs| && w.txs[w.i].Key() in docs && SnapshotKept(prices, docs, w)
    requires LateAreNew(docs, w, resends, signings, runStart)
    ensures var b := w.txs[w.i].Key();
      LateAreNew(docs[b := entry], NextTarget(w), resends[b := NextRecord(w, resends, b)], signings, runStart)
  {
    TargetFound(w.snapshot, w.newGasPrice, w.txs[w.i]);
    forall k | k in docs && Late(w.signer, w.snapshot, k) ensures k.nonce != w.snapshot[0].nonce {
      assert w.snapshot[0].Key() != k && w.snapshot[0].From() == w.signer;
    }
  }

  lemma ResentOnce(w: Worker, resends: map<NonceSigner, Resends>, signings: seq<Signing>, runStart: nat)
    requires w.Boosting? && w.i < |w.txs| && w.snapshot != [] && NonceAscending(w.txs)
    requires UndercutOnce(w, resends, signings, runStart)
    ensures var b := w.txs[w.i].Key();
      UndercutOnce(NextTarget(w), resends[b := NextRecord(w, resends, b)], signings, runStart)
  {
    assert forall j | w.i < j < |w.txs| :: w.txs[w.i].Key() != w.txs[j].Key();
  }

  lemma ResentWaits(docs: Docs, w: Worker, entry: StoredTx)
    requires w.Boosting? && w.i < |w.txs| && CheapWaitOrLate(docs, w) && entry.gasPrice == w.newGasPrice
    ensures CheapWaitOrLate(docs[w.txs[w.i].Key() := entry], NextTarget(w))
  {
    forall k | k in docs && k != w.txs[w.i].Key() && k.signer == w.signer && docs[k].gasPrice < w.newGasPrice
      ensures Waiting(w.txs, w.i + 1, k) || Late(w.signer, w.snapshot, k)
    {
      assert Waiting(w.txs, w.i, k) || Late(w.signer, w.snapshot, k);
    }
  }

  lemma TargetFound(snapshot: seq<StoredTx>, newGasPrice: real, tx: StoredTx)
    requires tx in Filter(snapshot, Below(newGasPrice))
    ensures tx in snapshot
  {
    FilterMembers(snapshot, Below(newGasPrice));
  }

  lemma SigningsGrow(prices: PriceConfig, docs: Docs, w: Worker, resends: map<NonceSigner, Resends>,
      signings: seq<Signing>, after: seq<Signing>, runStart: nat)
    requires signings <= after
    requires Recorded(docs, resends, signings, runStart) && LoopKnown(prices, docs, w, resends, signings, runStart)
    ensures Recorded(docs, resends, after, runStart) && LoopKnown(prices, docs, w, resends, after, runStart)
  {
    SentGrows(signings, after, runStart, runStart);
    if w.Boosting? { SentGrows(signings, after, w.since, w.since); }
  }

  lemma BoostNextRecorded(cfg: Config, s: State)
    requires Coherent(s) && Priced(cfg, s) && s.worker.Boosting? && s.worker.i < |s.worker.txs|
    ensures var next := AfterBoostNext(s);
      && Recorded(next.docs, next.resends, next.signings, s.runStart)
      && LoopKnown(cfg.prices, next.docs, next.worker, next.resends, next.signings, s.runStart)
  {
    var w, tx, next := s.worker, s.worker.txs[s.worker.i], AfterBoostNext(s);
    var entry := WithAttempt(tx, w.newGasPrice, w.currentBlock);
    BoostNextChanges(s);
    hide Geometric, Recorded, LoopKnown, LoopCoherent, WellIndexed, Linear, NextRecord, NextTarget, AfterBoostNext,
      WithAttempt, NonNegative;
    ResentIsRecorded(cfg.prices, s.docs, w, s.resends, s.signings, s.runStart, entry);
    ResentInLoop(cfg.prices, s.docs, w, s.resends, s.signings, s.runStart, entry);
    SigningsGrow(cfg.prices, next.docs, next.worker, next.resends, s.signings, next.signings, s.runStart);
  }

  lemma BoostNextPriced(cfg: Config, s: State)
    requires Sensible(cfg.prices) && Coherent(s) && Priced(cfg, s) && s.worker.Boosting? && s.worker.i < |s.worker.txs|
    ensures Priced(cfg, AfterBoostNext(s))
  {
    BoostNextRecorded(cfg, s);
    BoostNextChanges(s);
    BoostNextLinear(s);
    RecordStaysGeometric(cfg, s);
    TargetFacts(cfg, s, s.worker.i);
    hide Geometric, Recorded, LoopKnown, Coherent, Linear, NextRecord, NextTarget, AfterBoostNext, WithAttempt,
      Undercut, Holds, PriceConfig.NewGasPrice, PriceConfig.Scaled;
  }

  lemma BoostNextLinear(s: State)
    requires Linear(s) && s.worker.Boosting? && s.worker.i < |s.worker.txs|
    ensures Linear(AfterBoostNext(s))
  {
    hide Linear;
    StaysLinear(s, AfterBoostNext(s));
  }

  lemma BoostNextChanges(s: State)
    requires Coherent(s) && s.worker.Boosting? && s.worker.i < |s.worker.txs|
    ensures var w, tx, next := s.worker, s.worker.txs[s.worker.i], AfterBoostNext(s);
      var entry := WithAttempt(tx, w.newGasPrice, w.currentBlock);
      && next.docs == s.docs[tx.Key() := entry] && entry.gasPrice == w.newGasPrice
      && next.resends == s.resends[tx.Key() := NextRecord(w, s.resends, tx.Key())]
      && next.worker == NextTarget(w) && next.runStart == s.runStart && next.mutex == s.mutex
      && s.signings <= next.signings
  {
    BoostNextCoherent(s);
  }

  // ---------- every run ----------

  lemma InitPriced(cfg: Config)
    ensures Priced(cfg, Init(cfg))
  {
  }

  /** Steps that neither sign, nor store, nor begin a loop. */
  lemma QuietPriced(cfg: Config, s: State, next: State)
    requires Priced(cfg, s) && Linear(next) && next.docs == s.docs && next.resends == s.resends
    requires next.signings == s.signings && next.runStart == s.runStart
    requires next.worker == s.worker || !next.worker.Boosting?
    requires next.mutex.Held? ==> next.mutex.gasPrice >= 0.0
    ensures Priced(cfg, next)
  {
    hide Geometric, Recorded, LoopKnown, Linear;
    if next.worker != s.worker { NoLoop(cfg.prices, next); }
  }

  lemma RestartPriced(cfg: Config, s: State)
    requires Coherent(s) && Priced(cfg, s)
    ensures Priced(cfg, Apply(cfg, s, Restart))
  {
    StepLinear(cfg, s, Restart);
    hide Linear, Geometric, Coherent;
  }

  lemma StepPriced(cfg: Config, s: State, step: Step)
    requires Sensible(cfg.prices) && Coherent(s) && Priced(cfg, s) && Enabled(cfg, s, step)
    ensures Priced(cfg, Apply(cfg, s, step))
  {
    StepLinear(cfg, s, step);
    assert s.mutex.Held? ==> s.mutex.gasPrice >= 0.0;
    hide Priced, Coherent, AfterCommit, AfterSweepNext, AfterBoostNext, Linear, IsListing;
    match step
    case Commit => CommitPriced(cfg, s);
    case SweepNext(receipt) => SweepNextPriced(cfg, s, receipt);
    case BeginBoost(signer, txs, accountNonce, currentBlock) => BeginBoostPriced(cfg, s, step);
    case BoostNext => BoostNextPriced(cfg, s);
    case Restart => RestartPriced(cfg, s);
    case _ => QuietPriced(cfg, s, Apply(cfg, s, step));
  }

  lemma {:induction false} RunPriced(cfg: Config, s: State, steps: seq<Step>)
    requires Sensible(cfg.prices) && Coherent(s) && Priced(cfg, s) && Runs(cfg, s, steps)
    ensures Priced(cfg, After(cfg, s, steps))
    decreases |steps|
  {
    hide Priced, Apply, Enabled, WellIndexed, LoopCoherent;
    if steps != [] {
      StepCoherent(cfg, s, steps[0]);
      StepPriced(cfg, s, steps[0]);
      RunPriced(cfg, Apply(cfg, s, steps[0]), steps[1..]);
    }
  }

  lemma ReachablePriced(cfg: Config, s: State)
    requires Sensible(cfg.prices) && Reachable(cfg, s)
    ensures Coherent(s) && Priced(cfg, s)
  {
    hide Priced, Enabled, Apply;
    var steps :| Runs(cfg, Init(cfg), steps) && After(cfg, Init(cfg), steps) == s;
    InitPriced(cfg);
    RunPriced(cfg, Init(cfg), steps);
  }

  // ---------- when a boost makes progress ----------

  /** A re-send of target `j` puts it at the factor times its previous re-send, or at the cap. */
  predicate Progress(prices: PriceConfig, s: State, j: nat)
    requires s.worker.Boosting? && j < |s.worker.txs|
  {
    var b := s.worker.txs[j].Key();
    b in s.resends ==>
      s.worker.newGasPrice >= MinReal(prices.maxGasPrice, prices.Scaled(s.resends[b].last))
  }

  /**
   In every reachable state of a boost, for every target still to be re-sent, the first time or again: the re-send
   raises its price, within the cap; and by the factor over its previous re-send, or to the cap, exactly if the oldest
   entry is at least that expensive or its own price times the factor reaches the cap.
   */
  lemma ResendProgress(cfg: Config, s: State, j: nat)
    requires Sensible(cfg.prices) && Reachable(cfg, s) && s.worker.Boosting? && s.worker.i <= j < |s.worker.txs|
    ensures var w, tx := s.worker, s.worker.txs[j];
      && w.snapshot != [] && Holds(s.docs, tx) && tx.gasPrice < w.newGasPrice <= cfg.prices.maxGasPrice
      && (tx.Key() in s.resends ==> tx.gasPrice == s.resends[tx.Key()].last)
      && (Progress(cfg.prices, s, j) <==>
            (tx.Key() in s.resends ==>
               w.snapshot[0].gasPrice >= s.resends[tx.Key()].last
               || cfg.prices.Scaled(w.snapshot[0].gasPrice) >= cfg.prices.maxGasPrice))
  {
    ReachablePriced(cfg, s);
    TargetFacts(cfg, s, j);
    hide Priced, Coherent, PriceConfig.NewGasPrice, PriceConfig.Scaled, Reachable, Geometric, Holds;
    var tx := s.worker.txs[j];
    if tx.Key() in s.resends {
      ReachesFactorIff(cfg.prices, s.worker.snapshot[0].gasPrice, s.resends[tx.Key()].last);
    }
  }

  // ---------- re-sends come to an end ----------

  lemma {:induction false} AtMost(ns: set<nat>, bound: nat)
    requires forall n | n in ns :: n < bound
    ensures |ns| <= bound
    decreases bound
  {
    if bound == 0 {
      assert ns == {};
    } else {
      AtMost(ns - {bound - 1}, bound - 1);
      assert |ns| <= |ns - {bound - 1}| + 1 by {
        if bound - 1 !in ns { assert ns - {bound - 1} == ns; }
      }
    }
  }

  /**
   In every reachable state: the re-sends of an entry that fell short of the factor are charged to different nonces
   below it, each sent in this run of the process, so that there are at most as many as its own nonce.
   */
  lemma UndercutsAreSends(cfg: Config, s: State, b: NonceSigner)
    requires Sensible(cfg.prices) && Reachable(cfg, s) && b in s.resends
    ensures var r := s.resends[b];
      && r.undercuts == |r.undercutBy| <= b.nonce
      && forall n | n in r.undercutBy :: n < b.nonce && SentSince(s.signings, s.runStart, NonceSigner(n, b.signer))
  {
    ReachablePriced(cfg, s);
    AtMost(s.resends[b].undercutBy, b.nonce);
  }

  /**
   So in every run an entry is re-sent a bounded number of times: its nonce many times undercut, and otherwise as long
   as the gain of the first raise, repeated, stays below the cap.
   */
  lemma ResentFinitelyOften(cfg: Config, s: State, b: NonceSigner)
    requires Sensible(cfg.prices) && Reachable(cfg, s) && b in s.resends
    ensures var r := s.resends[b];
      && r.first > 0.0
      && (r.count >= b.nonce + 2 ==>
            (r.count - b.nonce - 2) as real * ((cfg.prices.retryGasPriceFactor - 1.0) * r.first)
              < cfg.prices.maxGasPrice - r.first)
  {
    hide Priced, Coherent, Raised, Reachable;
    ReachablePriced(cfg, s);
    UndercutsAreSends(cfg, s, b);
    PricedIsGeometric(cfg, s, b);
    var r := s.resends[b];
    if r.count >= b.nonce + 2 {
      RaisesAreBounded(cfg.prices, r.first, r.count - r.undercuts - 2, r.count - b.nonce - 2);
    }
  }

  lemma PricedIsGeometric(cfg: Config, s: State, b: NonceSigner)
    requires Priced(cfg, s) && b in s.resends
    ensures Geometric(cfg.prices, s.resends[b])
  {
  }
}
