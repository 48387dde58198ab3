/** Runs whose sends are in nonce order, as all are before a restart: there every boost makes progress. */
module Ordered {
  import opened Prelude
  import opened Events
  import opened Sorting
  import opened TxStore
  import opened Sweep
  import opened Boosting
  import opened TransactionManagers
  import opened Pipeline
  import opened Raising
  import opened Pricing

  /** A send that is stored gets a nonce above those its signer already has in the store. */
  ghost predicate InOrder(s: State, step: Step) {
    step.Commit? && s.mutex.Held? && Polled(s) !in s.docs ==>
      forall k | k in s.docs && k.signer == s.mutex.details.signer :: k.nonce < s.mutex.nonce
  }

  /** No entry with a lower nonce is cheaper than a re-sent one, and nothing was ever undercut. */
  ghost predicate Leveled(docs: Docs, resends: map<NonceSigner, Resends>) {
    && (forall b, k | b in resends && k in docs && k.signer == b.signer && k.nonce <= b.nonce ::
      docs[k].gasPrice >= resends[b].last)
    && (forall b | b in resends :: resends[b].undercuts == 0)
  }

  ghost predicate LateAbove(docs: Docs, w: Worker) {
    w.Boosting? ==>
      forall k, t | k in docs && Late(w.signer, w.snapshot, k) && t in w.snapshot :: t.nonce < k.nonce
  }

  ghost predicate OldestAbove(w: Worker, resends: map<NonceSigner, Resends>) {
    w.Boosting? ==>
      forall j | w.i <= j < |w.txs| && w.txs[j].Key() in resends :: !Undercut(w, resends[w.txs[j].Key()])
  }

  ghost predicate Level(s: State) {
    Leveled(s.docs, s.resends) && LateAbove(s.docs, s.worker) && OldestAbove(s.worker, s.resends)
  }

  lemma NewEntryLevel(docs: Docs, w: Worker, resends: map<NonceSigner, Resends>, k: NonceSigner, entry: StoredTx)
    requires Leveled(docs, resends) && LateAbove(docs, w) && k !in docs && resends.Keys <= docs.Keys
    requires forall j | j in docs && j.signer == k.signer :: j.nonce < k.nonce
    requires w.Boosting? ==> forall t | t in w.snapshot :: t.From() == w.signer && t.Key() in docs
    ensures Leveled(docs[k := entry], resends) && LateAbove(docs[k := entry], w)
  {
    if w.Boosting? && w.signer == k.signer {
      forall t | t in w.snapshot ensures t.nonce < k.nonce {
        assert t.Key() in docs;
      }
    }
  }

  lemma CommitLevel(cfg: Config, s: State)
    requires Coherent(s) && Priced(cfg, s) && Level(s) && s.mutex.Held? && InOrder(s, Commit)
    ensures Level(AfterCommit(s))
  {
    hide Priced, LoopCoherent, WellIndexed, Leveled, LateAbove, OldestAbove, PutTx;
    CommitCoherent(s);
    RecordsInStore(cfg, s);
    var k, next := NonceSigner(s.mutex.nonce, s.mutex.details.signer), AfterCommit(s);
    if s.worker.Boosting? { SnapshotInStore(cfg, s); }
    if k !in s.docs {
      NewEntryLevel(s.docs, s.worker, s.resends, k, NewEntry(s.mutex.details, s.mutex.gasPrice, s.mutex.nonce));
    }
    if !next.worker.Boosting? { NotBoosting(next.docs, next.worker, next.resends); }
  }

  lemma NotBoosting(docs: Docs, w: Worker, resends: map<NonceSigner, Resends>)
    requires !w.Boosting?
    ensures LateAbove(docs, w) && OldestAbove(w, resends)
  {
  }

  lemma RecordsInStore(cfg: Config, s: State)
    requires Priced(cfg, s)
    ensures s.resends.Keys <= s.docs.Keys
  {
  }

  lemma SnapshotInStore(cfg: Config, s: State)
    requires Priced(cfg, s) && s.worker.Boosting?
    ensures forall t | t in s.worker.snapshot :: t.From() == s.worker.signer && t.Key() in s.docs
    ensures forall tx | tx in s.worker.txs :: tx in s.worker.snapshot
  {
    FilterMembers(s.worker.snapshot, Below(s.worker.newGasPrice));
  }

  lemma SweepNextLevel(cfg: Config, s: State, receipt: Receipt)
    requires Coherent(s) && Level(s) && s.worker.Sweeping? && s.worker.i < |s.worker.txs|
    ensures Level(AfterSweepNext(cfg, s, receipt))
  {
    SweepNextKeepsPrices(cfg, s, receipt);
    hide AfterSweepNext, Coherent;
  }

  lemma BeginBoostLevel(cfg: Config, s: State, step: Step)
    requires Coherent(s) && Level(s) && step.BeginBoost? && Enabled(cfg, s, step)
    ensures Level(Apply(cfg, s, step))
  {
    var signer, txs := step.signer, step.txs;
    BeginBoostLateAbove(s.docs, signer, txs, cfg.prices.NewGasPrice(txs[0].gasPrice));
    BeginBoostOldestAbove(s.docs, s.resends, signer, txs);
    FilterMembers(txs, Below(cfg.prices.NewGasPrice(txs[0].gasPrice)));
    hide IsListing, PriceConfig.NewGasPrice, LoopCoherent, Leveled, Late, WellIndexed;
  }

  lemma BeginBoostLateAbove(docs: Docs, signer: Address, txs: seq<StoredTx>, newGasPrice: real)
    requires WellIndexed(docs) && IsListing(docs, Some(signer), txs)
    ensures forall k | k in docs :: !Late(signer, txs, k)
  {
    forall k | k in docs && k.signer == signer ensures !Late(signer, txs, k) {
      TargetsComplete(docs, signer, txs, newGasPrice, k);
    }
  }

  lemma BeginBoostOldestAbove(docs: Docs, resends: map<NonceSigner, Resends>, signer: Address, txs: seq<StoredTx>)
    requires WellIndexed(docs) && IsListing(docs, Some(signer), txs) && txs != [] && Leveled(docs, resends)
    ensures forall t | t in txs && t.Key() in resends :: txs[0].gasPrice >= resends[t.Key()].last
  {
    ListingOfSigner(docs, signer, txs);
    assert IsOldest(docs, signer, txs[0]) && Holds(docs, txs[0]);
  }

  lemma ResentLeveled(docs: Docs, w: Worker, resends: map<NonceSigner, Resends>, entry: StoredTx)
    requires w.Boosting? && w.i < |w.txs| && LoopCoherent(docs, w) && CheapWaitOrLate(docs, w)
    requires Leveled(docs, resends) && LateAbove(docs, w) && OldestAbove(w, resends)
    requires w.txs[w.i] in w.snapshot && w.txs[w.i].From() == w.signer && entry.gasPrice == w.newGasPrice
    ensures var b := w.txs[w.i].Key(); Leveled(docs[b := entry], resends[b := NextRecord(w, resends, b)])
  {
    var tx, b := w.txs[w.i], w.txs[w.i].Key();
    assert Holds(docs, tx) && tx.gasPrice < w.newGasPrice;
    forall k | k in docs && k != b && k.signer == b.signer && k.nonce <= b.nonce
      ensures docs[k].gasPrice >= w.newGasPrice
    {
      if docs[k].gasPrice < w.newGasPrice {
        CheapBelowTargetIsLate(docs, w, k);
      }
    }
  }

  lemma ResentOldestAbove(docs: Docs, w: Worker, resends: map<NonceSigner, Resends>, entry: StoredTx)
    requires w.Boosting? && w.i < |w.txs| && NonceAscending(w.txs) && w.txs[w.i].Key() in docs
    requires LateAbove(docs, w) && OldestAbove(w, resends)
    ensures var b := w.txs[w.i].Key();
      LateAbove(docs[b := entry], NextTarget(w)) && OldestAbove(NextTarget(w), resends[b := NextRecord(w, resends, b)])
  {
    assert forall j | w.i < j < |w.txs| :: w.txs[w.i].Key() != w.txs[j].Key();
  }

  lemma BoostNextLevel(cfg: Config, s: State)
    requires Coherent(s) && Priced(cfg, s) && Level(s) && s.worker.Boosting? && s.worker.i < |s.worker.txs|
    ensures Level(AfterBoostNext(s))
  {
    var w, tx := s.worker, s.worker.txs[s.worker.i];
    var entry := WithAttempt(tx, w.newGasPrice, w.currentBlock);
    TargetFacts(cfg, s, w.i);
    BoostNextChanges(s);
    SnapshotInStore(cfg, s);
    PricedWaits(cfg, s);
    hide AfterBoostNext, Priced, Geometric, WithAttempt, Late, NextRecord, NextTarget, Leveled, LateAbove, OldestAbove,
      CheapWaitOrLate, WellIndexed, Undercut, PriceConfig.NewGasPrice;
    ResentLeveled(s.docs, w, s.resends, entry);
    ResentOldestAbove(s.docs, w, s.resends, entry);
  }

  lemma PricedWaits(cfg: Config, s: State)
    requires Priced(cfg, s) && s.worker.Boosting?
    ensures CheapWaitOrLate(s.docs, s.worker)
  {
  }

  lemma StepLevel(cfg: Config, s: State, step: Step)
    requires Coherent(s) && Priced(cfg, s) && Level(s) && Enabled(cfg, s, step) && InOrder(s, step)
    ensures Level(Apply(cfg, s, step))
  {
    hide Priced, Coherent, AfterCommit, AfterSweepNext, AfterBoostNext, IsListing, Leveled, Late;
    match step
    case Commit => CommitLevel(cfg, s);
    case SweepNext(receipt) => SweepNextLevel(cfg, s, receipt);
    case BeginBoost(signer, txs, accountNonce, currentBlock) => BeginBoostLevel(cfg, s, step);
    case BoostNext => BoostNextLevel(cfg, s);
    case Restart => RestartLevel(cfg, s);
    case _ =>
  }

  lemma RestartLevel(cfg: Config, s: State)
    requires Coherent(s)
    ensures Level(Apply(cfg, s, Restart))
  {
  }

  lemma {:induction false} RunLevel(cfg: Config, s: State, steps: seq<Step>)
    requires Sensible(cfg.prices) && Coherent(s) && Priced(cfg, s) && Level(s)
    requires Runs(cfg, s, steps) && Always(cfg, s, steps, InOrder)
    ensures Priced(cfg, After(cfg, s, steps)) && Level(After(cfg, s, steps))
    decreases |steps|
  {
    hide Priced, Level, Apply, Enabled, InOrder;
    if steps != [] {
      StepCoherent(cfg, s, steps[0]);
      StepPriced(cfg, s, steps[0]);
      StepLevel(cfg, s, steps[0]);
      RunLevel(cfg, Apply(cfg, s, steps[0]), steps[1..]);
    }
  }

  /** A run of the relay from its first start whose sends are in nonce order. */
  ghost predicate OrderedRun(cfg: Config, steps: seq<Step>) {
    Runs(cfg, Init(cfg), steps) && Always(cfg, Init(cfg), steps, InOrder)
  }

  /** In such a run every re-send makes progress, and nothing is undercut. */
  lemma OrderedProgress(cfg: Config, steps: seq<Step>)
    requires Sensible(cfg.prices) && OrderedRun(cfg, steps)
    ensures var s := After(cfg, Init(cfg), steps);
      && (forall b | b in s.resends :: s.resends[b].undercuts == 0)
      && (s.worker.Boosting? ==> forall j | s.worker.i <= j < |s.worker.txs| :: Progress(cfg.prices, s, j))
  {
    hide Priced, Apply, Enabled, Leveled, LateAbove;
    InitPriced(cfg);
    InitLevel(cfg);
    RunLevel(cfg, Init(cfg), steps);
    var s := After(cfg, Init(cfg), steps);
    NothingUndercut(s);
    if s.worker.Boosting? {
      forall j | s.worker.i <= j < |s.worker.txs| ensures Progress(cfg.prices, s, j) {
        NotUndercutProgresses(cfg, s, j);
      }
    }
  }

  lemma InitLevel(cfg: Config)
    ensures Level(Init(cfg))
  {
  }

  lemma NothingUndercut(s: State)
    requires Level(s)
    ensures forall b | b in s.resends :: s.resends[b].undercuts == 0
  {
  }

  lemma NotUndercutProgresses(cfg: Config, s: State, j: nat)
    requires Sensible(cfg.prices) && Coherent(s) && Priced(cfg, s) && OldestAbove(s.worker, s.resends)
    requires s.worker.Boosting? && s.worker.i <= j < |s.worker.txs|
    ensures Progress(cfg.prices, s, j)
  {
    TargetFacts(cfg, s, j);
    hide Priced, Coherent, PriceConfig.NewGasPrice, PriceConfig.Scaled, Geometric;
    if s.worker.txs[j].Key() in s.resends {
      assert !Undercut(s.worker, s.resends[s.worker.txs[j].Key()]);
      ReachesFactorIff(cfg.prices, s.worker.snapshot[0].gasPrice, s.resends[s.worker.txs[j].Key()].last);
    }
  }

  // ---------- until a restart ----------

  /** Until a restart that follows a send, the counter of every signer is above all it has in the store. */
  ghost predicate CounterOnTop(s: State) {
    && s.runStart <= |s.signings|
    && (s.signings == [] ==> s.docs == map[])
    && (s.runStart == 0 ==> forall k | k in s.docs :: k.signer in s.nonces && k.nonce < s.nonces[k.signer])
  }

  lemma CommitOnTop(s: State)
    requires Coherent(s) && CounterOnTop(s) && s.mutex.Held?
    ensures CounterOnTop(AfterCommit(s))
  {
    hide LoopCoherent;
    CommitCoherent(s);
  }

  lemma FewerOnTop(s: State, next: State)
    requires CounterOnTop(s) && next.runStart == s.runStart && next.docs.Keys <= s.docs.Keys
      && s.signings <= next.signings
    requires forall a | a in s.nonces :: a in next.nonces && s.nonces[a] <= next.nonces[a]
    ensures CounterOnTop(next)
  {
    assert s.docs == map[] ==> next.docs.Keys == {};
  }

  lemma SweepNextOnTop(cfg: Config, s: State, receipt: Receipt)
    requires Coherent(s) && CounterOnTop(s) && s.worker.Sweeping? && s.worker.i < |s.worker.txs|
    ensures CounterOnTop(AfterSweepNext(cfg, s, receipt))
  {
    SweepNextKeepsPrices(cfg, s, receipt);
    hide Coherent, CounterOnTop;
    FewerOnTop(s, AfterSweepNext(cfg, s, receipt));
  }

  lemma BoostNextOnTop(s: State)
    requires Coherent(s) && CounterOnTop(s) && s.worker.Boosting? && s.worker.i < |s.worker.txs|
    ensures CounterOnTop(AfterBoostNext(s))
  {
    BoostNextCoherent(s);
    assert Holds(s.docs, s.worker.txs[s.worker.i]);
    hide Coherent, CounterOnTop;
    FewerOnTop(s, AfterBoostNext(s));
  }

  lemma StepOnTop(cfg: Config, s: State, step: Step)
    requires Coherent(s) && CounterOnTop(s) && Enabled(cfg, s, step)
    ensures CounterOnTop(Apply(cfg, s, step))
  {
    hide LoopCoherent, AfterCommit, AfterSweepNext, AfterBoostNext, WellIndexed;
    match step
    case Commit => CommitOnTop(s);
    case SweepNext(receipt) => SweepNextOnTop(cfg, s, receipt);
    case BoostNext => BoostNextOnTop(s);
    case _ =>
  }

  lemma StepKeepsStart(cfg: Config, s: State, step: Step)
    requires Coherent(s) && CounterOnTop(s) && Enabled(cfg, s, step)
    ensures s.runStart <= Apply(cfg, s, step).runStart
  {
    hide LoopCoherent, WellIndexed, PutTx, ResendOne, SweepOne;
  }

  lemma OnTopIsInOrder(s: State, step: Step)
    requires Coherent(s) && CounterOnTop(s) && s.runStart == 0
    ensures InOrder(s, step)
  {
  }

  lemma {:induction false} UnrestartedInOrder(cfg: Config, s: State, steps: seq<Step>)
    requires Coherent(s) && CounterOnTop(s) && Runs(cfg, s, steps)
    ensures s.runStart <= After(cfg, s, steps).runStart
    ensures After(cfg, s, steps).runStart == 0 ==> Always(cfg, s, steps, InOrder)
    decreases |steps|
  {
    hide CounterOnTop, Apply, Enabled, InOrder;
    if steps != [] {
      StepCoherent(cfg, s, steps[0]);
      StepOnTop(cfg, s, steps[0]);
      StepKeepsStart(cfg, s, steps[0]);
      UnrestartedInOrder(cfg, Apply(cfg, s, steps[0]), steps[1..]);
      if s.runStart == 0 { OnTopIsInOrder(s, steps[0]); }
    }
  }

  /** Until the process has been restarted after a send, sends are in nonce order, so every re-send makes progress. */
  lemma ProgressUntilRestart(cfg: Config, steps: seq<Step>)
    requires Sensible(cfg.prices) && Runs(cfg, Init(cfg), steps) && After(cfg, Init(cfg), steps).runStart == 0
    ensures OrderedRun(cfg, steps)
    ensures var s := After(cfg, Init(cfg), steps);
      && (forall b | b in s.resends :: s.resends[b].undercuts == 0)
      && (s.worker.Boosting? ==> forall j | s.worker.i <= j < |s.worker.txs| :: Progress(cfg.prices, s, j))
  {
    hide Enabled, Apply;
    UnrestartedInOrder(cfg, Init(cfg), steps);
    OrderedProgress(cfg, steps);
  }
}
