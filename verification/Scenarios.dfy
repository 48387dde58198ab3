/** Pieces of runs on the relay's own keys, in which no poll is overtaken, to build reachable states from. */
module Scenarios {
  import opened Prelude
  import opened Sorting
  import opened TxStore
  import opened Sweep
  import opened Boosting
  import opened TransactionManagers
  import opened Pipeline
  import opened Equivocation
  import opened OwnKeys

  ghost predicate Undisturbed(s: State, step: Step) {
    Own(s, step) && NotOvertaken(s, step)
  }

  /** A reachable state in which the chain has confirmed nothing yet. */
  ghost predicate Early(cfg: Config, s: State) {
    && Coherent(s) && ReachableBy(cfg, s, Undisturbed) && s.confirmed == map[]
    && cfg.worker in s.nonces && s.resends.Keys <= s.docs.Keys
  }

  /** After so many blocks an entry is due for a boost. */
  function Patience(cfg: Config): nat {
    Max(0, cfg.pendingTransactionTimeoutBlocks)
  }

  function Send(cfg: Config, price: real, block: nat): SendDetails {
    SendDetails(cfg.worker, RelayCall, 0, 0, 0, Some(price), [], block)
  }

  function Entry(cfg: Config, price: real, nonce: nat, block: nat): StoredTx {
    NewEntry(Send(cfg, price, block), price, nonce)
  }

  lemma Filter1(tx: StoredTx, price: real)
    ensures Filter([tx], Below(price)) == if tx.gasPrice < price then [tx] else []
  {
    assert [tx][..0] == [];
  }

  lemma Filter2(a: StoredTx, b: StoredTx, price: real)
    requires a.gasPrice < price && b.gasPrice < price
    ensures Filter([a, b], Below(price)) == [a, b]
  {
    Filter1(a, price);
    assert [a, b][..1] == [a];
  }

  lemma Begins(cfg: Config)
    ensures Early(cfg, Init(cfg))
  {
    InitReachableBy(cfg, Undisturbed);
  }

  /** A step that confirms nothing, when the node shows no transaction either. */
  lemma Next(cfg: Config, s: State, step: Step)
    requires Early(cfg, s) && Enabled(cfg, s, step) && !step.Confirm? && (step.Acquire? ==> step.pendingCount == 0)
    ensures Coherent(Apply(cfg, s, step)) && ReachableBy(cfg, Apply(cfg, s, step), Undisturbed)
  {
    hide Coherent, Enabled, Apply, ReachableBy;
    StepReachableBy(cfg, s, step, Undisturbed);
  }

  /** Sending from the local counter, by a worker that is not busy with a registration. */
  lemma SendNext(cfg: Config, s: State, price: real, block: nat) returns (end: State)
    requires Early(cfg, s) && s.mutex.Free? && NonceSigner(s.nonces[cfg.worker], cfg.worker) !in s.docs && price >= 0.0
    ensures Early(cfg, end) && end.mutex.Free? && end.worker == s.worker && end.resends == s.resends
    ensures var nonce := s.nonces[cfg.worker];
      && end.docs == s.docs[NonceSigner(nonce, cfg.worker) := Entry(cfg, price, nonce, block)]
      && end.nonces == s.nonces[cfg.worker := nonce + 1]
  {
    hide LoopCoherent, WellIndexed, PutTx, ReachableBy;
    Next(cfg, s, Acquire(Send(cfg, price, block), 0.0, 0));
    var held := Apply(cfg, s, Acquire(Send(cfg, price, block), 0.0, 0));
    CommitCoherent(held);
    Next(cfg, held, Commit);
    end := AfterCommit(held);
  }

  /** A send whose insert fails. */
  lemma SendLost(cfg: Config, s: State, price: real, block: nat) returns (end: State)
    requires Early(cfg, s) && s.mutex.Free? && price >= 0.0
    ensures Early(cfg, end) && end.mutex.Free? && end.worker == s.worker && end.resends == s.resends
    ensures end.docs == s.docs && end.nonces == s.nonces[cfg.worker := s.nonces[cfg.worker] + 1]
  {
    hide LoopCoherent, WellIndexed, ReachableBy;
    Next(cfg, s, Acquire(Send(cfg, price, block), 0.0, 0));
    var held := Apply(cfg, s, Acquire(Send(cfg, price, block), 0.0, 0));
    Next(cfg, held, InsertFails);
    end := AfterInsertFails(held);
  }

  /** A round of the worker up to its boosts, without anything to register; the sweep finds nothing mined. */
  lemma RoundBegins(cfg: Config, s: State, txs: seq<StoredTx>, block: nat) returns (end: State)
    requires Early(cfg, s) && s.worker.Idle? && IsListing(s.docs, None, txs)
    ensures Early(cfg, end) && end == s.(worker := Settled)
  {
    hide ReachableBy, IsListing, LoopCoherent, WellIndexed;
    Next(cfg, s, Gate(false, true, false));
    Next(cfg, s.(worker := Gated(false)), Decide(true, false));
    Next(cfg, s.(worker := Settled), BeginSweep(txs, block));
    var i := 0;
    while i < |txs|
      invariant i <= |txs| && Early(cfg, s.(worker := Sweeping(txs, i, block)))
    {
      var here := s.(worker := Sweeping(txs, i, block));
      Next(cfg, here, SweepNext(NoReceipt));
      NothingMined(cfg, here);
      i := i + 1;
    }
    Next(cfg, s.(worker := Sweeping(txs, i, block)), EndLoop);
    end := s.(worker := Settled);
  }

  lemma NothingMined(cfg: Config, s: State)
    requires Coherent(s) && s.worker.Sweeping? && s.worker.i < |s.worker.txs| && s.resends.Keys <= s.docs.Keys
    ensures Enabled(cfg, s, SweepNext(NoReceipt))
    ensures Apply(cfg, s, SweepNext(NoReceipt))
      == s.(worker := Sweeping(s.worker.txs, s.worker.i + 1, s.worker.blockNumber))
  {
    assert (map k | k in s.resends && k in s.docs :: s.resends[k]) == s.resends;
  }

  /** Beginning a boost of the worker's entries whose targets are known. */
  lemma BoostBegins(cfg: Config, s: State, txs: seq<StoredTx>, targets: seq<StoredTx>, block: nat) returns (end: State)
    requires Early(cfg, s) && s.worker.Settled? && IsListing(s.docs, Some(cfg.worker), txs) && txs != []
    requires targets == Filter(txs, Below(cfg.prices.NewGasPrice(txs[0].gasPrice)))
    requires block >= LastSentAt(txs[0]) + Patience(cfg)
    ensures Early(cfg, end)
    ensures var price := cfg.prices.NewGasPrice(txs[0].gasPrice);
      end == s.(worker := Boosting(cfg.worker, txs, targets, 0, price, block, |s.signings|))
  {
    hide ReachableBy, IsListing, LoopCoherent, WellIndexed, Filter, PriceConfig.NewGasPrice;
    Next(cfg, s, BeginBoost(cfg.worker, txs, 0, block));
    end := Apply(cfg, s, BeginBoost(cfg.worker, txs, 0, block));
  }

  /** Re-sending the next target for the first time in this run. */
  lemma Resend(cfg: Config, s: State) returns (end: State)
    requires Early(cfg, s) && s.worker.Boosting? && s.worker.i < |s.worker.txs|
    requires s.worker.txs[s.worker.i].Key() !in s.resends
    ensures Early(cfg, end)
    ensures var tx, price := s.worker.txs[s.worker.i], s.worker.newGasPrice;
      && end.docs == s.docs[tx.Key() := WithAttempt(tx, price, s.worker.currentBlock)]
      && end.resends == s.resends[tx.Key() := Resends(1, price, price, 0, {})]
      && end.worker == NextTarget(s.worker)
      && end.mutex == s.mutex && end.nonces == s.nonces
  {
    hide ReachableBy;
    BoostNextCoherent(s);
    Next(cfg, s, BoostNext);
    end := AfterBoostNext(s);
  }

  /** A round that boosts the worker's only entry. */
  lemma BoostAlone(cfg: Config, s: State, tx: StoredTx, block: nat) returns (end: State)
    requires Early(cfg, s) && s.worker.Idle? && s.docs == map[tx.Key() := tx] && tx.From() == cfg.worker
    requires tx.gasPrice < cfg.prices.NewGasPrice(tx.gasPrice) && s.resends == map[]
    requires block >= LastSentAt(tx) + Patience(cfg)
    ensures var price := cfg.prices.NewGasPrice(tx.gasPrice);
      && Early(cfg, end) && end.worker.Idle? && end.mutex == s.mutex && end.nonces == s.nonces
      && end.docs == map[tx.Key() := WithAttempt(tx, price, block)]
      && end.resends == map[tx.Key() := Resends(1, price, price, 0, {})]
  {
    hide PriceConfig.NewGasPrice, Filter, WithAttempt, WellIndexed, IsListing, ReachableBy, LoopCoherent;
    var price := cfg.prices.NewGasPrice(tx.gasPrice);
    ListingOfOne(tx, None);
    ListingOfOne(tx, Some(cfg.worker));
    Filter1(tx, price);
    var settled := RoundBegins(cfg, s, [tx], block);
    var begun := BoostBegins(cfg, settled, [tx], [tx], block);
    var next := Resend(cfg, begun);
    Next(cfg, next, EndLoop);
    Next(cfg, next.(worker := Settled), Finish);
    end := next.(worker := Pipeline.Worker.Idle);
  }
}
