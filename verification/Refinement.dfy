/**
 The methods of the transaction manager, run without interruption, are runs of the step machine: what the
 machine's safety properties say covers them.
 */
module Refinement {
  import opened Prelude
  import opened Sorting
  import opened TxStore
  import opened Sweep
  import opened Boosting
  import opened TransactionManagers
  import opened Pipeline

  ghost predicate Leads(cfg: Config, s: State, end: State)
    requires Coherent(s)
  {
    exists steps :: Runs(cfg, s, steps) && After(cfg, s, steps) == end
  }

  lemma LeadsToItself(cfg: Config, s: State)
    requires Coherent(s)
    ensures Leads(cfg, s, s)
  {
    assert Runs(cfg, s, []) && After(cfg, s, []) == s;
  }

  lemma LeadsOn(cfg: Config, s: State, mid: State, step: Step)
    requires Coherent(s) && Coherent(mid) && Leads(cfg, s, mid) && Enabled(cfg, mid, step)
    ensures Coherent(Apply(cfg, mid, step)) && Leads(cfg, s, Apply(cfg, mid, step))
  {
    hide Coherent, Enabled, Apply;
    var steps :| Runs(cfg, s, steps) && After(cfg, s, steps) == mid;
    RunsSnoc(cfg, s, steps, step);
    StepCoherent(cfg, mid, step);
  }

  /** `sendTransaction`: the poll, and what ends it, leave counter, store and outbox as the method promises. */
  lemma SendIsARun(cfg: Config, s: State, details: SendDetails, networkGasPrice: real, pendingCount: nat,
      signingOk: bool, insertOk: bool)
    returns (end: State)
    requires Coherent(s) && Enabled(cfg, s, Acquire(details, networkGasPrice, pendingCount))
    ensures Leads(cfg, s, end) && end.mutex.Free?
    ensures var nonce := Max(s.nonces[details.signer], pendingCount);
      var price := if details.gasPrice.Some? then details.gasPrice.value else networkGasPrice;
      var k := NonceSigner(nonce, details.signer);
      var stored := signingOk && insertOk && k !in s.docs;
      && end.nonces == s.nonces[details.signer := if signingOk then nonce + 1 else nonce]
      && (if stored then
            && k in end.docs && AsRequested(end.docs[k], details, price, nonce)
            && end.docs == s.docs[k := end.docs[k]] && end.outbox == s.outbox + {end.docs[k].txId}
          else end.docs == s.docs && end.outbox == s.outbox)
  {
    hide Leads, Coherent, WellIndexed;
    LeadsToItself(cfg, s);
    LeadsOn(cfg, s, s, Acquire(details, networkGasPrice, pendingCount));
    var held := Apply(cfg, s, Acquire(details, networkGasPrice, pendingCount));
    var last := if !signingOk then SignFails else if !insertOk then InsertFails else Commit;
    CommitCoherent(held);
    LeadsOn(cfg, s, held, last);
    end := Apply(cfg, held, last);
  }

  /** One iteration of the sweep, in the machine and in the declared intermediate store. */
  lemma SweepNextInStep(cfg: Config, s: State, st: State, docs: Docs, txs: seq<StoredTx>, i: nat, round: Round)
    requires Coherent(s) && Coherent(st) && Leads(cfg, s, st)
    requires st.worker == Sweeping(txs, i, round.blockNumber) && round.confirmationsNeeded == cfg.confirmationsNeeded
    requires i < |txs| && IsListing(docs, None, txs) && SweptSoFar(docs, txs, i, st.docs, round)
    requires round.Judge(txs[i]).Remove? ==> txs[i].nonce < st.ConfirmedBelow(txs[i].From())
    ensures var next := AfterSweepNext(cfg, st, round.answers(txs[i].txId));
      && Coherent(next) && Leads(cfg, s, next)
      && next.worker == Sweeping(txs, i + 1, round.blockNumber) && SweptSoFar(docs, txs, i + 1, next.docs, round)
      && next.confirmed == st.confirmed && next.nonces == st.nonces
  {
    hide Leads, Coherent, SweptSoFar, IsListing;
    SweepStep(docs, txs, i, st.docs, round);
    LeadsOn(cfg, s, st, SweepNext(round.answers(txs[i].txId)));
  }

  /** `removeConfirmedTransactions`: the sweep's steps end in the store that the method promises. */
  lemma SweepIsARun(cfg: Config, s: State, txs: seq<StoredTx>, round: Round) returns (end: State)
    requires Coherent(s) && s.worker.Settled? && IsListing(s.docs, None, txs)
    requires round.confirmationsNeeded == cfg.confirmationsNeeded
    requires forall tx | tx in txs && round.Judge(tx).Remove? :: tx.nonce < s.ConfirmedBelow(tx.From())
    ensures Coherent(end) && Leads(cfg, s, end) && end.worker.Settled?
    ensures end.docs == AfterSweep(s.docs, round) && end.nonces == s.nonces
  {
    hide Leads, Coherent, SweptSoFar, IsListing, AfterSweep, AfterSweepNext, Apply, Enabled, TxVerdict;
    var i := 0;
    end := SweepStarts(cfg, s, txs, round);
    while i < |txs|
      invariant i <= |txs| && Coherent(end) && Leads(cfg, s, end)
      invariant end.worker == Sweeping(txs, i, round.blockNumber) && SweptSoFar(s.docs, txs, i, end.docs, round)
      invariant end.confirmed == s.confirmed && end.nonces == s.nonces
    {
      SweepNextInStep(cfg, s, end, s.docs, txs, i, round);
      end := AfterSweepNext(cfg, end, round.answers(txs[i].txId));
      i := i + 1;
    }
    SweepEnds(s, txs, end.docs, round);
    LoopEnds(cfg, s, end);
    end := end.(worker := Settled);
  }

  lemma SweepStarts(cfg: Config, s: State, txs: seq<StoredTx>, round: Round) returns (st: State)
    requires Coherent(s) && s.worker.Settled? && IsListing(s.docs, None, txs)
    ensures Coherent(st) && Leads(cfg, s, st) && st == s.(worker := Sweeping(txs, 0, round.blockNumber))
    ensures SweptSoFar(s.docs, txs, 0, st.docs, round)
  {
    hide Leads;
    LeadsToItself(cfg, s);
    LeadsOn(cfg, s, s, BeginSweep(txs, round.blockNumber));
    st := s.(worker := Sweeping(txs, 0, round.blockNumber));
  }

  lemma LoopEnds(cfg: Config, s: State, st: State)
    requires Coherent(s) && Coherent(st) && Leads(cfg, s, st)
    requires (st.worker.Sweeping? || st.worker.Boosting?) && st.worker.i == |st.worker.txs|
    ensures Coherent(st.(worker := Settled)) && Leads(cfg, s, st.(worker := Settled))
  {
    hide Leads;
    LeadsOn(cfg, s, st, EndLoop);
  }

  lemma SweepEnds(s: State, txs: seq<StoredTx>, now: Docs, round: Round)
    requires Coherent(s) && IsListing(s.docs, None, txs) && SweptSoFar(s.docs, txs, |txs|, now, round)
    ensures now == AfterSweep(s.docs, round)
  {
    SweepDone(s.docs, txs, now, round);
  }

  /** One iteration of the resend loop. */
  lemma BoostNextInStep(cfg: Config, s: State, st: State, docs: Docs, targets: seq<StoredTx>, i: nat, price: real,
      currentBlock: nat)
    requires Coherent(s) && Coherent(st) && Leads(cfg, s, st) && st.worker.Boosting?
    requires st.worker.txs == targets && st.worker.i == i && st.worker.newGasPrice == price
    requires st.worker.currentBlock == currentBlock && i < |targets|
    requires WellIndexed(docs) && NonceAscending(targets) && AllHeld(docs, targets)
    requires st.docs == AfterResends(docs, targets[..i], price, currentBlock)
    ensures var next := AfterBoostNext(st);
      && Coherent(next) && Leads(cfg, s, next)
      && next.worker == NextTarget(st.worker) && next.worker.Boosting? && next.worker.i == i + 1
      && next.docs == AfterResends(docs, targets[..i + 1], price, currentBlock)
      && next.nonces == st.nonces && Resigned(targets[i], price) in next.outbox
  {
    assert WellIndexed(st.docs);
    ResendStep(docs, targets, i, price, currentBlock);
    BoostNextEffect(st);
    hide Leads, Coherent, AfterResends, ResendOne, WellIndexed, NonceAscending, AllHeld, AfterBoostNext;
    LeadsByBoostNext(cfg, s, st);
  }

  lemma LeadsByBoostNext(cfg: Config, s: State, st: State)
    requires Coherent(s) && Coherent(st) && Leads(cfg, s, st) && st.worker.Boosting? && st.worker.i < |st.worker.txs|
    ensures Coherent(AfterBoostNext(st)) && Leads(cfg, s, AfterBoostNext(st))
  {
    hide Leads, WellIndexed, LoopCoherent, AfterBoostNext;
    LeadsOn(cfg, s, st, BoostNext);
  }

  lemma BoostNextEffect(st: State)
    requires st.worker.Boosting? && st.worker.i < |st.worker.txs|
    ensures var w, next := st.worker, AfterBoostNext(st);
      var tx := w.txs[w.i];
      var put := ResendOne(st.docs, tx, w.newGasPrice, w.currentBlock);
      && next.worker == NextTarget(w) && next.worker.Boosting? && next.worker.i == w.i + 1
      && next.nonces == st.nonces && Resigned(tx, w.newGasPrice) in next.outbox
      && (put.Stored? ==> next.docs == put.docs)
  {
    hide ResendOne;
  }

  /** The resend loop, from its start. */
  lemma BoostLoopRuns(cfg: Config, s: State, st: State) returns (end: State)
    requires Coherent(s) && Coherent(st) && Leads(cfg, s, st) && st.worker.Boosting? && st.worker.i == 0
    requires NonceAscending(st.worker.txs) && AllHeld(st.docs, st.worker.txs)
    ensures Coherent(end) && Leads(cfg, s, end) && end.worker.Boosting? && end.worker.i == |end.worker.txs|
    ensures end.docs == AfterResends(st.docs, st.worker.txs, st.worker.newGasPrice, st.worker.currentBlock)
    ensures end.nonces == st.nonces
  {
    var targets, price, currentBlock := st.worker.txs, st.worker.newGasPrice, st.worker.currentBlock;
    assert WellIndexed(st.docs) && AfterResends(st.docs, targets[..0], price, currentBlock) == st.docs;
    hide Leads, Coherent, AfterResends, AfterBoostNext, AllHeld, NonceAscending, WellIndexed;
    var i := 0;
    end := st;
    while i < |targets|
      invariant i <= |targets| && Coherent(end) && Leads(cfg, s, end)
      invariant end.worker.Boosting? && end.worker.txs == targets && end.worker.i == i
      invariant end.worker.newGasPrice == price && end.worker.currentBlock == currentBlock
      invariant end.docs == AfterResends(st.docs, targets[..i], price, currentBlock) && end.nonces == st.nonces
    {
      BoostNextInStep(cfg, s, end, st.docs, targets, i, price, currentBlock);
      end := AfterBoostNext(end);
      i := i + 1;
    }
    assert targets[..i] == targets;
  }

  /** `boostUnderpricedPendingTransactionsForSigner`: its steps re-send the same entries with the same effect. */
  lemma BoostIsARun(cfg: Config, s: State, step: Step) returns (end: State)
    requires Coherent(s) && step.BeginBoost? && Enabled(cfg, s, step)
    ensures Coherent(end) && Leads(cfg, s, end) && end.worker.Settled? && end.nonces == s.nonces
    ensures var price := cfg.prices.NewGasPrice(step.txs[0].gasPrice);
      && end.docs == AfterResends(s.docs, Filter(step.txs, Below(price)), price, step.currentBlock)
      && AllPricedFrom(end.docs, step.signer, price)
  {
    hide Leads, Coherent, AfterResends, Filter, PriceConfig.NewGasPrice, AllHeld, NonceAscending, WellIndexed,
      AllPricedFrom, Apply, Enabled;
    var begun := BoostStarts(cfg, s, step);
    end := BoostLoopRuns(cfg, s, begun);
    LoopEnds(cfg, s, end);
    end := end.(worker := Settled);
  }

  lemma BoostStarts(cfg: Config, s: State, step: Step) returns (st: State)
    requires Coherent(s) && step.BeginBoost? && Enabled(cfg, s, step)
    ensures var price := cfg.prices.NewGasPrice(step.txs[0].gasPrice);
      var targets := Filter(step.txs, Below(price));
      && Coherent(st) && Leads(cfg, s, st)
      && st == s.(worker := Boosting(step.signer, step.txs, targets, 0, price, step.currentBlock, |s.signings|))
      && NonceAscending(targets) && AllHeld(s.docs, targets)
      && AllPricedFrom(AfterResends(s.docs, targets, price, step.currentBlock), step.signer, price)
  {
    hide Leads, Filter, PriceConfig.NewGasPrice, IsListing;
    var price := cfg.prices.NewGasPrice(step.txs[0].gasPrice);
    LeadsToItself(cfg, s);
    LeadsOn(cfg, s, s, step);
    UnderpricedOfListing(s.docs, step.signer, step.txs, price, step.currentBlock);
    st := Apply(cfg, s, step);
  }

  // ---------- starting again ----------

  lemma StepKeepsSigners(cfg: Config, s: State, step: Step)
    requires Coherent(s) && Enabled(cfg, s, step)
    ensures Apply(cfg, s, step).nonces.Keys == s.nonces.Keys
  {
    hide LoopCoherent, WellIndexed, PutTx;
  }

  lemma {:induction false} RunKeepsSigners(cfg: Config, s: State, steps: seq<Step>)
    requires Coherent(s) && Runs(cfg, s, steps)
    ensures After(cfg, s, steps).nonces.Keys == s.nonces.Keys
    decreases |steps|
  {
    hide Enabled, Apply;
    if steps != [] {
      StepCoherent(cfg, s, steps[0]);
      StepKeepsSigners(cfg, s, steps[0]);
      RunKeepsSigners(cfg, Apply(cfg, s, steps[0]), steps[1..]);
    }
  }

  /**
   A restart in any reachable state is what constructing a new manager over the old store gives: both counters at zero,
   whatever has been sent, and every stored entry still there.
   */
  lemma RestartIsAFreshStart(cfg: Config, s: State)
    requires Reachable(cfg, s)
    ensures var next := Apply(cfg, s, Restart);
      next.nonces == map[cfg.manager := 0, cfg.worker := 0] && next.docs == s.docs
  {
    hide Enabled;
    var steps :| Runs(cfg, Init(cfg), steps) && After(cfg, Init(cfg), steps) == s;
    RunKeepsSigners(cfg, Init(cfg), steps);
  }
}
