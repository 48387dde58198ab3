/** At most one registration and one worker addition are pending at any time. */
module Registration {
  import opened Prelude
  import opened TxStore
  import opened Sweep
  import opened TransactionManagers
  import opened Pipeline

  /** What the gates have established when the worker is on its way to a registration. */
  ghost predicate GateHolds(docs: Docs, worker: Worker) {
    && ((worker.Gated? && worker.force) || worker.Attempting? || worker.AddingWorker? || worker.Registering? ==>
          !ActionPending(docs, RegisterServer, None))
    && (worker.AddingWorker? ==> !ActionPending(docs, AddWorker, None))
  }

  ghost predicate OnePending(s: State) {
    && AtMostOnePending(s.docs, RegisterServer)
    && AtMostOnePending(s.docs, AddWorker)
    && (s.mutex.Held? && s.mutex.details.serverAction.RegisterServer? ==> s.worker.Registering?)
    && (s.mutex.Held? && s.mutex.details.serverAction.AddWorker? ==> s.worker.AddingWorker?)
    && GateHolds(s.docs, s.worker)
  }

  lemma NewEntryPending(docs: Docs, k: NonceSigner, entry: StoredTx, action: ServerAction)
    requires AtMostOnePending(docs, action) && k !in docs
    requires entry.metadata.serverAction == action ==> !ActionPending(docs, action, None)
    ensures AtMostOnePending(docs[k := entry], action)
    ensures entry.metadata.serverAction != action && !ActionPending(docs, action, None) ==>
      !ActionPending(docs[k := entry], action, None)
  {
  }

  lemma CommitOnePending(s: State)
    requires Coherent(s) && OnePending(s) && s.mutex.Held?
    ensures OnePending(AfterCommit(s))
  {
    hide AtMostOnePending, ActionPending, LoopCoherent, WellIndexed, PutTx;
    CommitCoherent(s);
    var k, entry := NonceSigner(s.mutex.nonce, s.mutex.details.signer),
      NewEntry(s.mutex.details, s.mutex.gasPrice, s.mutex.nonce);
    if k !in s.docs {
      NewEntryPending(s.docs, k, entry, RegisterServer);
      NewEntryPending(s.docs, k, entry, AddWorker);
    }
  }

  /** A sweep or a re-send never makes an entry pending that was not. */
  lemma NoNewPending(docs: Docs, after: Docs, action: ServerAction)
    requires AtMostOnePending(docs, action)
    requires forall k | k in after && PendingAs(after[k], action, None) :: k in docs && PendingAs(docs[k], action, None)
    ensures AtMostOnePending(after, action)
  {
  }

  lemma SweepNextOnePending(cfg: Config, s: State, receipt: Receipt)
    requires Coherent(s) && OnePending(s) && Enabled(cfg, s, SweepNext(receipt))
    ensures OnePending(AfterSweepNext(cfg, s, receipt))
  {
    hide AtMostOnePending;
    SweepNextCoherent(cfg, s, receipt);
    var tx, next := s.worker.txs[s.worker.i], AfterSweepNext(cfg, s, receipt);
    assert Holds(s.docs, tx);
    NoNewPending(s.docs, next.docs, RegisterServer);
    NoNewPending(s.docs, next.docs, AddWorker);
  }

  lemma BoostNextOnePending(cfg: Config, s: State)
    requires Coherent(s) && OnePending(s) && Enabled(cfg, s, BoostNext)
    ensures OnePending(AfterBoostNext(s))
  {
    hide AtMostOnePending;
    BoostNextCoherent(s);
    assert Holds(s.docs, s.worker.txs[s.worker.i]);
    NoNewPending(s.docs, AfterBoostNext(s).docs, RegisterServer);
    NoNewPending(s.docs, AfterBoostNext(s).docs, AddWorker);
  }

  lemma StepOnePending(cfg: Config, s: State, step: Step)
    requires Coherent(s) && OnePending(s) && Enabled(cfg, s, step)
    ensures OnePending(Apply(cfg, s, step))
  {
    hide AtMostOnePending, AfterCommit, AfterSweepNext, AfterBoostNext, Coherent;
    match step
    case Commit => CommitOnePending(s);
    case SweepNext(receipt) => SweepNextOnePending(cfg, s, receipt);
    case BoostNext => BoostNextOnePending(cfg, s);
    case _ =>
  }

  lemma {:induction false} RunOnePending(cfg: Config, s: State, steps: seq<Step>)
    requires Coherent(s) && OnePending(s) && Runs(cfg, s, steps)
    ensures OnePending(After(cfg, s, steps))
    decreases |steps|
  {
    if steps != [] {
      StepCoherent(cfg, s, steps[0]);
      StepOnePending(cfg, s, steps[0]);
      RunOnePending(cfg, Apply(cfg, s, steps[0]), steps[1..]);
    }
  }

  /**
   In every reachable state at most one unmined REGISTER_SERVER entry and at most one unmined ADD_WORKER
   entry are in the store; none at all when a forced registration is about to be sent.
   */
  lemma AtMostOneRegistrationPending(cfg: Config, end: State)
    requires Reachable(cfg, end)
    ensures AtMostOnePending(end.docs, RegisterServer) && AtMostOnePending(end.docs, AddWorker)
    ensures end.worker.Registering? ==> !ActionPending(end.docs, RegisterServer, None)
  {
    var steps :| Runs(cfg, Init(cfg), steps) && After(cfg, Init(cfg), steps) == end;
    RunOnePending(cfg, Init(cfg), steps);
  }
}
