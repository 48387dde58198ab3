/** Whatever the relay stores or broadcasts, over all runs, is what some request asked for, at the nonce it acquired. */
module Requests {
  import opened Prelude
  import opened TxStore
  import opened Sweep
  import opened Boosting
  import opened TransactionManagers
  import opened Pipeline

  /** A request, and the nonce it was given. */
  datatype Acquired = Acquired(details: SendDetails, nonce: nat)

  /** The requests that polled a nonce in the course of a run. */
  ghost function AllAcquired(cfg: Config, s: State, steps: seq<Step>): set<Acquired>
    requires Coherent(s) && Runs(cfg, s, steps)
    decreases |steps|
  {
    if steps == [] then {}
    else
      StepCoherent(cfg, s, steps[0]);
      AcquiredBy(s, steps[0]) + AllAcquired(cfg, Apply(cfg, s, steps[0]), steps[1..])
  }

  ghost function AcquiredBy(s: State, step: Step): set<Acquired> {
    if step.Acquire? && step.details.signer in s.nonces then
      {Acquired(step.details, Max(s.nonces[step.details.signer], step.pendingCount))}
    else {}
  }

  /** Signed for the request at its nonce, with its value or, sent again, with none. */
  ghost predicate SignedFor(t: SignedTx, a: Acquired) {
    SignsRequest(t, a.details) && t.tx.nonce == a.nonce && t.tx.value in {0, a.details.value}
  }

  /** The entry of the request: its own action and creation block, besides what was signed. */
  ghost predicate KeptFor(entry: StoredTx, a: Acquired) {
    && SignedFor(entry.txId, a) && entry.metadata.serverAction == a.details.serverAction
    && entry.metadata.creationBlockNumber == a.details.creationBlockNumber
  }

  ghost predicate AllSignedFor(txs: set<SignedTx>, requests: set<Acquired>) {
    forall t | t in txs :: exists a :: a in requests && SignedFor(t, a)
  }

  ghost predicate AllKeptFor(docs: Docs, requests: set<Acquired>) {
    forall k | k in docs :: exists a :: a in requests && KeptFor(docs[k], a)
  }

  ghost predicate AsAcquired(s: State, requests: set<Acquired>) {
    && (s.mutex.Held? ==> Acquired(s.mutex.details, s.mutex.nonce) in requests)
    && AllSignedFor(s.outbox + s.broadcast, requests) && AllKeptFor(s.docs, requests)
  }

  lemma CommitAsAcquired(s: State, requests: set<Acquired>)
    requires Coherent(s) && AsAcquired(s, requests) && s.mutex.Held?
    ensures AsAcquired(AfterCommit(s), requests)
  {
    hide LoopCoherent, WellIndexed;
    CommitCoherent(s);
    var a := Acquired(s.mutex.details, s.mutex.nonce);
    assert KeptFor(NewEntry(s.mutex.details, s.mutex.gasPrice, s.mutex.nonce), a);
    assert SignedFor(NewEntry(s.mutex.details, s.mutex.gasPrice, s.mutex.nonce).txId, a);
  }

  lemma BoostNextAsAcquired(s: State, requests: set<Acquired>)
    requires Coherent(s) && AsAcquired(s, requests) && s.worker.Boosting? && s.worker.i < |s.worker.txs|
    ensures AsAcquired(AfterBoostNext(s), requests)
  {
    BoostNextCoherent(s);
    var tx := s.worker.txs[s.worker.i];
    assert Holds(s.docs, tx) && Faithful(tx);
    var a :| a in requests && KeptFor(s.docs[tx.Key()], a);
    assert KeptFor(WithAttempt(tx, s.worker.newGasPrice, s.worker.currentBlock), a);
    assert SignedFor(Resigned(tx, s.worker.newGasPrice), a);
  }

  lemma SweepNextAsAcquired(cfg: Config, s: State, receipt: Receipt, requests: set<Acquired>)
    requires Coherent(s) && AsAcquired(s, requests) && s.worker.Sweeping? && s.worker.i < |s.worker.txs|
    ensures AsAcquired(AfterSweepNext(cfg, s, receipt), requests)
  {
    SweepNextCoherent(cfg, s, receipt);
    var next, tx := AfterSweepNext(cfg, s, receipt), s.worker.txs[s.worker.i];
    assert Holds(s.docs, tx);
    forall k | k in next.docs ensures exists a :: a in requests && KeptFor(next.docs[k], a) {
      var a :| a in requests && KeptFor(s.docs[k], a);
      assert KeptFor(next.docs[k], a);
    }
  }

  lemma StepAsAcquired(cfg: Config, s: State, step: Step, requests: set<Acquired>)
    requires Coherent(s) && AsAcquired(s, requests) && Enabled(cfg, s, step)
    ensures AsAcquired(Apply(cfg, s, step), requests + AcquiredBy(s, step))
  {
    hide WellIndexed, LoopCoherent, AfterCommit, AfterSweepNext, AfterBoostNext, KeptFor, SignedFor;
    match step
    case Commit => CommitAsAcquired(s, requests);
    case SweepNext(receipt) => SweepNextAsAcquired(cfg, s, receipt, requests);
    case BoostNext => BoostNextAsAcquired(s, requests);
    case _ =>
  }

  lemma {:induction false} RunAsAcquired(cfg: Config, s: State, steps: seq<Step>, requests: set<Acquired>)
    requires Coherent(s) && AsAcquired(s, requests) && Runs(cfg, s, steps)
    ensures AsAcquired(After(cfg, s, steps), requests + AllAcquired(cfg, s, steps))
    decreases |steps|
  {
    hide AsAcquired, Enabled, Apply, AcquiredBy;
    if steps == [] {
      assert requests + {} == requests;
    } else {
      var next, more := Apply(cfg, s, steps[0]), requests + AcquiredBy(s, steps[0]);
      StepCoherent(cfg, s, steps[0]);
      StepAsAcquired(cfg, s, steps[0], requests);
      RunAsAcquired(cfg, next, steps[1..], more);
      assert more + AllAcquired(cfg, next, steps[1..]) == requests + AllAcquired(cfg, s, steps);
    }
  }

  /**
   In every run, over all restarts: a transaction that is stored or was broadcast has the signer, destination, gas
   limit and data of a request, the nonce which that request acquired, and its value or none; and a stored entry has
   the action and the creation block of that request.
   */
  lemma NothingUnrequested(cfg: Config, steps: seq<Step>, t: SignedTx, k: NonceSigner)
    requires Runs(cfg, Init(cfg), steps)
    ensures var s := After(cfg, Init(cfg), steps);
      t in s.outbox + s.broadcast ==> exists a :: a in AllAcquired(cfg, Init(cfg), steps) && SignedFor(t, a)
    ensures var s := After(cfg, Init(cfg), steps);
      k in s.docs ==> exists a :: a in AllAcquired(cfg, Init(cfg), steps) && KeptFor(s.docs[k], a)
  {
    hide Enabled, Apply, KeptFor, SignedFor;
    RunAsAcquired(cfg, Init(cfg), steps, {});
    assert {} + AllAcquired(cfg, Init(cfg), steps) == AllAcquired(cfg, Init(cfg), steps);
  }
}
