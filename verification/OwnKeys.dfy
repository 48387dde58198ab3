/**
 Keys that only this relay uses: over all restarts, which nonces are sent, when a gap opens, and that sends stay in
 nonce order.
 */
module OwnKeys {
  import opened Events
  import opened TxStore
  import opened Sweep
  import opened Boosting
  import opened TransactionManagers
  import opened Pipeline
  import opened Equivocation
  import opened Raising
  import opened Pricing
  import opened Ordered

  /** The chain confirms, and the node counts as pending, only nonces that this relay has sent. */
  ghost predicate Own(s: State, step: Step) {
    && OwnNonces(s, step)
    && (step.Acquire? ==>
          forall n: nat | n < step.pendingCount :: SentOnce(s.signings, NonceSigner(n, step.details.signer)))
  }

  // ---------- sent or lost ----------

  /** Below the counter of its signer a nonce is either sent or lost. */
  ghost predicate SentOrLost(s: State) {
    && (forall k | k in s.lost :: k.signer in s.nonces && k.nonce < s.nonces[k.signer])
    && (forall k: NonceSigner | k.signer in s.nonces && k.nonce < s.nonces[k.signer] ::
          SentOnce(s.signings, k) <==> k !in s.lost)
  }

  ghost predicate AllStoredAreSent(s: State) {
    forall k | k in s.docs :: SentOnce(s.signings, k)
  }

  ghost predicate Accounted(s: State) {
    && Coherent(s)
    && AllStoredAreSent(s)
    && WrittenAhead(s.docs, s.confirmed, s.signings)
    && ConfirmedAreOwn(s)
    && SentOrLost(s)
  }

  /** What the store or the chain has was sent, and nothing else was. */
  lemma SentIffTaken(s: State)
    requires AllStoredAreSent(s) && WrittenAhead(s.docs, s.confirmed, s.signings) && ConfirmedAreOwn(s)
    ensures forall k: NonceSigner ::
      SentOnce(s.signings, k) <==> k in s.docs || k.nonce < s.ConfirmedBelow(k.signer)
  {
    forall k: NonceSigner | SentOnce(s.signings, k) ensures k in s.docs || k.nonce < s.ConfirmedBelow(k.signer) {
      var x :| x in s.signings && !x.resend && KeyOf(x.signed) == k;
      assert KeyOf(x.signed) in s.docs || x.signed.tx.nonce < ConfirmedIn(s.confirmed, x.signed.signer);
    }
    forall k: NonceSigner | k.nonce < s.ConfirmedBelow(k.signer) ensures SentOnce(s.signings, k) {
      assert k == NonceSigner(k.nonce, k.signer);
    }
  }

  /** One more signing: a send adds its key to those sent, a re-send none. */
  lemma OneMoreSent(signings: seq<Signing>, x: Signing)
    ensures forall k: NonceSigner ::
      SentOnce(signings + [x], k) <==> SentOnce(signings, k) || (!x.resend && KeyOf(x.signed) == k)
  {
    SignedGrows(signings, x);
    assert x in signings + [x];
    assert forall y :: y in signings + [x] ==> y in signings || y == x;
  }

  lemma CommitAccounted(s: State)
    requires Accounted(s) && s.mutex.Held?
    ensures Accounted(AfterCommit(s))
  {
    hide LoopCoherent, WellIndexed, SentOnce;
    CommitCoherent(s);
    SentIffTaken(s);
    var k := Polled(s);
    if k !in s.docs {
      var entry := NewEntry(s.mutex.details, s.mutex.gasPrice, s.mutex.nonce);
      var x := Signing(entry.txId, false);
      OneMoreSent(s.signings, x);
      WrittenAheadGrows(s.docs, s.confirmed, s.signings, entry, x);
    }
  }

  lemma InsertFailsAccounted(s: State)
    requires Accounted(s) && s.mutex.Held?
    ensures Accounted(AfterInsertFails(s))
  {
    hide WellIndexed, SentOnce, WrittenAhead, ConfirmedAreOwn, AllStoredAreSent;
    SentIffTaken(s);
    var next := AfterInsertFails(s);
    assert SentOrLost(next);
    assert WrittenAhead(next.docs, next.confirmed, next.signings);
    SameConfirmed(s, next);
  }

  lemma SameConfirmed(s: State, next: State)
    requires ConfirmedAreOwn(s) && AllStoredAreSent(s)
    requires next.confirmed == s.confirmed && next.signings == s.signings && next.docs == s.docs
    ensures ConfirmedAreOwn(next) && AllStoredAreSent(next)
  {
  }

  lemma BoostNextAccounted(s: State)
    requires Accounted(s) && s.worker.Boosting? && s.worker.i < |s.worker.txs|
    ensures Accounted(AfterBoostNext(s))
  {
    BoostNextCoherent(s);
    var tx := s.worker.txs[s.worker.i];
    var entry := WithAttempt(tx, s.worker.newGasPrice, s.worker.currentBlock);
    assert Holds(s.docs, tx);
    hide LoopCoherent, WellIndexed, SentOnce;
    OneMoreSent(s.signings, Signing(Resigned(tx, s.worker.newGasPrice), true));
    WrittenAheadGrows(s.docs, s.confirmed, s.signings, entry, Signing(Resigned(tx, s.worker.newGasPrice), true));
  }

  lemma SweepNextAccounted(cfg: Config, s: State, receipt: Receipt)
    requires Accounted(s) && Enabled(cfg, s, SweepNext(receipt))
    ensures Accounted(AfterSweepNext(cfg, s, receipt))
  {
    hide SentOnce, SentOrLost;
    SweepNextCoherent(cfg, s, receipt);
    var next, tx := AfterSweepNext(cfg, s, receipt), s.worker.txs[s.worker.i];
    assert Holds(s.docs, tx);
    forall x | x in s.signings
      ensures KeyOf(x.signed) in next.docs || x.signed.tx.nonce < next.ConfirmedBelow(x.signed.signer)
    {
      assert KeyOf(x.signed) in s.docs || x.signed.tx.nonce < s.ConfirmedBelow(x.signed.signer);
    }
    SameAccounts(s, next);
  }

  lemma SameAccounts(s: State, next: State)
    requires SentOrLost(s) && next.nonces == s.nonces && next.signings == s.signings && next.lost == s.lost
    ensures SentOrLost(next)
  {
  }

  lemma AcquireAccounted(cfg: Config, s: State, step: Step)
    requires Accounted(s) && step.Acquire? && Enabled(cfg, s, step) && Own(s, step)
    ensures Accounted(Apply(cfg, s, step))
  {
    hide LoopCoherent, WellIndexed, SentOnce;
    forall k: NonceSigner | k.signer == step.details.signer && k.nonce < step.pendingCount
      ensures SentOnce(s.signings, k)
    {
      assert k == NonceSigner(k.nonce, step.details.signer);
    }
  }

  lemma ConfirmAccounted(cfg: Config, s: State, step: Step)
    requires Accounted(s) && step.Confirm? && Enabled(cfg, s, step) && Own(s, step)
    ensures Accounted(Apply(cfg, s, step))
  {
    hide LoopCoherent, WellIndexed, SentOnce;
    StepConfirmsOwn(cfg, s, step);
  }

  lemma StepAccounted(cfg: Config, s: State, step: Step)
    requires Accounted(s) && Enabled(cfg, s, step) && Own(s, step)
    ensures Accounted(Apply(cfg, s, step))
  {
    hide WellIndexed, LoopCoherent, SentOnce, AfterCommit, AfterSweepNext, AfterBoostNext, AfterInsertFails, Own;
    StepCoherent(cfg, s, step);
    match step
    case Confirm(_, _) => ConfirmAccounted(cfg, s, step);
    case Acquire(_, _, _) => AcquireAccounted(cfg, s, step);
    case Commit => CommitAccounted(s);
    case InsertFails => InsertFailsAccounted(s);
    case SweepNext(receipt) => SweepNextAccounted(cfg, s, receipt);
    case BoostNext => BoostNextAccounted(s);
    case _ =>
  }

  lemma {:induction false} RunAccounted(cfg: Config, s: State, steps: seq<Step>)
    requires Accounted(s) && Runs(cfg, s, steps) && Always(cfg, s, steps, Own)
    ensures Accounted(After(cfg, s, steps))
    decreases |steps|
  {
    hide Apply, Enabled, Own, SentOrLost, AllStoredAreSent, WrittenAhead, ConfirmedAreOwn;
    if steps != [] {
      StepAccounted(cfg, s, steps[0]);
      StepCoherent(cfg, s, steps[0]);
      RunAccounted(cfg, Apply(cfg, s, steps[0]), steps[1..]);
    }
  }

  lemma InitAccounted(cfg: Config)
    ensures Accounted(Init(cfg))
  {
  }

  /**
   Conservation over every restart: what has been sent is exactly what the store holds or the chain has confirmed. Below
   the counter that is every nonce but those lost since the last restart, to sends that threw at a nonce nothing had
   taken; and nothing at or above a lost nonce is confirmed.
   */
  lemma SentExactlyUnlessLost(cfg: Config, s: State, k: NonceSigner)
    requires ReachableBy(cfg, s, Own)
    ensures SentOnce(s.signings, k) <==> k in s.docs || k.nonce < s.ConfirmedBelow(k.signer)
    ensures k.signer in s.nonces && k.nonce < s.nonces[k.signer] ==> (SentOnce(s.signings, k) <==> k !in s.lost)
    ensures k in s.lost ==> !SentOnce(s.signings, k) && s.ConfirmedBelow(k.signer) <= k.nonce
  {
    hide Own, Enabled, Apply, SentOnce, WrittenAhead;
    var steps :| Runs(cfg, Init(cfg), steps) && Always(cfg, Init(cfg), steps, Own) && After(cfg, Init(cfg), steps) == s;
    InitAccounted(cfg);
    RunAccounted(cfg, Init(cfg), steps);
    SentIffTaken(s);
  }

  // ---------- gaps ----------

  /** The nonces sent by each signer start at zero and leave none out. */
  ghost predicate GapFree(signings: seq<Signing>) {
    forall a: Address, n: nat, m: nat | n < m && SentOnce(signings, NonceSigner(m, a)) ::
      SentOnce(signings, NonceSigner(n, a))
  }

  ghost predicate NoGapSoFar(s: State, step: Step) {
    GapFree(s.signings)
  }

  /** A send is stored after the same run of the process has lost a nonce of its signer. */
  ghost predicate SendsPastLost(s: State, step: Step) {
    step.Commit? && s.mutex.Held? && Polled(s) !in s.docs && exists k | k in s.lost :: k.signer == Polled(s).signer
  }

  ghost predicate NothingLeftOut(s: State, step: Step) {
    !SendsPastLost(s, step)
  }

  /** Storing a send leaves a nonce below it unsent iff its signer has lost one since the last restart. */
  lemma CommitLeavesOutIffLost(s: State)
    requires Accounted(s) && s.mutex.Held? && Polled(s) !in s.docs
    ensures (exists n: nat | n < Polled(s).nonce ::
        !SentOnce(AfterCommit(s).signings, NonceSigner(n, Polled(s).signer)))
      <==> SendsPastLost(s, Commit)
  {
    hide SentOnce, LoopCoherent, WellIndexed;
    CommitCoherent(s);
    var after, entry := AfterCommit(s).signings, NewEntry(s.mutex.details, s.mutex.gasPrice, s.mutex.nonce);
    OneMoreSent(s.signings, Signing(entry.txId, false));
    if SendsPastLost(s, Commit) {
      var k :| k in s.lost && k.signer == Polled(s).signer;
      assert k == NonceSigner(k.nonce, Polled(s).signer) && !SentOnce(after, k);
    }
  }

  lemma CommitGapFree(s: State)
    requires Accounted(s) && s.mutex.Held?
    ensures SendsPastLost(s, Commit) ==> !GapFree(AfterCommit(s).signings)
    ensures GapFree(s.signings) && !SendsPastLost(s, Commit) ==> GapFree(AfterCommit(s).signings)
  {
    CommitCoherent(s);
    if Polled(s) !in s.docs {
      var entry := NewEntry(s.mutex.details, s.mutex.gasPrice, s.mutex.nonce);
      assert AfterCommit(s).signings == s.signings + [Signing(entry.txId, false)];
      CommitLeavesOutIffLost(s);
      OneMoreSent(s.signings, Signing(entry.txId, false));
    }
  }

  /** Any other step sends nothing. */
  lemma OtherStepsSendNothing(cfg: Config, s: State, step: Step)
    requires Coherent(s) && Enabled(cfg, s, step) && !step.Commit?
    ensures GapFree(Apply(cfg, s, step).signings) <==> GapFree(s.signings)
  {
    hide Coherent, SentOnce;
    if step.BoostNext? {
      OneMoreSent(s.signings, Signing(Resigned(s.worker.txs[s.worker.i], s.worker.newGasPrice), true));
    }
  }

  lemma StepGapFree(cfg: Config, s: State, step: Step)
    requires Accounted(s) && Enabled(cfg, s, step)
    ensures SendsPastLost(s, step) ==> !GapFree(Apply(cfg, s, step).signings)
    ensures GapFree(s.signings) && !SendsPastLost(s, step) ==> GapFree(Apply(cfg, s, step).signings)
  {
    hide GapFree, Coherent, AllStoredAreSent, WrittenAhead, ConfirmedAreOwn, SentOrLost;
    if step.Commit? {
      CommitGapFree(s);
    } else {
      OtherStepsSendNothing(cfg, s, step);
    }
  }

  lemma {:induction false} RunGapFree(cfg: Config, s: State, steps: seq<Step>)
    requires Accounted(s) && Runs(cfg, s, steps) && Always(cfg, s, steps, Own) && GapFree(s.signings)
    ensures Always(cfg, s, steps, NoGapSoFar) && GapFree(After(cfg, s, steps).signings)
      <==> Always(cfg, s, steps, NothingLeftOut)
    decreases |steps|
  {
    hide Apply, Enabled, Own, GapFree, SentOrLost, AllStoredAreSent, WrittenAhead, ConfirmedAreOwn, SendsPastLost;
    if steps != [] {
      var next := Apply(cfg, s, steps[0]);
      StepCoherent(cfg, s, steps[0]);
      StepAccounted(cfg, s, steps[0]);
      StepGapFree(cfg, s, steps[0]);
      if GapFree(next.signings) {
        RunGapFree(cfg, next, steps[1..]);
      } else if Always(cfg, next, steps[1..], NoGapSoFar) {
        GapSeen(cfg, next, steps[1..]);
      }
    }
  }

  lemma GapSeen(cfg: Config, s: State, steps: seq<Step>)
    requires Coherent(s) && Runs(cfg, s, steps) && Always(cfg, s, steps, NoGapSoFar) && !GapFree(s.signings)
    ensures !GapFree(After(cfg, s, steps).signings)
  {
    hide GapFree;
  }

  /**
   Exactly when a gap opens: throughout a run, over all its restarts, the nonces sent by each signer are an initial
   segment iff no send is stored after the same run of the process has lost a nonce of its signer.
   */
  lemma GapIffSentPastLost(cfg: Config, steps: seq<Step>)
    requires Runs(cfg, Init(cfg), steps) && Always(cfg, Init(cfg), steps, Own)
    ensures Always(cfg, Init(cfg), steps, NoGapSoFar) && GapFree(After(cfg, Init(cfg), steps).signings)
      <==> Always(cfg, Init(cfg), steps, NothingLeftOut)
  {
    InitAccounted(cfg);
    RunGapFree(cfg, Init(cfg), steps);
  }

  // ---------- order ----------

  lemma SentBelow(signings: seq<Signing>, k: NonceSigner, n: nat)
    requires GapFree(signings) && SentOnce(signings, k) && n < k.nonce
    ensures SentOnce(signings, NonceSigner(n, k.signer))
  {
    hide SentOnce;
    assert k == NonceSigner(k.nonce, k.signer);
  }

  /** Without gaps, a stored send is out of order only if its poll was overtaken. */
  lemma GapFreeInOrder(s: State, step: Step)
    requires Accounted(s) && GapFree(s.signings) && NotOvertaken(s, step)
    ensures InOrder(s, step)
  {
    hide SentOnce, LoopCoherent, WellIndexed, SentOrLost;
    SentIffTaken(s);
    if step.Commit? && s.mutex.Held? && Polled(s) !in s.docs {
      forall k | k in s.docs && k.signer == s.mutex.details.signer ensures k.nonce < s.mutex.nonce {
        if s.mutex.nonce < k.nonce {
          SentBelow(s.signings, k, s.mutex.nonce);
          assert false;
        }
      }
    }
  }

  lemma {:induction false} RunInOrder(cfg: Config, s: State, steps: seq<Step>)
    requires Accounted(s) && Runs(cfg, s, steps) && Always(cfg, s, steps, Own) && Always(cfg, s, steps, NoGapSoFar)
    requires Always(cfg, s, steps, NotOvertaken)
    ensures Always(cfg, s, steps, InOrder)
    decreases |steps|
  {
    hide Apply, Enabled, Own, GapFree, SentOrLost, AllStoredAreSent, WrittenAhead, ConfirmedAreOwn, NotOvertaken,
      InOrder;
    if steps != [] {
      StepCoherent(cfg, s, steps[0]);
      StepAccounted(cfg, s, steps[0]);
      GapFreeInOrder(s, steps[0]);
      RunInOrder(cfg, Apply(cfg, s, steps[0]), steps[1..]);
    }
  }

  /**
   Progress over every restart: with no poll overtaken and no send stored past a lost nonce, every nonce of a signer
   up to the last is sent, each once; sends are in nonce order, and every re-send makes progress.
   */
  lemma ProgressOnOwnKeys(cfg: Config, steps: seq<Step>)
    requires Sensible(cfg.prices) && Runs(cfg, Init(cfg), steps) && Always(cfg, Init(cfg), steps, Own)
    requires Always(cfg, Init(cfg), steps, NotOvertaken) && Always(cfg, Init(cfg), steps, NothingLeftOut)
    ensures OrderedRun(cfg, steps)
    ensures var s := After(cfg, Init(cfg), steps);
      && GapFree(s.signings) && !SentTwice(s.signings)
      && (forall b | b in s.resends :: s.resends[b].undercuts == 0)
      && (s.worker.Boosting? ==> forall j | s.worker.i <= j < |s.worker.txs| :: Progress(cfg.prices, s, j))
  {
    hide Enabled, Apply, OwnNonces, NotOvertaken, SentTwice, InOrder;
    InitAccounted(cfg);
    GapIffSentPastLost(cfg, steps);
    RunInOrder(cfg, Init(cfg), steps);
    OrderedProgress(cfg, steps);
    AlwaysWeaker(cfg, Init(cfg), steps, Own, OwnNonces);
    SentTwiceIffOvertaken(cfg, steps);
  }
}
