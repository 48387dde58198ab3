/** The relay never broadcasts two conflicting transactions for one signer and nonce. */
module Equivocation {
  import opened Events
  import opened TxStore
  import opened Sweep
  import opened Boosting
  import opened TransactionManagers
  import opened Pipeline

  /** Same signer, nonce, destination, gas limit and data. */
  predicate SamePurpose(a: SignedTx, b: SignedTx) {
    && KeyOf(a) == KeyOf(b)
    && a.tx.to == b.tx.to && a.tx.gasLimit == b.tx.gasLimit && a.tx.data == b.tx.data
  }

  predicate EqualUpToGasPrice(a: SignedTx, b: SignedTx) {
    a == b.(tx := b.tx.(gasPrice := a.tx.gasPrice))
  }

  predicate SentOnce(signings: seq<Signing>, k: NonceSigner) {
    exists x | x in signings :: !x.resend && KeyOf(x.signed) == k
  }

  /** Two sends, not re-sends, under one signer and nonce. */
  ghost predicate SentTwice(signings: seq<Signing>) {
    exists i, j | 0 <= i < j < |signings| ::
      !signings[i].resend && !signings[j].resend && KeyOf(signings[i].signed) == KeyOf(signings[j].signed)
  }

  predicate Signed(signings: seq<Signing>, t: SignedTx) {
    exists x | x in signings :: x.signed == t
  }

  /** A key is signed for one purpose only: by one send, and then by re-sends that carry no value. */
  ghost predicate OnePurpose(signings: seq<Signing>) {
    && (forall x, y | x in signings && y in signings && KeyOf(x.signed) == KeyOf(y.signed) ::
      SamePurpose(x.signed, y.signed))
    && !SentTwice(signings)
    && (forall x | x in signings :: x.resend ==> x.signed.tx.value == 0 && SentOnce(signings, KeyOf(x.signed)))
  }

  /** An entry agrees with everything signed under its key. */
  ghost predicate StoreAgrees(docs: Docs, signings: seq<Signing>) {
    && (forall x | x in signings && KeyOf(x.signed) in docs :: SamePurpose(docs[KeyOf(x.signed)].txId, x.signed))
    && (forall k | k in docs :: SentOnce(signings, k))
  }

  /** Whatever was signed stays in the store until the chain has confirmed its nonce. */
  ghost predicate WrittenAhead(docs: Docs, confirmed: map<Address, nat>, signings: seq<Signing>) {
    forall x | x in signings :: KeyOf(x.signed) in docs || x.signed.tx.nonce < ConfirmedIn(confirmed, x.signed.signer)
  }

  ghost predicate AllSigned(txs: set<SignedTx>, signings: seq<Signing>) {
    forall t | t in txs :: Signed(signings, t)
  }

  /** Since the last restart the local counter is above every nonce sent. */
  ghost predicate CounterAbove(nonces: map<Address, nat>, signings: seq<Signing>, runStart: nat) {
    && runStart <= |signings|
    && (forall i | runStart <= i < |signings| :: !signings[i].resend ==>
          signings[i].signed.signer in nonces && signings[i].signed.tx.nonce < nonces[signings[i].signed.signer])
  }

  ghost predicate Safe(s: State) {
    && Coherent(s)
    && OnePurpose(s.signings)
    && StoreAgrees(s.docs, s.signings)
    && WrittenAhead(s.docs, s.confirmed, s.signings)
    && AllSigned(s.outbox + s.broadcast, s.signings)
    && CounterAbove(s.nonces, s.signings, s.runStart)
  }

  /**
   The poll has been overtaken when the store is written: its nonce is free there, because a transaction with that
   nonce or a later one has been confirmed and swept.
   */
  ghost predicate Overtakes(s: State, step: Step) {
    && step.Commit? && s.mutex.Held?
    && Polled(s) !in s.docs && s.mutex.nonce < s.ConfirmedBelow(s.mutex.details.signer)
  }

  ghost predicate NotOvertaken(s: State, step: Step) {
    !Overtakes(s, step)
  }

  /** What safety needs: nothing before the first restart after a send, and then that no poll is overtaken. */
  ghost predicate Current(s: State, step: Step) {
    s.runStart == 0 || NotOvertaken(s, step)
  }

  lemma SignedGrows(signings: seq<Signing>, x: Signing)
    ensures forall k | SentOnce(signings, k) :: SentOnce(signings + [x], k)
    ensures forall t | Signed(signings, t) :: Signed(signings + [x], t)
  {
    forall k | SentOnce(signings, k) ensures SentOnce(signings + [x], k) {
      var y :| y in signings && !y.resend && KeyOf(y.signed) == k;
      assert y in signings + [x];
    }
    forall t | Signed(signings, t) ensures Signed(signings + [x], t) {
      var y :| y in signings && y.signed == t;
      assert y in signings + [x];
    }
  }

  /** Signing once more under a key, in agreement with what was signed under it before. */
  lemma OnePurposeGrows(signings: seq<Signing>, x: Signing)
    requires OnePurpose(signings)
    requires forall y | y in signings && KeyOf(y.signed) == KeyOf(x.signed) ::
      x.resend && SamePurpose(x.signed, y.signed)
    requires x.resend ==> x.signed.tx.value == 0 && SentOnce(signings, KeyOf(x.signed))
    ensures OnePurpose(signings + [x])
  {
    SignedGrows(signings, x);
    assert forall y :: y in signings + [x] <==> y in signings || y == x;
    assert forall i | 0 <= i < |signings| :: (signings + [x])[i] == signings[i] && signings[i] in signings;
  }

  lemma StoreAgreesGrows(docs: Docs, signings: seq<Signing>, entry: StoredTx, x: Signing)
    requires StoreAgrees(docs, signings)
    requires KeyOf(x.signed) == entry.Key() && entry.txId == x.signed
    requires forall y | y in signings && KeyOf(y.signed) == KeyOf(x.signed) :: SamePurpose(x.signed, y.signed)
    requires x.resend ==> SentOnce(signings, KeyOf(x.signed))
    ensures StoreAgrees(docs[entry.Key() := entry], signings + [x])
  {
    SignedGrows(signings, x);
    assert forall y :: y in signings + [x] <==> y in signings || y == x;
    if !x.resend { assert x in signings + [x]; }
  }

  lemma AllSignedGrows(txs: set<SignedTx>, signings: seq<Signing>, x: Signing)
    requires AllSigned(txs, signings)
    ensures AllSigned(txs + {x.signed}, signings + [x])
  {
    SignedGrows(signings, x);
    assert x in signings + [x];
  }

  /** A commit at a free key signs under that key for the first time. */
  lemma NeverSigned(s: State, k: NonceSigner)
    requires Safe(s) && s.mutex.Held? && k == Polled(s) && k !in s.docs
    requires Current(s, Commit)
    ensures forall x | x in s.signings :: KeyOf(x.signed) != k
  {
    if s.runStart == 0 {
      forall i | 0 <= i < |s.signings| && !s.signings[i].resend ensures KeyOf(s.signings[i].signed) != k {
      }
      assert !SentOnce(s.signings, k);
    }
  }

  lemma WrittenAheadGrows(docs: Docs, confirmed: map<Address, nat>, signings: seq<Signing>, entry: StoredTx, x: Signing)
    requires WrittenAhead(docs, confirmed, signings) && KeyOf(x.signed) == entry.Key()
    ensures WrittenAhead(docs[entry.Key() := entry], confirmed, signings + [x])
  {
  }

  lemma CounterAboveGrows(nonces: map<Address, nat>, signings: seq<Signing>, runStart: nat, x: Signing,
      after: map<Address, nat>)
    requires CounterAbove(nonces, signings, runStart)
    requires forall a | a in nonces :: a in after && nonces[a] <= after[a]
    requires !x.resend ==> x.signed.signer in after && x.signed.tx.nonce < after[x.signed.signer]
    ensures CounterAbove(after, signings + [x], runStart)
  {
  }

  /** Signing `x` and writing its entry, whether by a send or by a re-send. */
  lemma SigningIsSafe(s: State, next: State, entry: StoredTx, x: Signing)
    requires Safe(s) && Coherent(next) && x.signed == entry.txId && KeyOf(x.signed) == entry.Key()
    requires next.docs == s.docs[entry.Key() := entry] && next.signings == s.signings + [x]
    requires next.outbox == s.outbox + {x.signed} && next.broadcast == s.broadcast
    requires next.confirmed == s.confirmed && next.runStart == s.runStart
    requires forall a | a in s.nonces :: a in next.nonces && s.nonces[a] <= next.nonces[a]
    requires !x.resend ==> x.signed.signer in next.nonces && x.signed.tx.nonce < next.nonces[x.signed.signer]
    requires forall y | y in s.signings && KeyOf(y.signed) == KeyOf(x.signed) ::
      x.resend && SamePurpose(x.signed, y.signed)
    requires x.resend ==> x.signed.tx.value == 0 && SentOnce(s.signings, KeyOf(x.signed))
    ensures Safe(next)
  {
    hide OnePurpose, StoreAgrees, WrittenAhead, AllSigned, CounterAbove, Coherent, SamePurpose, SentOnce;
    OnePurposeGrows(s.signings, x);
    StoreAgreesGrows(s.docs, s.signings, entry, x);
    AllSignedGrows(s.outbox + s.broadcast, s.signings, x);
    assert next.outbox + next.broadcast == s.outbox + s.broadcast + {x.signed};
    WrittenAheadGrows(s.docs, s.confirmed, s.signings, entry, x);
    CounterAboveGrows(s.nonces, s.signings, s.runStart, x, next.nonces);
  }

  /** Steps that sign nothing and store nothing new. */
  lemma QuietIsSafe(s: State, next: State)
    requires Safe(s) && Coherent(next)
    requires next.docs == s.docs && next.signings == s.signings
      && next.outbox + next.broadcast <= s.outbox + s.broadcast
    requires forall a :: ConfirmedIn(s.confirmed, a) <= ConfirmedIn(next.confirmed, a)
    requires CounterAbove(next.nonces, next.signings, next.runStart)
    ensures Safe(next)
  {
  }

  lemma CommitSafe(s: State)
    requires Safe(s) && s.mutex.Held? && Current(s, Commit)
    ensures Safe(AfterCommit(s))
  {
    hide OnePurpose, StoreAgrees, WrittenAhead, AllSigned;
    CommitCoherent(s);
    var k := Polled(s);
    if k in s.docs {
      QuietIsSafe(s, AfterCommit(s));
    } else {
      var entry := NewEntry(s.mutex.details, s.mutex.gasPrice, s.mutex.nonce);
      NeverSigned(s, k);
      SigningIsSafe(s, AfterCommit(s), entry, Signing(entry.txId, false));
    }
  }

  lemma BoostNextSafe(s: State)
    requires Safe(s) && s.worker.Boosting? && s.worker.i < |s.worker.txs|
    ensures Safe(AfterBoostNext(s))
  {
    BoostNextCoherent(s);
    var tx := s.worker.txs[s.worker.i];
    var entry := WithAttempt(tx, s.worker.newGasPrice, s.worker.currentBlock);
    assert Holds(s.docs, tx);
    assert SentOnce(s.signings, tx.Key());
    SigningIsSafe(s, AfterBoostNext(s), entry, Signing(entry.txId, true));
  }

  lemma SweepNextSafe(cfg: Config, s: State, receipt: Receipt)
    requires Safe(s) && Enabled(cfg, s, SweepNext(receipt))
    ensures Safe(AfterSweepNext(cfg, s, receipt))
  {
    hide OnePurpose, CounterAbove, AllSigned;
    SweepNextCoherent(cfg, s, receipt);
    var next, tx := AfterSweepNext(cfg, s, receipt), s.worker.txs[s.worker.i];
    assert Holds(s.docs, tx);
    forall k | k in next.docs ensures k in s.docs && next.docs[k].txId == s.docs[k].txId {
    }
    forall x | x in s.signings
      ensures KeyOf(x.signed) in next.docs || x.signed.tx.nonce < next.ConfirmedBelow(x.signed.signer)
    {
      assert KeyOf(x.signed) in s.docs || x.signed.tx.nonce < s.ConfirmedBelow(x.signed.signer);
    }
  }

  lemma StepSafe(cfg: Config, s: State, step: Step)
    requires Safe(s) && Enabled(cfg, s, step) && Current(s, step)
    ensures Safe(Apply(cfg, s, step))
  {
    hide OnePurpose, StoreAgrees, WrittenAhead, WellIndexed, LoopCoherent;
    StepCoherent(cfg, s, step);
    match step
    case Commit => CommitSafe(s);
    case SweepNext(receipt) => SweepNextSafe(cfg, s, receipt);
    case BoostNext => BoostNextSafe(s);
    case _ => QuietIsSafe(s, Apply(cfg, s, step));
  }

  lemma {:induction false} RunSafe(cfg: Config, s: State, steps: seq<Step>)
    requires Safe(s) && Runs(cfg, s, steps) && Always(cfg, s, steps, Current)
    ensures Safe(After(cfg, s, steps))
    decreases |steps|
  {
    if steps != [] {
      StepSafe(cfg, s, steps[0]);
      StepCoherent(cfg, s, steps[0]);
      RunSafe(cfg, Apply(cfg, s, steps[0]), steps[1..]);
    }
  }

  /** A run of the relay from its first start, in which no poll of a nonce is overtaken after a restart. */
  ghost predicate FreshRun(cfg: Config, steps: seq<Step>) {
    Runs(cfg, Init(cfg), steps) && Always(cfg, Init(cfg), steps, Current)
  }

  /**
   Non-equivocation, over every run: what is broadcast under one signer and nonce agrees in destination,
   gas limit and data; and it agrees in everything but the gas price exactly when the values agree, in
   particular whenever neither transaction carries any value.
   */
  lemma NonEquivocation(cfg: Config, steps: seq<Step>, a: SignedTx, b: SignedTx)
    requires FreshRun(cfg, steps)
    requires var s := After(cfg, Init(cfg), steps); a in s.broadcast && b in s.broadcast
    requires KeyOf(a) == KeyOf(b)
    ensures SamePurpose(a, b)
    ensures EqualUpToGasPrice(a, b) <==> a.tx.value == b.tx.value
  {
    RunSafe(cfg, Init(cfg), steps);
  }

  /** Two values under one key mean exactly that a transfer was sent with a value and then re-sent without. */
  lemma ValueLostExactlyByResend(cfg: Config, steps: seq<Step>, x: Signing, y: Signing)
    requires FreshRun(cfg, steps)
    requires var s := After(cfg, Init(cfg), steps); x in s.signings && y in s.signings
    requires KeyOf(x.signed) == KeyOf(y.signed) && !x.resend
    ensures x.signed.tx.value != y.signed.tx.value <==> y.resend && x.signed.tx.value != 0
  {
    RunSafe(cfg, Init(cfg), steps);
    hide Safe, Runs, Always, After, Coherent;
    SafeSignings(After(cfg, Init(cfg), steps));
    ValuesOfOnePurpose(After(cfg, Init(cfg), steps).signings, x, y);
  }

  lemma SafeSignings(s: State)
    requires Safe(s)
    ensures OnePurpose(s.signings)
  {
  }

  lemma ValuesOfOnePurpose(signings: seq<Signing>, x: Signing, y: Signing)
    requires OnePurpose(signings) && x in signings && y in signings
    requires KeyOf(x.signed) == KeyOf(y.signed) && !x.resend
    ensures x.signed.tx.value != y.signed.tx.value <==> y.resend && x.signed.tx.value != 0
  {
    if !y.resend {
      var i :| 0 <= i < |signings| && signings[i] == x;
      var j :| 0 <= j < |signings| && signings[j] == y;
      assert i == j;
    }
  }

  /** Write-ahead: a broadcast transaction can be boosted or swept until its nonce is confirmed. */
  lemma BroadcastIsStored(cfg: Config, steps: seq<Step>, a: SignedTx)
    requires FreshRun(cfg, steps)
    requires var s := After(cfg, Init(cfg), steps); a in s.broadcast
    ensures var s := After(cfg, Init(cfg), steps);
      (KeyOf(a) in s.docs && SamePurpose(s.docs[KeyOf(a)].txId, a)) || a.tx.nonce < s.ConfirmedBelow(a.signer)
  {
    RunSafe(cfg, Init(cfg), steps);
  }

  // ---------- exactly when a key is sent twice ----------

  /** The keys are the relay's own: the chain confirms only nonces the relay has signed. */
  ghost predicate OwnNonces(s: State, step: Step) {
    step.Confirm? ==>
      forall n: nat | s.ConfirmedBelow(step.signer) <= n < step.below ::
        SentOnce(s.signings, NonceSigner(n, step.signer))
  }

  ghost predicate ConfirmedAreOwn(s: State) {
    forall a: Address, n: nat | n < s.ConfirmedBelow(a) :: SentOnce(s.signings, NonceSigner(n, a))
  }

  /** At a commit to a free nonce: the nonce was sent before iff the poll has been overtaken. */
  lemma SentBeforeIffOvertaken(s: State)
    requires Safe(s) && ConfirmedAreOwn(s) && s.mutex.Held? && Polled(s) !in s.docs
    ensures SentOnce(s.signings, Polled(s)) <==> Overtakes(s, Commit)
  {
    if SentOnce(s.signings, Polled(s)) {
      var x :| x in s.signings && !x.resend && KeyOf(x.signed) == Polled(s);
      assert KeyOf(x.signed) in s.docs || x.signed.tx.nonce < ConfirmedIn(s.confirmed, x.signed.signer);
    }
  }

  lemma StepSigns(cfg: Config, s: State, step: Step)
    requires Coherent(s) && Enabled(cfg, s, step)
    ensures s.signings <= Apply(cfg, s, step).signings
  {
    hide Coherent, WellIndexed;
  }

  lemma StepConfirmsOwn(cfg: Config, s: State, step: Step)
    requires Coherent(s) && Enabled(cfg, s, step) && ConfirmedAreOwn(s) && OwnNonces(s, step)
    ensures ConfirmedAreOwn(Apply(cfg, s, step))
  {
    var next := Apply(cfg, s, step);
    StepSigns(cfg, s, step);
    forall a: Address, n: nat | n < next.ConfirmedBelow(a) ensures SentOnce(next.signings, NonceSigner(n, a)) {
      assert SentOnce(s.signings, NonceSigner(n, a));
      SentStays(s.signings, next.signings, NonceSigner(n, a));
    }
  }

  lemma SentStays(signings: seq<Signing>, after: seq<Signing>, k: NonceSigner)
    requires signings <= after && SentOnce(signings, k)
    ensures SentOnce(after, k)
  {
    var x :| x in signings && !x.resend && KeyOf(x.signed) == k;
    assert x in after;
  }

  /** An overtaken commit to the relay's own nonce sends that nonce again. */
  lemma OvertakenSendsTwice(cfg: Config, s: State, step: Step)
    requires Coherent(s) && Enabled(cfg, s, step) && ConfirmedAreOwn(s) && Overtakes(s, step)
    ensures SentTwice(Apply(cfg, s, step).signings)
  {
    CommitCoherent(s);
    var k, after := Polled(s), AfterCommit(s).signings;
    var x :| x in s.signings && !x.resend && KeyOf(x.signed) == k;
    var i :| 0 <= i < |s.signings| && s.signings[i] == x;
    assert after[i] == x && KeyOf(after[|s.signings|].signed) == k && !after[|s.signings|].resend;
  }

  lemma {:induction false} RunSendsTwice(cfg: Config, s: State, steps: seq<Step>)
    requires Coherent(s) && Runs(cfg, s, steps) && Always(cfg, s, steps, OwnNonces) && ConfirmedAreOwn(s)
    requires SentTwice(s.signings) || !Always(cfg, s, steps, NotOvertaken)
    ensures SentTwice(After(cfg, s, steps).signings)
    decreases |steps|
  {
    hide ConfirmedAreOwn, SentTwice, Enabled, Apply, OwnNonces, Overtakes;
    if steps != [] {
      var step, next := steps[0], Apply(cfg, s, steps[0]);
      StepCoherent(cfg, s, step);
      StepConfirmsOwn(cfg, s, step);
      StepSigns(cfg, s, step);
      if SentTwice(s.signings) {
        TwiceStays(s.signings, next.signings);
      } else if Overtakes(s, step) {
        OvertakenSendsTwice(cfg, s, step);
      }
      RunSendsTwice(cfg, next, steps[1..]);
    }
  }

  lemma TwiceStays(signings: seq<Signing>, after: seq<Signing>)
    requires signings <= after && SentTwice(signings)
    ensures SentTwice(after)
  {
    var i, j :| 0 <= i < j < |signings|
      && !signings[i].resend && !signings[j].resend && KeyOf(signings[i].signed) == KeyOf(signings[j].signed);
    assert after[i] == signings[i] && after[j] == signings[j];
  }

  /**
   Exactly when: in a run on keys only this relay uses, some signer and nonce is sent twice iff some commit finds its
   nonce free in the store although it is below what the chain has confirmed.
   */
  lemma SentTwiceIffOvertaken(cfg: Config, steps: seq<Step>)
    requires Runs(cfg, Init(cfg), steps) && Always(cfg, Init(cfg), steps, OwnNonces)
    ensures SentTwice(After(cfg, Init(cfg), steps).signings) <==> !Always(cfg, Init(cfg), steps, NotOvertaken)
  {
    if Always(cfg, Init(cfg), steps, NotOvertaken) {
      AlwaysWeaker(cfg, Init(cfg), steps, NotOvertaken, Current);
      RunSafe(cfg, Init(cfg), steps);
    } else {
      RunSendsTwice(cfg, Init(cfg), steps);
    }
  }
}
