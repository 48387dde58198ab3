/** What a boost leaves cheap: exactly the transactions that were sent while it was under way. */
module Latecomers {
  import opened Prelude
  import opened Sorting
  import opened TxStore
  import opened Sweep
  import opened Boosting
  import opened Pipeline
  import opened Nonces
  import opened Raising
  import opened Pricing
  import opened Scenarios

  /** Signing `i` is a send of the signer since the boost began. */
  predicate SentMeanwhile(s: State, i: int)
    requires s.worker.Boosting?
  {
    s.worker.since <= i < |s.signings| && SendOf(s.signings[i], s.worker.signer)
  }

  /** What was sent meanwhile came late, and is in the store as it was sent. */
  ghost predicate LateAsSent(s: State) {
    s.worker.Boosting? ==>
      && s.worker.since <= |s.signings|
      && forall i | SentMeanwhile(s, i) ::
           var x := s.signings[i].signed;
           Late(s.worker.signer, s.worker.snapshot, KeyOf(x)) && KeyOf(x) in s.docs && s.docs[KeyOf(x)].txId == x
  }

  lemma CommitLate(cfg: Config, s: State)
    requires Coherent(s) && Priced(cfg, s) && LateAsSent(s) && s.mutex.Held?
    ensures LateAsSent(AfterCommit(s))
  {
    hide WellIndexed, LoopCoherent, Recorded, Linear, PutTx, CheapWaitOrLate, LateAreNew, UndercutOnce;
    CommitCoherent(s);
    var k, next := NonceSigner(s.mutex.nonce, s.mutex.details.signer), AfterCommit(s);
    if next.worker.Boosting? {
      assert k !in s.docs ==> Late(s.worker.signer, s.worker.snapshot, k) || k.signer != s.worker.signer;
      forall i | SentMeanwhile(next, i)
        ensures var x := next.signings[i].signed;
          Late(s.worker.signer, s.worker.snapshot, KeyOf(x)) && KeyOf(x) in next.docs && next.docs[KeyOf(x)].txId == x
      {
        if i < |s.signings| { assert SentMeanwhile(s, i); }
      }
    }
  }

  lemma BoostNextLate(cfg: Config, s: State)
    requires Coherent(s) && Priced(cfg, s) && LateAsSent(s) && s.worker.Boosting? && s.worker.i < |s.worker.txs|
    ensures LateAsSent(AfterBoostNext(s))
  {
    BoostNextChanges(s);
    var w, next := s.worker, AfterBoostNext(s);
    FilterMembers(w.snapshot, Below(w.newGasPrice));
    assert w.txs[w.i] in w.snapshot;
    hide Coherent, Recorded, Linear, CheapWaitOrLate, LateAreNew, UndercutOnce, WithAttempt, Filter, NextRecord;
    forall i | SentMeanwhile(next, i)
      ensures var x := next.signings[i].signed;
        Late(w.signer, w.snapshot, KeyOf(x)) && KeyOf(x) in next.docs && next.docs[KeyOf(x)].txId == x
    {
      assert SentMeanwhile(s, i);
    }
  }

  lemma StepLate(cfg: Config, s: State, step: Step)
    requires Coherent(s) && Priced(cfg, s) && LateAsSent(s) && Enabled(cfg, s, step)
    ensures LateAsSent(Apply(cfg, s, step))
  {
    hide Priced, LoopCoherent, WellIndexed, AfterCommit, AfterBoostNext, Late, SweepOne;
    match step
    case Commit => CommitLate(cfg, s);
    case BoostNext => BoostNextLate(cfg, s);
    case _ =>
  }

  lemma {:induction false} RunLate(cfg: Config, s: State, steps: seq<Step>)
    requires Sensible(cfg.prices) && Coherent(s) && Priced(cfg, s) && LateAsSent(s) && Runs(cfg, s, steps)
    ensures Priced(cfg, After(cfg, s, steps)) && LateAsSent(After(cfg, s, steps))
    decreases |steps|
  {
    hide Priced, LateAsSent, Apply, Enabled;
    if steps != [] {
      StepCoherent(cfg, s, steps[0]);
      StepPriced(cfg, s, steps[0]);
      StepLate(cfg, s, steps[0]);
      RunLate(cfg, Apply(cfg, s, steps[0]), steps[1..]);
    }
  }

  predicate LoopDone(w: Worker) {
    w.Boosting? && w.i == |w.txs|
  }

  /** An entry of the boost's signer below the boost's price. */
  predicate StillCheap(s: State, k: NonceSigner)
    requires s.worker.Boosting?
  {
    k in s.docs && k.signer == s.worker.signer && s.docs[k].gasPrice < s.worker.newGasPrice
  }

  /**
   When the resend loop of a boost is done, in any reachable state: an entry of the signer is below the new price
   exactly if it was sent below that price while the boost was under way.
   */
  lemma CheapExactlyIfSentMeanwhile(cfg: Config, s: State, k: NonceSigner)
    requires Sensible(cfg.prices) && Reachable(cfg, s) && LoopDone(s.worker)
    ensures StillCheap(s, k) <==>
      exists i :: SentMeanwhile(s, i) && KeyOf(s.signings[i].signed) == k
        && s.signings[i].signed.tx.gasPrice < s.worker.newGasPrice
  {
    hide Apply, Enabled, Geometric, Recorded, Linear;
    var steps :| Runs(cfg, Init(cfg), steps) && After(cfg, Init(cfg), steps) == s;
    InitPriced(cfg);
    RunLate(cfg, Init(cfg), steps);
    if StillCheap(s, k) {
      assert Faithful(s.docs[k]);
      assert Late(s.worker.signer, s.worker.snapshot, k);
      assert SentSince(s.signings, s.worker.since, k);
      var i :| s.worker.since <= i < |s.signings| && !s.signings[i].resend && KeyOf(s.signings[i].signed) == k;
      assert SentMeanwhile(s, i);
    }
  }

  /**
   Such an entry exists, on the relay's own keys and with no poll overtaken: a reachable end of a boost with an entry of
   its signer below the new price.
   */
  lemma LatecomerStaysCheap(cfg: Config)
    requires Sensible(cfg.prices) && cfg.prices.maxGasPrice > 0.0
    ensures exists s, k :: ReachableBy(cfg, s, Undisturbed) && LoopDone(s.worker) && StillCheap(s, k)
  {
    var price := cfg.prices.maxGasPrice / 2.0;
    RaiseIsUp(cfg.prices, price);
    hide PriceConfig.NewGasPrice, PriceConfig.Scaled, ReachableBy, Coherent, Early;
    var begun := BoostUnderway(cfg, price);
    var sent := SendNext(cfg, begun, price, 1 + Patience(cfg));
    var end := Resend(cfg, sent);
    EarlyIsReachable(cfg, end);
    assert StillCheap(end, NonceSigner(1, cfg.worker));
  }

  lemma EarlyIsReachable(cfg: Config, s: State)
    requires Early(cfg, s)
    ensures ReachableBy(cfg, s, Undisturbed)
  {
  }

  /** A boost of nonce 0 has begun. */
  lemma BoostUnderway(cfg: Config, price: real) returns (end: State)
    requires 0.0 <= price < cfg.prices.NewGasPrice(price)
    ensures Early(cfg, end) && end.mutex.Free? && end.resends == map[] && cfg.worker in end.nonces
    ensures var tx := Entry(cfg, price, 0, 1);
      && end.docs == map[NonceSigner(0, cfg.worker) := tx] && end.nonces[cfg.worker] == 1
      && end.worker.Boosting? && end.worker.signer == cfg.worker && end.worker.txs == [tx] && end.worker.i == 0
      && end.worker.newGasPrice == cfg.prices.NewGasPrice(price)
  {
    hide PriceConfig.NewGasPrice, Filter, ReachableBy, Coherent, Early;
    var tx, height := Entry(cfg, price, 0, 1), 1 + Patience(cfg);
    Begins(cfg);
    var s1 := SendNext(cfg, Init(cfg), price, 1);
    ListingOfOne(tx, None);
    ListingOfOne(tx, Some(cfg.worker));
    Filter1(tx, cfg.prices.NewGasPrice(price));
    var s2 := RoundBegins(cfg, s1, [tx], height);
    end := BoostBegins(cfg, s2, [tx], [tx], height);
  }
}
