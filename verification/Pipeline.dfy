/**
 The relay server's transaction pipeline as a step relation. A step is what happens between two
 awaits: HTTP requests, the background worker, the node and process restarts interleave freely.
 The store, the sweep and the boost are those of the modules that model the methods.
 */
module Pipeline {
  import opened Prelude
  import opened Events
  import opened Sorting
  import opened TxStore
  import opened Sweep
  import opened Boosting
  import opened TransactionManagers

  datatype Config = Config(manager: Address, worker: Address, prices: PriceConfig, confirmationsNeeded: int,
                           pendingTransactionTimeoutBlocks: int)

  /** The nonce mutex: held from the poll of the nonce until the store has answered. */
  datatype Mutex = Free | Held(details: SendDetails, gasPrice: real, nonce: nat)

  /** The nonces of `a` below this are counted by the chain for good. */
  function ConfirmedIn(confirmed: map<Address, nat>, a: Address): nat {
    if a in confirmed then confirmed[a] else 0
  }

  /**
   Where the background worker stands. Only one round runs at a time. A boost works on the `snapshot` of the
   signer's entries it began with; `since`, the number of signings at that time, only records.
   */
  datatype Worker =
    | Idle
    | Gated(force: bool)
    | Attempting
    | AddingWorker
    | Registering
    | Settled
    | Sweeping(txs: seq<StoredTx>, i: nat, blockNumber: int)
    | Boosting(signer: Address, snapshot: seq<StoredTx>, txs: seq<StoredTx>, i: nat, newGasPrice: real,
      currentBlock: nat, since: nat)

  /** A transaction signed and stored, by a send or by a re-send. */
  datatype Signing = Signing(signed: SignedTx, resend: bool)

  /**
   How often an entry was sent again in this run of the process, first and last at which price; how often the oldest
   entry, which sets the price, was cheaper than the entry itself had become, and the nonces of those oldest entries.
   */
  datatype Resends = Resends(count: nat, first: real, last: real, undercuts: nat, undercutBy: set<nat>)

  /** The nonce `k` was sent, not only sent again, at or after position `from`. */
  predicate SentSince(signings: seq<Signing>, from: nat, k: NonceSigner) {
    exists i | from <= i < |signings| :: !signings[i].resend && KeyOf(signings[i].signed) == k
  }

  /**
   `confirmed` bounds the nonces the chain counts for good. `signings`, `broadcast`, `runStart` (the length of
   `signings` at the last restart), `resends` and `lost` (nonces at which, since then, a send was not stored although
   nothing had taken them) only record what happened.
   */
  datatype State = State(docs: Docs, nonces: map<Address, nat>, mutex: Mutex, worker: Worker, outbox: set<SignedTx>,
                         confirmed: map<Address, nat>, signings: seq<Signing>, runStart: nat,
                         broadcast: set<SignedTx>, resends: map<NonceSigner, Resends>, lost: set<NonceSigner>)
  {
    function ConfirmedBelow(a: Address): nat {
      ConfirmedIn(confirmed, a)
    }
  }

  datatype Step =
    | Confirm(signer: Address, below: nat)
    | Acquire(details: SendDetails, networkGasPrice: real, pendingCount: nat)
    | Commit
    | SignFails
    | InsertFails
    | Broadcast(signed: SignedTx)
    | Gate(relayCallPending: bool, rateIsZero: bool, expired: bool)
    | Decide(registrationCorrect: bool, prerequisitesOk: bool)
    | Attempt(workerValid: bool)
    | BeginSweep(txs: seq<StoredTx>, blockNumber: int)
    | SweepNext(receipt: Receipt)
    | BeginBoost(signer: Address, txs: seq<StoredTx>, accountNonce: nat, currentBlock: nat)
    | BoostNext
    | EndLoop
    | Finish
    | Abort
    | Restart

  function Init(cfg: Config): State {
    State(map[], map[cfg.manager := 0, cfg.worker := 0], Free, Idle, {}, map[], [], 0, {}, map[], {})
  }

  predicate HoldsRegistrationSend(mutex: Mutex) {
    mutex.Held? && (mutex.details.serverAction.AddWorker? || mutex.details.serverAction.RegisterServer?)
  }

  ghost predicate Enabled(cfg: Config, s: State, step: Step) {
    match step
    case Confirm(signer, below) => below >= s.ConfirmedBelow(signer)
    case Acquire(details, networkGasPrice, pendingCount) =>
      && s.mutex.Free?
      && details.signer in s.nonces
      // the node never forgets a nonce confirmed deep enough
      && pendingCount >= s.ConfirmedBelow(details.signer)
      // only the registration code sends these two actions
      && (details.serverAction.AddWorker? ==> s.worker.AddingWorker?)
      && (details.serverAction.RegisterServer? ==> s.worker.Registering?)
      // gas prices are not negative
      && SendPrice(details, networkGasPrice) >= 0.0
    case Commit => s.mutex.Held?
    case SignFails => s.mutex.Held?
    case InsertFails => s.mutex.Held?
    case Broadcast(signed) => signed in s.outbox
    case Gate(relayCallPending, rateIsZero, expired) => s.worker.Idle?
    case Decide(registrationCorrect, prerequisitesOk) => s.worker.Gated?
    case Attempt(workerValid) => s.worker.Attempting?
    case BeginSweep(txs, blockNumber) => s.worker.Settled? && IsListing(s.docs, None, txs)
    case SweepNext(receipt) =>
      && s.worker.Sweeping? && s.worker.i < |s.worker.txs|
      && var tx := s.worker.txs[s.worker.i];
         // a transaction the node shows deep enough is counted by the chain for good
         TxVerdict(tx, receipt, s.worker.blockNumber, cfg.confirmationsNeeded).Remove? ==>
           tx.nonce < s.ConfirmedBelow(tx.From())
    case BeginBoost(signer, txs, accountNonce, currentBlock) =>
      && s.worker.Settled? && IsListing(s.docs, Some(signer), txs) && txs != []
      && accountNonce >= s.ConfirmedBelow(signer)
      && DueForBoost(txs[0], accountNonce, currentBlock, cfg.pendingTransactionTimeoutBlocks)
    case BoostNext => s.worker.Boosting? && s.worker.i < |s.worker.txs|
    case EndLoop => (s.worker.Sweeping? || s.worker.Boosting?) && s.worker.i == |s.worker.txs|
    case Finish => s.worker.Settled?
    case Abort => !HoldsRegistrationSend(s.mutex)
    case Restart => true
  }

  function SendPrice(details: SendDetails, networkGasPrice: real): real {
    if details.gasPrice.Some? then details.gasPrice.value else networkGasPrice
  }

  /** The key that a send is about to take. */
  function Polled(s: State): NonceSigner
    requires s.mutex.Held?
  {
    NonceSigner(s.mutex.nonce, s.mutex.details.signer)
  }

  /** A send that threw has freed the mutex; if it was a registration, the round ends. */
  function Thrown(s: State): State {
    s.(mutex := Free, worker := if HoldsRegistrationSend(s.mutex) then Idle else s.worker)
  }

  function Counted(s: State): map<Address, nat>
    requires s.mutex.Held? && s.mutex.details.signer in s.nonces
  {
    s.nonces[s.mutex.details.signer := s.nonces[s.mutex.details.signer] + 1]
  }

  /** The polled nonce is neither in the store nor confirmed. */
  predicate Untaken(s: State)
    requires s.mutex.Held?
  {
    Polled(s) !in s.docs && s.mutex.nonce >= s.ConfirmedBelow(s.mutex.details.signer)
  }

  /** `putTx` rejects for a reason of its own: the counter has advanced, and nothing is stored. */
  function AfterInsertFails(s: State): State
    requires s.mutex.Held? && s.mutex.details.signer in s.nonces
  {
    Thrown(s).(nonces := Counted(s), lost := if Untaken(s) then s.lost + {Polled(s)} else s.lost)
  }

  function AfterCommit(s: State): State
    requires s.mutex.Held? && s.mutex.details.signer in s.nonces
  {
    var details := s.mutex.details;
    var entry := NewEntry(details, s.mutex.gasPrice, s.mutex.nonce);
    var put := PutTx(s.docs, entry, false);
    if put.Stored? then
      s.(mutex := Free, nonces := Counted(s), docs := put.docs, signings := s.signings + [Signing(entry.txId, false)],
         outbox := s.outbox + {entry.txId},
         worker := match details.serverAction
                   case AddWorker => Registering
                   case RegisterServer => Settled
                   case _ => s.worker)
    else
      Thrown(s).(nonces := Counted(s))
  }

  function AfterSweepNext(cfg: Config, s: State, receipt: Receipt): State
    requires s.worker.Sweeping? && s.worker.i < |s.worker.txs|
  {
    var tx := s.worker.txs[s.worker.i];
    var r := SweepOne(s.docs, tx, TxVerdict(tx, receipt, s.worker.blockNumber, cfg.confirmationsNeeded));
    var docs := if r.Stored? then r.docs else s.docs;
    s.(docs := docs, worker := Sweeping(s.worker.txs, s.worker.i + 1, s.worker.blockNumber),
       resends := map k | k in s.resends && k in docs :: s.resends[k])
  }

  /** The oldest entry of the snapshot was cheaper than the entry at its last re-send. */
  predicate Undercut(worker: Worker, r: Resends)
    requires worker.Boosting?
  {
    worker.snapshot != [] && worker.snapshot[0].gasPrice < r.last
  }

  function ResentAgain(worker: Worker, r: Resends): Resends
    requires worker.Boosting?
  {
    if Undercut(worker, r) then
      Resends(r.count + 1, r.first, worker.newGasPrice, r.undercuts + 1, r.undercutBy + {worker.snapshot[0].nonce})
    else
      r.(count := r.count + 1, last := worker.newGasPrice)
  }

  function NextTarget(w: Worker): Worker
    requires w.Boosting?
  {
    Boosting(w.signer, w.snapshot, w.txs, w.i + 1, w.newGasPrice, w.currentBlock, w.since)
  }

  function AfterBoostNext(s: State): State
    requires s.worker.Boosting? && s.worker.i < |s.worker.txs|
  {
    var tx, price := s.worker.txs[s.worker.i], s.worker.newGasPrice;
    var r := ResendOne(s.docs, tx, price, s.worker.currentBlock);
    var signed := Resigned(tx, price);
    s.(docs := if r.Stored? then r.docs else s.docs,
       worker := NextTarget(s.worker),
       signings := s.signings + [Signing(signed, true)], outbox := s.outbox + {signed},
       resends := s.resends[tx.Key() := if tx.Key() in s.resends then ResentAgain(s.worker, s.resends[tx.Key()])
                                        else Resends(1, price, price, 0, {})])
  }

  ghost function Apply(cfg: Config, s: State, step: Step): State
    requires Enabled(cfg, s, step)
    requires s.mutex.Held? ==> s.mutex.details.signer in s.nonces
  {
    match step
    case Confirm(signer, below) => s.(confirmed := s.confirmed[signer := below])
    case Acquire(details, networkGasPrice, pendingCount) =>
      var nonce := Max(s.nonces[details.signer], pendingCount);
      s.(mutex := Held(details, SendPrice(details, networkGasPrice), nonce),
         nonces := s.nonces[details.signer := nonce])
    case Commit => AfterCommit(s)
    case SignFails => Thrown(s)
    case InsertFails => AfterInsertFails(s)
    case Broadcast(signed) => s.(outbox := s.outbox - {signed}, broadcast := s.broadcast + {signed})
    case Gate(relayCallPending, rateIsZero, expired) =>
      s.(worker := Gated(!(rateIsZero || relayCallPending || ActionPending(s.docs, RegisterServer, None)) && expired))
    case Decide(registrationCorrect, prerequisitesOk) =>
      var attempt := !(ActionPending(s.docs, RegisterServer, None) || registrationCorrect) || s.worker.force;
      s.(worker := if attempt && prerequisitesOk then Attempting else Settled)
    case Attempt(workerValid) =>
      s.(worker := if workerValid || ActionPending(s.docs, AddWorker, None) then Registering else AddingWorker)
    case BeginSweep(txs, blockNumber) => s.(worker := Sweeping(txs, 0, blockNumber))
    case SweepNext(receipt) => AfterSweepNext(cfg, s, receipt)
    case BeginBoost(signer, txs, accountNonce, currentBlock) =>
      var newGasPrice := cfg.prices.NewGasPrice(txs[0].gasPrice);
      s.(worker := Boosting(signer, txs, Filter(txs, Below(newGasPrice)), 0, newGasPrice, currentBlock,
                              |s.signings|))
    case BoostNext => AfterBoostNext(s)
    case EndLoop => s.(worker := Settled)
    case Finish => s.(worker := Idle)
    case Abort => s.(worker := Idle)
    case Restart =>
      s.(mutex := Free, worker := Idle, outbox := {}, nonces := map a | a in s.nonces :: 0,
         runStart := |s.signings|, resends := map[], lost := {})
  }

  ghost predicate Coherent(s: State) {
    && WellIndexed(s.docs)
    && (s.mutex.Held? ==> s.mutex.details.signer in s.nonces && s.mutex.nonce == s.nonces[s.mutex.details.signer])
    && LoopCoherent(s.docs, s.worker)
  }

  /** What a loop has not reached yet is still in the store exactly as the snapshot has it. */
  ghost predicate LoopCoherent(docs: Docs, worker: Worker) {
    match worker
    case Sweeping(txs, i, _) => NonceAscending(txs) && i <= |txs| && forall j | i <= j < |txs| :: Holds(docs, txs[j])
    case Boosting(signer, _, txs, i, newGasPrice, _, _) =>
      && NonceAscending(txs) && i <= |txs|
      && (forall j | i <= j < |txs| :: Holds(docs, txs[j]) && txs[j].From() == signer && txs[j].gasPrice < newGasPrice)
    case _ => true
  }

  lemma SweepNextCoherent(cfg: Config, s: State, receipt: Receipt)
    requires Coherent(s) && s.worker.Sweeping? && s.worker.i < |s.worker.txs|
    ensures Coherent(AfterSweepNext(cfg, s, receipt))
    ensures var tx := s.worker.txs[s.worker.i];
      SweepOne(s.docs, tx, TxVerdict(tx, receipt, s.worker.blockNumber, cfg.confirmationsNeeded)).Stored?
  {
    var txs, i := s.worker.txs, s.worker.i;
    var v := TxVerdict(txs[i], receipt, s.worker.blockNumber, cfg.confirmationsNeeded);
    assert Holds(s.docs, txs[i]);
    SweepOneAccepts(s.docs, txs[i], v);
    var docs := SweepOne(s.docs, txs[i], v).docs;
    forall j | i < j < |txs| ensures Holds(docs, txs[j]) {
      assert txs[i].Key() != txs[j].Key();
      assert Holds(s.docs, txs[j]);
    }
  }

  lemma BoostNextCoherent(s: State)
    requires Coherent(s) && s.worker.Boosting? && s.worker.i < |s.worker.txs|
    ensures Coherent(AfterBoostNext(s))
    ensures AfterBoostNext(s).docs ==
      s.docs[s.worker.txs[s.worker.i].Key() := WithAttempt(s.worker.txs[s.worker.i], s.worker.newGasPrice,
        s.worker.currentBlock)]
  {
    var txs, i := s.worker.txs, s.worker.i;
    assert Holds(s.docs, txs[i]);
    ResendOneEffect(s.docs, txs[i], s.worker.newGasPrice, s.worker.currentBlock);
    forall j | i < j < |txs| ensures txs[i].Key() != txs[j].Key() {
    }
  }

  lemma CommitCoherent(s: State)
    requires Coherent(s) && s.mutex.Held?
    ensures Coherent(AfterCommit(s))
    ensures var k := Polled(s);
      if k in s.docs then
        AfterCommit(s).docs == s.docs && AfterCommit(s).signings == s.signings && AfterCommit(s).outbox == s.outbox
      else AfterCommit(s).docs == s.docs[k := NewEntry(s.mutex.details, s.mutex.gasPrice, s.mutex.nonce)]
  {
    PutAccepts(s.docs, NewEntry(s.mutex.details, s.mutex.gasPrice, s.mutex.nonce), false);
  }

  lemma StepCoherent(cfg: Config, s: State, step: Step)
    requires Coherent(s) && Enabled(cfg, s, step)
    ensures Coherent(Apply(cfg, s, step))
  {
    match step
    case Commit => CommitCoherent(s);
    case SweepNext(receipt) => SweepNextCoherent(cfg, s, receipt);
    case BoostNext => BoostNextCoherent(s);
    case BeginBoost(signer, txs, accountNonce, currentBlock) =>
      UnderpricedOfListing(s.docs, signer, txs, cfg.prices.NewGasPrice(txs[0].gasPrice), currentBlock);
    case _ =>
  }

  /** `steps` can be taken one after the other from `s` on. */
  ghost predicate Runs(cfg: Config, s: State, steps: seq<Step>)
    requires Coherent(s)
    decreases |steps|
  {
    steps == [] || (Enabled(cfg, s, steps[0])
      && (StepCoherent(cfg, s, steps[0]); Runs(cfg, Apply(cfg, s, steps[0]), steps[1..])))
  }

  ghost function After(cfg: Config, s: State, steps: seq<Step>): (end: State)
    requires Coherent(s) && Runs(cfg, s, steps)
    ensures Coherent(end)
    decreases |steps|
  {
    if steps == [] then s else (StepCoherent(cfg, s, steps[0]); After(cfg, Apply(cfg, s, steps[0]), steps[1..]))
  }

  /** Every step of the run meets `also` in the state it is taken from. */
  ghost predicate Always(cfg: Config, s: State, steps: seq<Step>, also: (State, Step) -> bool)
    requires Coherent(s) && Runs(cfg, s, steps)
    decreases |steps|
  {
    steps == [] || (also(s, steps[0])
      && (StepCoherent(cfg, s, steps[0]); Always(cfg, Apply(cfg, s, steps[0]), steps[1..], also)))
  }

  /** Runs grow at the end. */
  lemma {:induction false} RunsSnoc(cfg: Config, s: State, steps: seq<Step>, step: Step)
    requires Coherent(s) && Runs(cfg, s, steps)
    requires Enabled(cfg, After(cfg, s, steps), step)
    ensures Runs(cfg, s, steps + [step])
    ensures After(cfg, s, steps + [step]) == Apply(cfg, After(cfg, s, steps), step)
    decreases |steps|
  {
    if steps == [] {
      StepCoherent(cfg, s, step);
      assert (steps + [step])[1..] == [];
    } else {
      StepCoherent(cfg, s, steps[0]);
      RunsSnoc(cfg, Apply(cfg, s, steps[0]), steps[1..], step);
      assert (steps + [step])[1..] == steps[1..] + [step];
    }
  }

  lemma {:induction false} AlwaysSnoc(cfg: Config, s: State, steps: seq<Step>, step: Step, also: (State, Step) -> bool)
    requires Coherent(s) && Runs(cfg, s, steps) && Always(cfg, s, steps, also)
    requires Enabled(cfg, After(cfg, s, steps), step) && also(After(cfg, s, steps), step)
      && Runs(cfg, s, steps + [step])
    ensures Always(cfg, s, steps + [step], also)
    decreases |steps|
  {
    if steps == [] {
      assert (steps + [step])[1..] == [];
    } else {
      StepCoherent(cfg, s, steps[0]);
      assert (steps + [step])[1..] == steps[1..] + [step];
      AlwaysSnoc(cfg, Apply(cfg, s, steps[0]), steps[1..], step, also);
    }
  }

  lemma {:induction false} AlwaysWeaker(cfg: Config, s: State, steps: seq<Step>, strong: (State, Step) -> bool,
      weak: (State, Step) -> bool)
    requires Coherent(s) && Runs(cfg, s, steps) && Always(cfg, s, steps, strong)
    requires forall t, step | strong(t, step) :: weak(t, step)
    ensures Always(cfg, s, steps, weak)
    decreases |steps|
  {
    hide Enabled, Apply;
    if steps != [] {
      StepCoherent(cfg, s, steps[0]);
      AlwaysWeaker(cfg, Apply(cfg, s, steps[0]), steps[1..], strong, weak);
    }
  }

  /** The state `end` can be reached from the first start of the relay. */
  ghost predicate Reachable(cfg: Config, end: State) {
    exists steps :: Runs(cfg, Init(cfg), steps) && After(cfg, Init(cfg), steps) == end
  }

  /** The same by steps that all meet `also`. */
  ghost predicate ReachableBy(cfg: Config, end: State, also: (State, Step) -> bool) {
    exists steps ::
      Runs(cfg, Init(cfg), steps) && Always(cfg, Init(cfg), steps, also) && After(cfg, Init(cfg), steps) == end
  }

  lemma InitReachableBy(cfg: Config, also: (State, Step) -> bool)
    ensures ReachableBy(cfg, Init(cfg), also)
  {
    assert Runs(cfg, Init(cfg), []);
  }

  lemma StepReachableBy(cfg: Config, s: State, step: Step, also: (State, Step) -> bool)
    requires Coherent(s) && ReachableBy(cfg, s, also) && Enabled(cfg, s, step) && also(s, step)
    ensures Coherent(Apply(cfg, s, step)) && ReachableBy(cfg, Apply(cfg, s, step), also)
  {
    hide Enabled, Apply;
    var steps :| Runs(cfg, Init(cfg), steps) && Always(cfg, Init(cfg), steps, also)
      && After(cfg, Init(cfg), steps) == s;
    RunsSnoc(cfg, Init(cfg), steps, step);
    AlwaysSnoc(cfg, Init(cfg), steps, step, also);
    StepCoherent(cfg, s, step);
  }

  lemma ReachableByIsReachable(cfg: Config, end: State, also: (State, Step) -> bool)
    requires ReachableBy(cfg, end, also)
    ensures Reachable(cfg, end)
  {
  }
}
