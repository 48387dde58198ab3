/** Why non-equivocation needs the nonce poll to be current: a run in which it is overtaken. */
module StalePoll {
  import opened Prelude
  import opened TxStore
  import opened Sweep
  import opened TransactionManagers
  import opened Pipeline
  import opened Equivocation
  import opened OwnKeys

  predicate PlainSend(cfg: Config, details: SendDetails) {
    details.signer == cfg.worker && details.serverAction.RelayCall? && details.gasPrice.Some?
      && details.gasPrice.value >= 0.0
  }

  /** Reachable by a run on keys only this relay uses. */
  ghost predicate OwnReachable(cfg: Config, end: State) {
    ReachableBy(cfg, end, Own)
  }

  lemma OwnStep(cfg: Config, s: State, step: Step)
    requires Coherent(s) && OwnReachable(cfg, s) && Enabled(cfg, s, step) && Own(s, step)
    ensures Coherent(Apply(cfg, s, step)) && OwnReachable(cfg, Apply(cfg, s, step))
  {
    StepReachableBy(cfg, s, step, Own);
  }

  function Tx(details: SendDetails): SignedTx
    requires details.gasPrice.Some?
  {
    SignedWith(details, details.gasPrice.value, 0)
  }

  function Entry(details: SendDetails): StoredTx
    requires details.gasPrice.Some?
  {
    NewEntry(details, details.gasPrice.value, 0)
  }

  /** The state once `first` is sent at nonce 0 and the process restarts. */
  function Restarted(cfg: Config, first: SendDetails): State
    requires first.gasPrice.Some?
  {
    State(map[NonceSigner(0, cfg.worker) := Entry(first)], map[cfg.manager := 0, cfg.worker := 0], Free, Idle, {},
      map[], [Signing(Tx(first), false)], 1, {Tx(first)}, map[], {})
  }

  /** The state once `second` has polled nonce 0, and the sweep then found `first` confirmed. */
  function Overtaken(cfg: Config, first: SendDetails, second: SendDetails, worker: Worker): State
    requires first.gasPrice.Some? && second.gasPrice.Some?
  {
    Restarted(cfg, first).(docs := map[], mutex := Held(second, second.gasPrice.value, 0), worker := worker,
                           confirmed := map[cfg.worker := 1])
  }

  function Committed(cfg: Config, first: SendDetails): State
    requires first.gasPrice.Some?
  {
    Init(cfg).(docs := map[NonceSigner(0, cfg.worker) := Entry(first)], nonces := Init(cfg).nonces[cfg.worker := 1],
               signings := [Signing(Tx(first), false)], outbox := {Tx(first)})
  }

  lemma FirstCommit(cfg: Config, first: SendDetails)
    requires PlainSend(cfg, first)
    ensures Coherent(Committed(cfg, first)) && OwnReachable(cfg, Committed(cfg, first))
  {
    InitReachableBy(cfg, Own);
    var s0 := Init(cfg);
    OwnStep(cfg, s0, Acquire(first, 0.0, 0));
    var s1 := s0.(mutex := Held(first, first.gasPrice.value, 0));
    assert s1 == Apply(cfg, s0, Acquire(first, 0.0, 0));
    OwnStep(cfg, s1, Commit);
    CommitCoherent(s1);
    assert AfterCommit(s1) == Committed(cfg, first);
  }

  lemma FirstHalf(cfg: Config, first: SendDetails)
    requires PlainSend(cfg, first)
    ensures Coherent(Restarted(cfg, first)) && OwnReachable(cfg, Restarted(cfg, first))
  {
    FirstCommit(cfg, first);
    var s0 := Committed(cfg, first);
    OwnStep(cfg, s0, Broadcast(Tx(first)));
    var s1 := s0.(outbox := {}, broadcast := {Tx(first)});
    assert s1 == Apply(cfg, s0, Broadcast(Tx(first)));
    OwnStep(cfg, s1, Restart);
    assert Apply(cfg, s1, Restart) == Restarted(cfg, first);
  }

  lemma PollThenConfirm(cfg: Config, first: SendDetails, second: SendDetails)
    requires PlainSend(cfg, first) && PlainSend(cfg, second)
    requires Coherent(Restarted(cfg, first)) && OwnReachable(cfg, Restarted(cfg, first))
    ensures var s := Restarted(cfg, first).(mutex := Held(second, second.gasPrice.value, 0), worker := Settled,
                                            confirmed := map[cfg.worker := 1]);
      Coherent(s) && OwnReachable(cfg, s)
  {
    var s0 := Restarted(cfg, first);
    OwnStep(cfg, s0, Acquire(second, 0.0, 0));
    var s1 := s0.(mutex := Held(second, second.gasPrice.value, 0));
    assert s1 == Apply(cfg, s0, Acquire(second, 0.0, 0));
    OwnStep(cfg, s1, Confirm(cfg.worker, 1));
    var s2 := s1.(confirmed := map[cfg.worker := 1]);
    assert s2 == Apply(cfg, s1, Confirm(cfg.worker, 1));
    OwnStep(cfg, s2, Gate(false, true, false));
    OwnStep(cfg, s2.(worker := Gated(false)), Decide(true, false));
  }

  lemma SweepOvertakes(cfg: Config, first: SendDetails, second: SendDetails)
    requires PlainSend(cfg, first) && PlainSend(cfg, second)
    requires var s := Overtaken(cfg, first, second, Settled).(docs := Restarted(cfg, first).docs);
      Coherent(s) && OwnReachable(cfg, s)
    ensures exists worker ::
      Coherent(Overtaken(cfg, first, second, worker)) && OwnReachable(cfg, Overtaken(cfg, first, second, worker))
  {
    var s0 := Overtaken(cfg, first, second, Settled).(docs := Restarted(cfg, first).docs);
    var entry, height := Entry(first), Max(0, cfg.confirmationsNeeded);
    hide IsListing;
    ListingOfOne(entry, None);
    OwnStep(cfg, s0, BeginSweep([entry], height));
    var s1 := s0.(worker := Sweeping([entry], 0, height));
    OwnStep(cfg, s1, SweepNext(MinedAt(0)));
    assert Apply(cfg, s1, SweepNext(MinedAt(0))) == Overtaken(cfg, first, second, Sweeping([entry], 1, height));
  }

  /** The commit that follows stores and broadcasts the second transaction. */
  lemma SecondIsSent(cfg: Config, first: SendDetails, second: SendDetails, worker: Worker) returns (end: State)
    requires PlainSend(cfg, first) && PlainSend(cfg, second)
    requires Coherent(Overtaken(cfg, first, second, worker)) && OwnReachable(cfg, Overtaken(cfg, first, second, worker))
    ensures OwnReachable(cfg, end) && Tx(first) in end.broadcast && Tx(second) in end.broadcast
  {
    hide OwnReachable, LoopCoherent;
    var s0 := Overtaken(cfg, first, second, worker);
    CommitCoherent(s0);
    OwnStep(cfg, s0, Commit);
    var s1 := AfterCommit(s0);
    assert Tx(second) in s1.outbox && s1.broadcast == s0.broadcast;
    OwnStep(cfg, s1, Broadcast(Tx(second)));
    end := s1.(outbox := s1.outbox - {Tx(second)}, broadcast := s1.broadcast + {Tx(second)});
  }

  /**
   After a restart, a poll answered before the sweep and used after it makes the relay broadcast two
   transactions for one nonce, whatever the two are, and although the chain confirms only the relay's own.
   */
  lemma StalePollEquivocates(cfg: Config, first: SendDetails, second: SendDetails)
    requires PlainSend(cfg, first) && PlainSend(cfg, second)
    ensures exists end ::
      OwnReachable(cfg, end) && Tx(first) in end.broadcast && Tx(second) in end.broadcast
    ensures KeyOf(Tx(first)) == KeyOf(Tx(second))
    ensures SamePurpose(Tx(first), Tx(second)) <==>
      first.destination == second.destination && first.gasLimit == second.gasLimit && first.data == second.data
  {
    hide OwnReachable, Coherent, Restarted, Overtaken;
    FirstHalf(cfg, first);
    PollThenConfirm(cfg, first, second);
    SameState(cfg, first, second);
    SweepOvertakes(cfg, first, second);
    var worker :| Coherent(Overtaken(cfg, first, second, worker))
      && OwnReachable(cfg, Overtaken(cfg, first, second, worker));
    var end := SecondIsSent(cfg, first, second, worker);
  }

  lemma SameState(cfg: Config, first: SendDetails, second: SendDetails)
    requires PlainSend(cfg, first) && PlainSend(cfg, second)
    ensures Overtaken(cfg, first, second, Settled).(docs := Restarted(cfg, first).docs)
      == Restarted(cfg, first).(mutex := Held(second, second.gasPrice.value, 0), worker := Settled,
                                confirmed := map[cfg.worker := 1])
  {
  }
}
