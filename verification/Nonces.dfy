/** Nonce allocation: strictly increasing within a run of the process, and without unexplained gaps. */
module Nonces {
  import opened Events
  import opened TxStore
  import opened Pipeline

  /** The sends (not re-sends) of one signer. */
  predicate SendOf(x: Signing, a: Address) {
    !x.resend && x.signed.signer == a
  }

  ghost predicate Increasing(signings: seq<Signing>, from: nat) {
    forall i, j | from <= i < j < |signings| ::
      SendOf(signings[i], signings[j].signed.signer) && !signings[j].resend ==>
        signings[i].signed.tx.nonce < signings[j].signed.tx.nonce
  }

  ghost predicate Linear(s: State) {
    && s.runStart <= |s.signings|
    && Increasing(s.signings, s.runStart)
    && (forall i | s.runStart <= i < |s.signings| :: !s.signings[i].resend ==>
          s.signings[i].signed.signer in s.nonces
            && s.signings[i].signed.tx.nonce < s.nonces[s.signings[i].signed.signer])
  }

  lemma CommitLinear(s: State)
    requires Coherent(s) && Linear(s) && s.mutex.Held?
    ensures Linear(AfterCommit(s))
  {
    hide LoopCoherent;
    CommitCoherent(s);
  }

  /** Counters may rise, and a re-send may be appended. */
  lemma StaysLinear(s: State, next: State)
    requires Linear(s) && next.runStart == s.runStart && s.signings <= next.signings
    requires forall i | |s.signings| <= i < |next.signings| :: next.signings[i].resend
    requires forall a | a in s.nonces :: a in next.nonces && s.nonces[a] <= next.nonces[a]
    ensures Linear(next)
  {
  }

  lemma StepLinear(cfg: Config, s: State, step: Step)
    requires Coherent(s) && Linear(s) && Enabled(cfg, s, step)
    ensures Linear(Apply(cfg, s, step))
  {
    if step.Commit? {
      CommitLinear(s);
    } else if !step.Restart? {
      hide LoopCoherent, Linear;
      StaysLinear(s, Apply(cfg, s, step));
    }
  }

  lemma {:induction false} RunLinear(cfg: Config, s: State, steps: seq<Step>)
    requires Coherent(s) && Linear(s) && Runs(cfg, s, steps)
    ensures Linear(After(cfg, s, steps))
    decreases |steps|
  {
    if steps != [] {
      StepCoherent(cfg, s, steps[0]);
      StepLinear(cfg, s, steps[0]);
      RunLinear(cfg, Apply(cfg, s, steps[0]), steps[1..]);
    }
  }

  /**
   Under any order of the mutex, with any answers of the node: since the last restart the nonces of each
   signer strictly increase, and its counter is above all of them.
   */
  lemma NoncesIncrease(cfg: Config, end: State, i: nat, j: nat)
    requires Reachable(cfg, end) && end.runStart <= i < j < |end.signings|
    requires !end.signings[i].resend && !end.signings[j].resend
      && end.signings[i].signed.signer == end.signings[j].signed.signer
    ensures end.signings[i].signed.tx.nonce < end.signings[j].signed.tx.nonce
    ensures end.signings[j].signed.signer in end.nonces
    ensures end.signings[j].signed.tx.nonce < end.nonces[end.signings[j].signed.signer]
  {
    var steps :| Runs(cfg, Init(cfg), steps) && After(cfg, Init(cfg), steps) == end;
    RunLinear(cfg, Init(cfg), steps);
  }

  function NoncesSentBy(signings: seq<Signing>, a: Address): seq<nat> {
    if signings == [] then []
    else NoncesSentBy(signings[..|signings| - 1], a)
         + if SendOf(signings[|signings| - 1], a) then [signings[|signings| - 1].signed.tx.nonce] else []
  }

  /** The nonces of `a` that a step passes over: a jump to the node's count, or a send that is not stored. */
  ghost function Skipped(s: State, step: Step, a: Address): nat
    requires a in s.nonces
  {
    match step
    case Acquire(details, _, pendingCount) =>
      if details.signer == a && pendingCount > s.nonces[a] then pendingCount - s.nonces[a] else 0
    case Commit =>
      if s.mutex.Held? && s.mutex.details.signer == a && NonceSigner(s.mutex.nonce, a) in s.docs then 1 else 0
    case InsertFails =>
      if s.mutex.Held? && s.mutex.details.signer == a then 1 else 0
    case _ => 0
  }

  ghost function TotalSkipped(cfg: Config, s: State, steps: seq<Step>, a: Address): nat
    requires Coherent(s) && Runs(cfg, s, steps) && a in s.nonces
    decreases |steps|
  {
    if steps == [] then 0
    else
      StepCoherent(cfg, s, steps[0]);
      Skipped(s, steps[0], a) + TotalSkipped(cfg, Apply(cfg, s, steps[0]), steps[1..], a)
  }

  predicate NoRestart(s: State, step: Step) {
    !step.Restart?
  }

  lemma StepConserves(cfg: Config, s: State, step: Step, a: Address)
    requires Coherent(s) && Enabled(cfg, s, step) && a in s.nonces && !step.Restart?
    ensures var next := Apply(cfg, s, step);
      && a in next.nonces
      && NoncesSentBy(s.signings, a) <= NoncesSentBy(next.signings, a)
      && next.nonces[a] == s.nonces[a] + |NoncesSentBy(next.signings, a)| - |NoncesSentBy(s.signings, a)|
        + Skipped(s, step, a)
      && (|NoncesSentBy(next.signings, a)| > |NoncesSentBy(s.signings, a)| ==>
            NoncesSentBy(next.signings, a) == NoncesSentBy(s.signings, a) + [s.nonces[a]])
  {
    hide LoopCoherent, NoncesSentBy;
    var next := Apply(cfg, s, step);
    if step.Commit? {
      CommitCoherent(s);
    }
    if next.signings != s.signings {
      OneMoreSigning(s.signings, next.signings, a);
    }
  }

  lemma OneMoreSigning(signings: seq<Signing>, after: seq<Signing>, a: Address)
    requires |after| == |signings| + 1 && signings <= after
    ensures var x := after[|signings|];
      NoncesSentBy(after, a) == NoncesSentBy(signings, a) + if SendOf(x, a) then [x.signed.tx.nonce] else []
  {
    assert after[..|after| - 1] == signings;
  }

  function Range(from: nat, to: nat): seq<nat>
    decreases to - from
  {
    if from >= to then [] else [from] + Range(from + 1, to)
  }

  /**
   Conservation: over a run without restarts, every nonce the counter has gone past was either sent, or
   skipped in a step that says so. Without such a step the nonces sent are consecutive.
   */
  lemma {:induction false} NonceConservation(cfg: Config, s: State, steps: seq<Step>, a: Address)
    requires Coherent(s) && Runs(cfg, s, steps) && Always(cfg, s, steps, NoRestart) && a in s.nonces
    ensures var end := After(cfg, s, steps);
      && a in end.nonces
      && NoncesSentBy(s.signings, a) <= NoncesSentBy(end.signings, a)
      && end.nonces[a] == s.nonces[a] + |NoncesSentBy(end.signings, a)| - |NoncesSentBy(s.signings, a)|
        + TotalSkipped(cfg, s, steps, a)
      && (TotalSkipped(cfg, s, steps, a) == 0 ==>
            NoncesSentBy(end.signings, a) == NoncesSentBy(s.signings, a) + Range(s.nonces[a], end.nonces[a]))
    decreases |steps|
  {
    hide Apply, Enabled, Skipped, NoncesSentBy, WellIndexed, LoopCoherent;
    if steps != [] {
      StepCoherent(cfg, s, steps[0]);
      StepConserves(cfg, s, steps[0], a);
      NonceConservation(cfg, Apply(cfg, s, steps[0]), steps[1..], a);
    }
  }
}
