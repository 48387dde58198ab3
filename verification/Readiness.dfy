/** A relay that reports itself ready has a reason to, in every reachable state. */
module Readiness {
  import opened Prelude
  import opened Events
  import opened Sorting
  import opened ServerState
  import opened Stakes
  import opened ServerRuns

  /** How far the counter gets in so many rounds: past 2^53 - 1 it takes one more step, and stays. */
  function Counted(rounds: nat): nat {
    if rounds <= MAX_SAFE_INTEGER then rounds else MAX_SAFE_INTEGER + 1
  }

  /**
   The refresh found every requirement met: balances, stake, lock, and a registration by this manager with this URL.
   */
  predicate Passed(cfg: ServerConfig, r: FullRefresh) {
    && r.registration.balance >= cfg.managerMinBalance
    && r.registration.stake >= cfg.managerMinStake && r.registration.isStakeLocked
    && r.registration.lastRegister.Some?
    && r.registration.lastRegister.value.returnValues.relayManager == cfg.managerAddress
    && r.registration.lastRegister.value.returnValues.relayUrl == cfg.RegisterUrl()
    && r.workerBalance.Some? && r.workerBalance.value >= cfg.workerMinBalance
  }

  /** The phases after the manager's balance was found sufficient. */
  predicate BalanceChecked(phase: Phase) {
    phase.Funded? || phase.Fetched? || phase.Updated? || phase.StakesFetched? || phase.Folded? || phase.Scanned?
      || phase.Registered?
  }

  ghost predicate Justified(cfg: ServerConfig, s: State) {
    && (s.server.workerSemaphoreOn <==> InRound(s.phase))
    && (s.failed ==> s.server.lastSuccessfulRounds == Counted(s.completed))
    && (!s.failed ==> s.server.lastSuccessfulRounds >= MAX_SAFE_INTEGER)
    && (s.server.ready <==> s.refresh.Some? && s.refresh.value.passed)
    && (s.refresh.Some? ==> (s.refresh.value.passed <==> Passed(cfg, s.refresh.value)))
    && (BalanceChecked(s.phase) ==> s.server.registration.balance >= cfg.managerMinBalance)
    && (s.phase.Registered? ==> IsRegistered(cfg, s.server.registration))
  }

  /** The steps that may conclude a refresh. */
  predicate Judges(step: Step) {
    step.ReadBalance? || step.CheckRegistered? || step.ReadWorkerBalance?
  }

  /** Concluding a refresh: the flag is the verdict, and the round is counted. */
  lemma RefreshedJustified(cfg: ServerConfig, s: State, passed: bool, workerBalance: Option<nat>)
    requires s.failed ==> s.server.lastSuccessfulRounds == Counted(s.completed)
    requires !s.failed ==> s.server.lastSuccessfulRounds >= MAX_SAFE_INTEGER
    requires passed <==>
      s.server.registration.balance >= cfg.managerMinBalance && IsRegistered(cfg, s.server.registration)
                         && workerBalance.Some? && workerBalance.value >= cfg.workerMinBalance
    ensures Justified(cfg, Refreshed(s, passed, workerBalance))
  {
    hide ServerConfig.RegisterUrl;
  }

  lemma JudgingJustified(cfg: ServerConfig, s: State, step: Step)
    requires Justified(cfg, s) && Enabled(cfg, s, step) && Judges(step)
    ensures Justified(cfg, Apply(cfg, s, step))
  {
    hide Filter, Fold, Latest, StableSort, ShouldRefreshState, LatestUpdated, StakeRefreshed, HubEventsFolded, StakeOf,
      AskedSince, ServerConfig.RegisterUrl, IsRegistered, Passed, Refreshed, Lawful;
    match step
    case ReadBalance(balance) =>
      if balance < cfg.managerMinBalance {
        RefreshedJustified(cfg, s.(server := s.server.(registration := s.server.registration.(balance := balance))),
          false, None);
      }
    case CheckRegistered =>
      if !IsRegistered(cfg, s.server.registration) { RefreshedJustified(cfg, s, false, None); }
    case ReadWorkerBalance(workerBalance) =>
      RefreshedJustified(cfg, s, workerBalance >= cfg.workerMinBalance, Some(workerBalance));
  }

  /** Steps that conclude no refresh: they may count, start or end a round, or touch what is not judged. */
  lemma QuietJustified(cfg: ServerConfig, s: State, next: State)
    requires Justified(cfg, s) && next.refresh == s.refresh && next.server.ready == s.server.ready
    requires next.server.registration.balance == s.server.registration.balance
    requires next.phase.Registered? ==> s.phase.Registered? && next.server.registration == s.server.registration
    requires BalanceChecked(next.phase) ==> BalanceChecked(s.phase)
    requires next.server.workerSemaphoreOn == InRound(next.phase)
    requires next.failed ==> next.server.lastSuccessfulRounds == Counted(next.completed)
    requires !next.failed ==> next.server.lastSuccessfulRounds >= MAX_SAFE_INTEGER
    ensures Justified(cfg, next)
  {
  }

  /** What the other steps do to that. */
  lemma OtherStep(cfg: ServerConfig, s: State, step: Step)
    requires Justified(cfg, s) && Enabled(cfg, s, step) && !Judges(step) && !step.Restart?
    ensures var next := Apply(cfg, s, step);
      && next.refresh == s.refresh && next.server.ready == s.server.ready
      && next.server.registration.balance == s.server.registration.balance
      && (next.phase.Registered? ==> s.phase.Registered? && next.server.registration == s.server.registration)
      && (BalanceChecked(next.phase) ==> BalanceChecked(s.phase))
      && next.server.workerSemaphoreOn == InRound(next.phase)
      && (next.failed ==> next.server.lastSuccessfulRounds == Counted(next.completed))
      && (!next.failed ==> next.server.lastSuccessfulRounds >= MAX_SAFE_INTEGER)
  {
    hide Filter, Fold, Latest, StableSort, IsRegistered, ShouldRefreshState, Passed, Refreshed, StakeOf, AskedSince,
      Lawful;
  }

  lemma StepJustified(cfg: ServerConfig, s: State, step: Step)
    requires Justified(cfg, s) && Enabled(cfg, s, step)
    ensures Justified(cfg, Apply(cfg, s, step))
  {
    if Judges(step) {
      JudgingJustified(cfg, s, step);
    } else if step.Restart? {
      RestartJustified(cfg, s);
    } else {
      OtherStep(cfg, s, step);
      hide Justified, Apply, Enabled;
      QuietJustified(cfg, s, Apply(cfg, s, step));
    }
  }

  lemma RestartJustified(cfg: ServerConfig, s: State)
    ensures Justified(cfg, Apply(cfg, s, Restart))
  {
  }

  /** The registration judged by the last full refresh was the latest in the log as far as scanned. */
  ghost predicate RefreshCovers(s: State) {
    s.refresh.Some? ==>
      && s.refresh.value.registerSeen <= |s.log|
      && IsLatestOf(s.refresh.value.registration.lastRegister,
        Filter(s.log[..s.refresh.value.registerSeen], IsRegister))
  }

  lemma StepRefreshCovers(cfg: ServerConfig, s: State, step: Step)
    requires ScansSound(s) && RefreshCovers(s) && Enabled(cfg, s, step)
    ensures RefreshCovers(Apply(cfg, s, step))
  {
    hide Filter, IsLatestOf, StableSort, Latest, PhaseKnown, ActiveKnown;
    var next := Apply(cfg, s, step);
    if next.refresh.Some? {
      var seen := next.refresh.value.registerSeen;
      assert seen <= |s.log|;
      assert next.log[..seen] == s.log[..seen];
    }
  }

  lemma {:induction false} RunJustified(cfg: ServerConfig, s: State, steps: seq<Step>)
    requires Justified(cfg, s) && ScansSound(s) && RefreshCovers(s) && Runs(cfg, s, steps)
    ensures Justified(cfg, After(cfg, s, steps)) && RefreshCovers(After(cfg, s, steps))
    decreases |steps|
  {
    hide Justified, ScansSound, RefreshCovers, Apply, Enabled;
    if steps != [] {
      StepJustified(cfg, s, steps[0]);
      StepScansSound(cfg, s, steps[0]);
      StepRefreshCovers(cfg, s, steps[0]);
      RunJustified(cfg, Apply(cfg, s, steps[0]), steps[1..]);
    }
  }

  /**
   In every reachable state, being ready means: if a round or a block query ever failed or timed out, then at
   least `successfulRoundsForReady` rounds have completed since the last time; and the last completed full
   refresh found the manager's balance and remembered stake sufficient, the stake locked, the worker's balance
   sufficient, and a valid registration that no registration in the log it had scanned is later than.
   */
  lemma ReadyIsJustified(cfg: ServerConfig, steps: seq<Step>)
    requires Runs(cfg, BOOT, steps) && IsReady(cfg, After(cfg, BOOT, steps).server)
    ensures var s := After(cfg, BOOT, steps);
      && (s.failed ==> s.completed >= cfg.successfulRoundsForReady)
      && s.refresh.Some? && Passed(cfg, s.refresh.value)
      && s.refresh.value.registerSeen <= |s.log|
      && forall i | 0 <= i < s.refresh.value.registerSeen :: IsRegister(s.log[i]) ==>
           !IsSecondEventLater(s.refresh.value.registration.lastRegister.value, s.log[i])
  {
    RunJustified(cfg, BOOT, steps);
    var s := After(cfg, BOOT, steps);
    var known := s.log[..s.refresh.value.registerSeen];
    FilterMembers(known, IsRegister);
    forall i | 0 <= i < |known| && IsRegister(s.log[i])
      ensures !IsSecondEventLater(s.refresh.value.registration.lastRegister.value, s.log[i])
    {
      assert known[i] in known;
    }
  }

  /** And as soon as that much holds, the relay is ready. */
  lemma ReadyIff(cfg: ServerConfig, steps: seq<Step>)
    requires Runs(cfg, BOOT, steps) && cfg.successfulRoundsForReady <= MAX_SAFE_INTEGER
    ensures var s := After(cfg, BOOT, steps);
      IsReady(cfg, s.server) <==>
        && s.refresh.Some? && Passed(cfg, s.refresh.value)
        && (s.failed ==> s.completed >= cfg.successfulRoundsForReady)
  {
    hide Enabled, Apply, Passed;
    RunJustified(cfg, BOOT, steps);
  }

  /** Rounds never overlap: whenever one can start, no other is under way. */
  lemma RoundsNeverOverlap(cfg: ServerConfig, steps: seq<Step>, block: nat)
    requires Runs(cfg, BOOT, steps)
    ensures InRound(After(cfg, BOOT, steps).phase) <==> After(cfg, BOOT, steps).server.workerSemaphoreOn
    ensures Enabled(cfg, After(cfg, BOOT, steps), StartRound(block)) ==> After(cfg, BOOT, steps).phase.Idle?
  {
    RunJustified(cfg, BOOT, steps);
  }

  /** A failure takes readiness away at once, as long as any successful round is required. */
  lemma FailureUnreadies(cfg: ServerConfig, s: State, step: Step)
    requires Enabled(cfg, s, step) && (step.FailRound? || step.TimeOut? || step.BlockQueryFails?)
    requires cfg.successfulRoundsForReady > 0
    ensures !IsReady(cfg, Apply(cfg, s, step).server)
  {
  }

  // ---------- the stake ----------

  /** The remembered stake and lock are those of the last answer that was not zero, the owner that of the first. */
  ghost predicate StakeRemembered(s: State) {
    && s.server.registration.owner == (if s.stakeFirst.Some? then Some(s.stakeFirst.value.owner) else None)
    && s.server.registration.stake == (if s.stakeKept.Some? then s.stakeKept.value.stake else 0)
    && s.server.registration.isStakeLocked == (s.stakeKept.Some? && s.stakeKept.value.withdrawBlock == 0)
    && (s.stakeKept.Some? ==> s.stakeKept.value.stake != 0 && s.stakeAnswer.Some?)
    && (s.stakeAnswer.Some? && s.stakeAnswer.value.stake != 0 ==> s.stakeKept == s.stakeAnswer)
  }

  /** The same of what the last full refresh saw, as far as its last answer goes. */
  ghost predicate RefreshRemembered(s: State) {
    s.refresh.Some? ==>
      && (s.refresh.value.registration.isStakeLocked ==> s.refresh.value.stakeAnswer.Some?)
      && (s.refresh.value.stakeAnswer.Some? && s.refresh.value.stakeAnswer.value.stake != 0 ==>
            && s.refresh.value.registration.stake == s.refresh.value.stakeAnswer.value.stake
            && s.refresh.value.registration.isStakeLocked == (s.refresh.value.stakeAnswer.value.withdrawBlock == 0))
  }

  /** Steps that ask for no stake, and either conclude no refresh or record what was last answered. */
  lemma QuietRemembers(s: State, next: State)
    requires StakeRemembered(s) && RefreshRemembered(s)
    requires next.stakeAnswer == s.stakeAnswer && next.stakeKept == s.stakeKept && next.stakeFirst == s.stakeFirst
    requires next.server.registration.owner == s.server.registration.owner
    requires next.server.registration.stake == s.server.registration.stake
    requires next.server.registration.isStakeLocked == s.server.registration.isStakeLocked
    requires next.refresh == s.refresh
      || (next.refresh.Some? && next.refresh.value.registration == next.server.registration
      && next.refresh.value.stakeAnswer == s.stakeAnswer)
    ensures StakeRemembered(next) && RefreshRemembered(next)
  {
  }

  lemma ReadStakeRemembers(s: State, info: StakeInfo)
    requires StakeRemembered(s) && RefreshRemembered(s) && s.phase.StakesFetched? && s.phase.left > 0
    ensures StakeRemembered(StakeRead(s, info)) && RefreshRemembered(StakeRead(s, info))
  {
  }

  lemma StepRemembers(cfg: ServerConfig, s: State, step: Step)
    requires StakeRemembered(s) && RefreshRemembered(s) && Enabled(cfg, s, step)
    ensures StakeRemembered(Apply(cfg, s, step)) && RefreshRemembered(Apply(cfg, s, step))
  {
    hide Filter, Fold, Latest, StableSort, IsRegistered, ShouldRefreshState, StakeRefreshed, StakeRemembered,
      RefreshRemembered;
    match step
    case ReadStake => ReadStakeRemembers(s, StakeOf(s.stakes));
    case Restart => RestartRemembers(cfg, s);
    case _ => QuietRemembers(s, Apply(cfg, s, step));
  }

  lemma RestartRemembers(cfg: ServerConfig, s: State)
    ensures StakeRemembered(Apply(cfg, s, Restart)) && RefreshRemembered(Apply(cfg, s, Restart))
  {
  }

  lemma {:induction false} RunRemembers(cfg: ServerConfig, s: State, steps: seq<Step>)
    requires StakeRemembered(s) && RefreshRemembered(s) && Runs(cfg, s, steps)
    ensures StakeRemembered(After(cfg, s, steps)) && RefreshRemembered(After(cfg, s, steps))
    decreases |steps|
  {
    hide StakeRemembered, RefreshRemembered, Apply, Enabled;
    if steps != [] {
      StepRemembers(cfg, s, steps[0]);
      RunRemembers(cfg, Apply(cfg, s, steps[0]), steps[1..]);
    }
  }

  /** In every reachable state the stake that counts is that of the last answer which was not zero. */
  lemma RememberedStakeIsLastNonZero(cfg: ServerConfig, steps: seq<Step>)
    requires Runs(cfg, BOOT, steps)
    ensures StakeRemembered(After(cfg, BOOT, steps))
  {
    RunRemembers(cfg, BOOT, steps);
  }
}
