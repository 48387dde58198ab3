/** When the stake that the relay remembers is the one it has. */
module RealStake {
  import opened Events
  import opened Sorting
  import opened ServerState
  import opened Stakes
  import opened ServerRuns
  import opened Readiness

  predicate Sufficient(cfg: ServerConfig, info: StakeInfo) {
    info.stake >= cfg.managerMinStake && info.withdrawBlock == 0
  }

  /** The changes asked about that came after the last reading are in blocks after this one. */
  ghost predicate UnreadAfter(changes: seq<StakeChange>, read: nat, block: nat) {
    forall i | read <= i < |changes| && Asked(changes[i]) :: changes[i].blockNumber > block
  }

  ghost predicate TakesOver(r: Registration, info: StakeInfo) {
    info.stake != 0 ==> r.stake == info.stake && r.isStakeLocked == (info.withdrawBlock == 0)
  }

  /** What the round has read, and what it will have read before it advances the scan. */
  ghost predicate RoundReads(s: State) {
    && (s.phase.StakesFetched? && s.phase.left == 0 ==> UnreadAfter(s.stakes, s.stakeRead, s.phase.block))
    && (s.phase.Folded? ==> UnreadAfter(s.stakes, s.stakeRead, s.phase.block))
  }

  ghost predicate StakesKnown(s: State) {
    && s.stakeRead <= |s.stakes|
    && (forall c | c in s.stakes :: 0 < c.blockNumber)
    && TakesOver(s.server.registration, StakeOf(s.stakes[..s.stakeRead]))
    && UnreadAfter(s.stakes, s.stakeRead, s.server.lastScannedBlock)
    && RoundReads(s)
  }

  /** If everything asked about has been scanned and the stake is not zero, it is remembered as it is. */
  ghost predicate Agrees(changes: seq<StakeChange>, scannedTo: nat, r: Registration) {
    AllScanned(changes, scannedTo) ==> TakesOver(r, StakeOf(changes))
  }

  ghost predicate RefreshAgreed(s: State) {
    s.refresh.Some? ==>
      && s.refresh.value.stakesMade <= |s.stakes|
      && Agrees(s.stakes[..s.refresh.value.stakesMade], s.refresh.value.scannedTo, s.refresh.value.registration)
  }

  lemma StakesKnownAgrees(s: State)
    requires StakesKnown(s)
    ensures Agrees(s.stakes, s.server.lastScannedBlock, s.server.registration)
  {
    var n := |s.stakes|;
    assert s.stakes[..n] == s.stakes;
    if AllScanned(s.stakes, s.server.lastScannedBlock) && s.stakeRead < n {
      assert !Asked(s.stakes[n - 1]);
    }
  }

  lemma MineStakesKnown(cfg: ServerConfig, s: State, step: Step)
    requires StakesKnown(s) && ScansSound(s) && step.Mine? && Enabled(cfg, s, step)
    ensures StakesKnown(Apply(cfg, s, step))
  {
    hide Lawful, StakeOf, LogSound, ActiveKnown, FoldKnown, PhaseKnown;
    var stakes := s.stakes + step.changes;
    assert stakes[..s.stakeRead] == s.stakes[..s.stakeRead];
    forall block: nat | UnreadAfter(s.stakes, s.stakeRead, block) && block <= s.head
      ensures UnreadAfter(stakes, s.stakeRead, block)
    {
      forall i | s.stakeRead <= i < |stakes| && Asked(stakes[i]) ensures stakes[i].blockNumber > block {
        assert i >= |s.stakes| ==> stakes[i] in step.changes;
      }
    }
  }

  lemma FetchStakesKnown(cfg: ServerConfig, s: State)
    requires StakesKnown(s) && s.phase.Updated?
    ensures StakesKnown(Apply(cfg, s, FetchStakes))
  {
    hide StakeOf;
  }

  lemma ReadStakeKnown(s: State)
    requires StakesKnown(s) && s.phase.StakesFetched? && s.phase.left > 0
    ensures StakesKnown(StakeRead(s, StakeOf(s.stakes)))
  {
    assert s.stakes[..|s.stakes|] == s.stakes;
  }

  /** Steps that neither mine nor read. */
  lemma QuietStakesKnown(s: State, next: State)
    requires StakesKnown(s) && next.stakes == s.stakes && next.stakeRead == s.stakeRead
    requires next.server.registration.stake == s.server.registration.stake
    requires next.server.registration.isStakeLocked == s.server.registration.isStakeLocked
    requires next.server.lastScannedBlock == s.server.lastScannedBlock
      || (s.phase.Folded? && next.server.lastScannedBlock == s.phase.block)
    requires next.phase == s.phase || !(next.phase.StakesFetched? || next.phase.Folded?)
      || (s.phase.StakesFetched? && s.phase.left == 0 && next.phase == Folded(s.phase.block))
    ensures StakesKnown(next)
  {
    hide StakeOf;
  }

  lemma RestartStakesKnown(cfg: ServerConfig, s: State)
    requires StakesKnown(s)
    ensures StakesKnown(Apply(cfg, s, Restart)) && RefreshAgreed(Apply(cfg, s, Restart))
  {
  }

  lemma StepStakesKnown(cfg: ServerConfig, s: State, step: Step)
    requires StakesKnown(s) && ScansSound(s) && Enabled(cfg, s, step)
    ensures StakesKnown(Apply(cfg, s, step))
  {
    hide Filter, Fold, Latest, StableSort, IsRegistered, ShouldRefreshState, StakesKnown, ScansSound, StakeOf,
      StakeRefreshed, AskedSince, Lawful;
    match step
    case Mine(_, _, _) => MineStakesKnown(cfg, s, step);
    case FetchStakes => FetchStakesKnown(cfg, s);
    case ReadStake => ReadStakeKnown(s);
    case Restart => RestartStakesKnown(cfg, s);
    case _ => QuietStakesKnown(s, Apply(cfg, s, step));
  }

  lemma SameRefresh(s: State, next: State)
    requires RefreshAgreed(s) && s.stakes <= next.stakes && next.refresh == s.refresh
    ensures RefreshAgreed(next)
  {
    if s.refresh.Some? {
      var made := s.refresh.value.stakesMade;
      assert next.stakes[..made] == s.stakes[..made];
    }
  }

  lemma NewRefresh(next: State)
    requires StakesKnown(next) && next.refresh.Some? && next.refresh.value.registration == next.server.registration
    requires next.refresh.value.stakesMade == |next.stakes|
      && next.refresh.value.scannedTo == next.server.lastScannedBlock
    ensures RefreshAgreed(next)
  {
    hide StakesKnown, Agrees;
    StakesKnownAgrees(next);
    assert next.stakes[..|next.stakes|] == next.stakes;
  }

  /** A step that concludes a refresh records what the state is then; any other but a restart keeps the last one. */
  lemma RefreshRecords(cfg: ServerConfig, s: State, step: Step)
    requires Enabled(cfg, s, step) && !step.Restart?
    ensures var next := Apply(cfg, s, step);
      && s.stakes <= next.stakes
      && (next.refresh == s.refresh
          || (next.refresh.Some? && next.refresh.value.registration == next.server.registration
              && next.refresh.value.stakesMade == |next.stakes|
              && next.refresh.value.scannedTo == next.server.lastScannedBlock))
  {
    hide Filter, Fold, Latest, StableSort, IsRegistered, ShouldRefreshState, StakeOf, StakeRefreshed, AskedSince,
      Lawful, HubEventsFolded, LatestUpdated;
  }

  lemma StepRefreshAgreed(cfg: ServerConfig, s: State, step: Step)
    requires StakesKnown(s) && ScansSound(s) && RefreshAgreed(s) && Enabled(cfg, s, step)
    ensures RefreshAgreed(Apply(cfg, s, step))
  {
    hide StakesKnown, ScansSound, RefreshAgreed, Enabled, Apply;
    StepStakesKnown(cfg, s, step);
    var next := Apply(cfg, s, step);
    if step.Restart? {
      RestartStakesKnown(cfg, s);
    } else {
      RefreshRecords(cfg, s, step);
      if next.refresh == s.refresh {
        SameRefresh(s, next);
      } else {
        NewRefresh(next);
      }
    }
  }

  lemma {:induction false} RunStakesKnown(cfg: ServerConfig, s: State, steps: seq<Step>)
    requires StakesKnown(s) && ScansSound(s) && RefreshAgreed(s) && Runs(cfg, s, steps)
    ensures StakesKnown(After(cfg, s, steps)) && RefreshAgreed(After(cfg, s, steps))
    decreases |steps|
  {
    hide StakesKnown, ScansSound, RefreshAgreed, Apply, Enabled;
    if steps != [] {
      StepStakesKnown(cfg, s, steps[0]);
      StepScansSound(cfg, s, steps[0]);
      StepRefreshAgreed(cfg, s, steps[0]);
      RunStakesKnown(cfg, Apply(cfg, s, steps[0]), steps[1..]);
    }
  }

  lemma BootStakesKnown()
    ensures StakesKnown(BOOT) && ScansSound(BOOT) && RefreshAgreed(BOOT)
  {
  }

  /**
   In every reachable state in which all stake changes that the server asks about are in scanned blocks: the stake and
   the lock it remembers are those of the chain iff the chain's stake is not zero, or no stake was ever read since the
   process started.
   */
  lemma RememberedStakeIsRealIff(cfg: ServerConfig, steps: seq<Step>)
    requires Runs(cfg, BOOT, steps)
    requires var s := After(cfg, BOOT, steps); AllScanned(s.stakes, s.server.lastScannedBlock)
    ensures var s := After(cfg, BOOT, steps);
      var r, actual := s.server.registration, StakeOf(s.stakes);
      r.stake == actual.stake && r.isStakeLocked == Locked(actual) <==> actual.stake != 0 || s.stakeKept.None?
  {
    hide Enabled, Apply, StakeOf, StakesKnown, ScansSound, RefreshAgreed;
    BootStakesKnown();
    RunStakesKnown(cfg, BOOT, steps);
    RememberedStakeIsLastNonZero(cfg, steps);
    StakesKnownAgrees(After(cfg, BOOT, steps));
  }

  /**
   When a ready relay really has what it needs. There was an answer to a stake query before its last full refresh, and
   it meets the requirements iff its stake is not zero, or none is required and it is not being withdrawn. If all
   stake changes asked about were in scanned blocks at that refresh, the same holds of the stake the chain had then.
   */
  lemma ReadyStakeIsRealIff(cfg: ServerConfig, steps: seq<Step>)
    requires Runs(cfg, BOOT, steps) && IsReady(cfg, After(cfg, BOOT, steps).server)
    ensures var s := After(cfg, BOOT, steps);
      && s.refresh.Some? && s.refresh.value.stakeAnswer.Some? && s.refresh.value.stakesMade <= |s.stakes|
      && var r := s.refresh.value;
         var answer, actual := r.stakeAnswer.value, StakeOf(s.stakes[..r.stakesMade]);
         && (Sufficient(cfg, answer) <==> answer.stake != 0 || (cfg.managerMinStake == 0 && answer.withdrawBlock == 0))
         && (AllScanned(s.stakes[..r.stakesMade], r.scannedTo) ==>
               (Sufficient(cfg, actual) <==>
                 actual.stake != 0 || (cfg.managerMinStake == 0 && actual.withdrawBlock == 0)))
  {
    BootStakesKnown();
    RunStakesKnown(cfg, BOOT, steps);
    RunRemembers(cfg, BOOT, steps);
    ReadyIsJustified(cfg, steps);
    hide IsRegistrationValid, Runs, After, StakeRemembered, StakesKnown, StakeOf;
  }
}
