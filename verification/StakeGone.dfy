/** Relays that stay ready although their stake is gone: it was withdrawn, or taken as a penalty. */
module StakeGone {
  import opened Prelude
  import opened Events
  import opened Sorting
  import opened ServerState
  import opened Stakes
  import opened ServerRuns

  function Registered(cfg: ServerConfig): EventData {
    EventData(RelayServerRegistered, 1, 0, ReturnValues(cfg.managerAddress, cfg.RegisterUrl(), [], 0))
  }

  /** What every function of the event log makes of a log with one registration. */
  lemma OneEvent(e: EventData)
    requires e.event.RelayServerRegistered? && e.blockNumber == 1
    ensures Filter([e], IsRegister) == [e] && Filter([e], IsWorkersAdded) == [] && Filter([e], MinedAfter(0)) == [e]
    ensures forall block: nat | block > 0 :: Filter([e], MinedAfter(block)) == []
    ensures StableSort([e], NewestFirst) == [e] && Latest([e]) == Some(e)
    ensures Fold(Some(e), [e]) == Some(e)
  {
    assert [e][..0] == [] && Fold(None, [e][..0]) == None;
  }

  lemma NoEvent()
    ensures Latest([]) == None && StableSort([], NewestFirst) == []
    ensures forall last: Option<EventData> :: Fold(last, []) == last
    ensures Filter([], IsRegister) == [] && Filter([], IsWorkersAdded) == []
  {
  }

  /** Between rounds, with the registration known and the stake paid in block 1. */
  ghost predicate Waiting(cfg: ServerConfig, s: State) {
    && Reaches(cfg, BOOT, s) && s.phase.Idle? && !s.server.workerSemaphoreOn
    && s.log == [Registered(cfg)] && s.server.registration.lastRegister == Some(Registered(cfg))
    && s.server.registration.lastWorkerAdded.None?
    && s.server.lastSuccessfulRounds >= MAX_SAFE_INTEGER
      && (s.server.lastScannedBlock > 0 ==> s.server.lastActive.Some?)
  }

  /** The chain moves on, with these changes of the stake in its last block. */
  lemma Mined(cfg: ServerConfig, s: State, changes: seq<StakeChange>, newHead: nat) returns (end: State)
    requires Waiting(cfg, s) && Lawful(s.stakes + changes) && newHead > s.head
    requires forall c | c in changes :: c.blockNumber == newHead
    ensures Waiting(cfg, end) && end == s.(stakes := s.stakes + changes, head := newHead)
  {
    hide Reaches, Lawful;
    ReachesNext(cfg, BOOT, s, Mine([], changes, newHead));
    assert s.log + [] == s.log;
    end := s.(stakes := s.stakes + changes, head := newHead);
  }

  function Paid(cfg: ServerConfig): StakeChange {
    Add(1, cfg.managerMinStake, 1)
  }

  lemma OnePaid(cfg: ServerConfig)
    ensures StakeOf([Paid(cfg)]) == StakeInfo(cfg.managerMinStake, 0, 1) && AskedSince([Paid(cfg)], 0) == 1
    ensures Lawful([Paid(cfg)])
  {
    assert [Paid(cfg)][..0] == [];
  }

  /** The registration and the stake are mined before the process starts. */
  lemma BeforeStart(cfg: ServerConfig) returns (s: State)
    ensures Reaches(cfg, BOOT, s) && s == BOOT.(log := [Registered(cfg)], stakes := [Paid(cfg)], head := 1)
  {
    hide Reaches, Lawful, Registered;
    OnePaid(cfg);
    ReachesSelf(cfg, BOOT);
    assert BOOT.stakes + [Paid(cfg)] == [Paid(cfg)];
    assert BOOT.log + [Registered(cfg)] == [Registered(cfg)];
    assert Registered(cfg).blockNumber == 1 by { RegisteredFirst(cfg); }
    ReachesNext(cfg, BOOT, BOOT, Mine([Registered(cfg)], [Paid(cfg)], 1));
    s := BOOT.(log := [Registered(cfg)], stakes := [Paid(cfg)], head := 1);
  }

  lemma RegisteredFirst(cfg: ServerConfig)
    ensures Registered(cfg).event.RelayServerRegistered? && Registered(cfg).blockNumber == 1
  {
  }

  /** Up to the first round. */
  lemma Started(cfg: ServerConfig) returns (s: State)
    ensures Waiting(cfg, s) && s.head == 1 && s.stakes == [Paid(cfg)] && s.server.lastScannedBlock == 0
    ensures !s.server.ready && s.server.registration.stake == 0
  {
    hide Filter, Latest, Reaches, Registered, Lawful;
    RegisteredFirst(cfg);
    OneEvent(Registered(cfg));
    NoEvent();
    var s1 := BeforeStart(cfg);
    ReachesNext(cfg, BOOT, s1, InitWorkers);
    var s2 := Apply(cfg, s1, InitWorkers);
    ReachesNext(cfg, BOOT, s2, InitRegister);
    s := Apply(cfg, s2, InitRegister);
  }

  /** A round as far as the manager's balance. */
  lemma RoundStarts(cfg: ServerConfig, s: State) returns (end: State)
    requires Waiting(cfg, s) && s.server.lastScannedBlock < s.head && ShouldRefreshState(cfg, s.server, s.head)
    ensures Reaches(cfg, BOOT, end) && end.phase == Funded(s.head)
    ensures end == s.(phase := end.phase, server := end.server)
    ensures end.server == s.server.(workerSemaphoreOn := true, lastRefreshBlock := s.head,
                                    registration := s.server.registration.(balance := cfg.managerMinBalance))
  {
    hide Reaches, Registered;
    ReachesNext(cfg, BOOT, s, StartRound(s.head));
    var started := Apply(cfg, s, StartRound(s.head));
    ReachesNext(cfg, BOOT, started, BeginRefresh);
    var refreshing := Apply(cfg, started, BeginRefresh);
    ReachesNext(cfg, BOOT, refreshing, ReadBalance(cfg.managerMinBalance));
    end := Apply(cfg, refreshing, ReadBalance(cfg.managerMinBalance));
  }

  /** The hub events of a round. */
  lemma WindowFetched(cfg: ServerConfig, s: State) returns (end: State)
    requires Reaches(cfg, BOOT, s) && s.phase.Funded? && s.log == [Registered(cfg)]
    requires s.server.lastScannedBlock > 0 ==> s.server.lastActive.Some?
    ensures Reaches(cfg, BOOT, end) && end.stakes == s.stakes && end.log == s.log && end.head == s.head
    ensures end.phase.Updated? && end.phase.block == s.phase.block
    ensures end.phase.events == if s.server.lastScannedBlock == 0 then [Registered(cfg)] else []
    ensures end.server == s.server.(lastActive := end.server.lastActive) && end.server.lastActive.Some?
  {
    hide Filter, Latest, Reaches, StableSort, Fold, Registered;
    RegisteredFirst(cfg);
    OneEvent(Registered(cfg));
    NoEvent();
    ReachesNext(cfg, BOOT, s, Fetch);
    var fetched := Apply(cfg, s, Fetch);
    ReachesNext(cfg, BOOT, fetched, UpdateLatest);
    end := Apply(cfg, fetched, UpdateLatest);
  }

  /** One stake query for each stake event found: all answer what the chain has now. */
  lemma StakesReadOnce(cfg: ServerConfig, s: State) returns (end: State)
    requires Reaches(cfg, BOOT, s) && s.phase.Updated?
    ensures Reaches(cfg, BOOT, end) && end.stakes == s.stakes && end.log == s.log && end.head == s.head
    ensures end.phase == StakesFetched(s.phase.block, s.phase.events, s.phase.at, 0)
    ensures var found, info := AskedSince(s.stakes, s.server.lastScannedBlock), StakeOf(s.stakes);
      && end.server.registration.stake
         == (if found == 0 || info.stake == 0 then s.server.registration.stake else info.stake)
      && end.server.registration.isStakeLocked
         == (if found == 0 || info.stake == 0 then s.server.registration.isStakeLocked else info.withdrawBlock == 0)
      && (found > 0 ==> end.stakeAnswer == Some(info))
      && end.server.(registration := s.server.registration) == s.server
      && SameButStake(end.server.registration, s.server.registration)
  {
    hide Reaches, AskedSince, StakeOf;
    ReachesNext(cfg, BOOT, s, FetchStakes);
    end := Apply(cfg, s, FetchStakes);
    var found, info := AskedSince(s.stakes, s.server.lastScannedBlock), StakeOf(s.stakes);
    var i := 0;
    while i < found
      invariant i <= found && Reaches(cfg, BOOT, end)
      invariant end.stakes == s.stakes && end.log == s.log && end.head == s.head
      invariant end.phase == StakesFetched(s.phase.block, s.phase.events, s.phase.at, found - i)
      invariant end.server.registration.stake
        == if i == 0 || info.stake == 0 then s.server.registration.stake else info.stake
      invariant end.server.registration.isStakeLocked
        == if i == 0 || info.stake == 0 then s.server.registration.isStakeLocked else info.withdrawBlock == 0
      invariant i > 0 ==> end.stakeAnswer == Some(info)
      invariant end.server.(registration := s.server.registration) == s.server
      invariant SameButStake(end.server.registration, s.server.registration)
    {
      ReachesNext(cfg, BOOT, end, ReadStake);
      end := StakeRead(end, info);
      i := i + 1;
    }
  }

  predicate SameButStake(a: Registration, b: Registration) {
    a.lastRegister == b.lastRegister && a.lastWorkerAdded == b.lastWorkerAdded && a.balance == b.balance
  }

  /** The fold finds nothing new, and the scan advances. */
  lemma ScanAdvances(cfg: ServerConfig, s: State) returns (end: State)
    requires Reaches(cfg, BOOT, s) && s.phase.StakesFetched? && s.phase.left == 0
    requires s.phase.events in {[], [Registered(cfg)]}
    requires s.server.registration.lastRegister == Some(Registered(cfg)) && s.server.registration.lastWorkerAdded.None?
    ensures Reaches(cfg, BOOT, end) && end.phase == Scanned(s.phase.block)
    ensures end.server == s.server.(lastScannedBlock := s.phase.block)
    ensures end.stakes == s.stakes && end.log == s.log && end.head == s.head && end.stakeAnswer == s.stakeAnswer
  {
    hide Filter, Latest, Reaches, StableSort, Fold, Registered;
    RegisteredFirst(cfg);
    OneEvent(Registered(cfg));
    NoEvent();
    ReachesNext(cfg, BOOT, s, FoldEvents);
    var folded := Apply(cfg, s, FoldEvents);
    assert folded.server.registration == s.server.registration;
    ReachesNext(cfg, BOOT, folded, AdvanceScan);
    end := Apply(cfg, folded, AdvanceScan);
  }

  /** The rest of a round that finds everything sufficient. */
  lemma RoundEnds(cfg: ServerConfig, s: State) returns (end: State)
    requires Reaches(cfg, BOOT, s) && s.phase.Scanned? && s.log == [Registered(cfg)]
    requires s.server.registration.lastRegister == Some(Registered(cfg)) && s.server.registration.lastWorkerAdded.None?
    requires s.server.registration.stake >= cfg.managerMinStake && s.server.registration.isStakeLocked
    requires s.server.lastSuccessfulRounds >= MAX_SAFE_INTEGER && s.server.lastActive.Some?
    ensures Waiting(cfg, end) && end.server.ready && end.stakes == s.stakes && end.head == s.head
    ensures end.server.lastScannedBlock == s.server.lastScannedBlock && end.stakeAnswer == s.stakeAnswer
    ensures end.server.lastRefreshBlock == s.server.lastRefreshBlock
    ensures end.server.registration == s.server.registration
  {
    hide Reaches;
    ReachesNext(cfg, BOOT, s, CheckRegistered);
    var registered := Apply(cfg, s, CheckRegistered);
    ReachesNext(cfg, BOOT, registered, ReadWorkerBalance(cfg.workerMinBalance));
    end := Apply(cfg, registered, ReadWorkerBalance(cfg.workerMinBalance));
  }

  /** The stake that a round will leave the relay with is enough. */
  predicate WillDo(cfg: ServerConfig, s: State) {
    var info := StakeOf(s.stakes);
    if AskedSince(s.stakes, s.server.lastScannedBlock) == 0 || info.stake == 0 then
      s.server.registration.stake >= cfg.managerMinStake && s.server.registration.isStakeLocked
    else
      info.stake >= cfg.managerMinStake && info.withdrawBlock == 0
  }

  /** A whole round that makes or keeps the relay ready. */
  lemma RoundDone(cfg: ServerConfig, s: State) returns (end: State)
    requires Waiting(cfg, s) && s.server.lastScannedBlock < s.head && ShouldRefreshState(cfg, s.server, s.head)
    requires WillDo(cfg, s)
    ensures Waiting(cfg, end) && end.server.ready && end.stakes == s.stakes && end.head == s.head
    ensures end.server.lastScannedBlock == end.server.lastRefreshBlock == s.head
    ensures end.server.registration.stake >= cfg.managerMinStake && end.server.registration.isStakeLocked
    ensures AskedSince(s.stakes, s.server.lastScannedBlock) > 0 ==> end.stakeAnswer == Some(StakeOf(s.stakes))
  {
    hide Reaches, AskedSince, StakeOf, ShouldRefreshState, Registered;
    var funded := RoundStarts(cfg, s);
    var updated := WindowFetched(cfg, funded);
    var read := StakesReadOnce(cfg, updated);
    var scanned := ScanAdvances(cfg, read);
    end := RoundEnds(cfg, scanned);
  }

  /** Up to a ready relay that has been paid its stake. */
  lemma FirstRound(cfg: ServerConfig) returns (end: State)
    requires cfg.managerMinStake > 0
    ensures Waiting(cfg, end) && end.server.ready && end.stakes == [Paid(cfg)] && end.head == 1
    ensures end.server.lastScannedBlock == end.server.lastRefreshBlock == 1
    ensures end.server.registration.stake >= cfg.managerMinStake && end.server.registration.isStakeLocked
    ensures end.stakeAnswer == Some(StakeInfo(cfg.managerMinStake, 0, 1))
  {
    hide Waiting, Reaches;
    var s := Started(cfg);
    OnePaid(cfg);
    end := RoundDone(cfg, s);
  }

  /** Penalized after the first round. */
  lemma ReadyAfterPenalty(cfg: ServerConfig)
    requires cfg.managerMinStake > 0 && cfg.successfulRoundsForReady <= MAX_SAFE_INTEGER
    ensures exists end ::
      && Reaches(cfg, BOOT, end) && IsReady(cfg, end.server) && AllScanned(end.stakes, end.server.lastScannedBlock)
      && StakeOf(end.stakes).stake == 0 && end.stakeAnswer == Some(StakeInfo(cfg.managerMinStake, 0, 1))
  {
    hide Reaches;
    OnePaid(cfg);
    var s := FirstRound(cfg);
    var change := Penalize(2);
    assert (s.stakes + [change])[..1] == s.stakes;
    var end := Mined(cfg, s, [change], 2);
    assert IsReady(cfg, end.server);
  }

  /** Unlocked and withdrawn between two rounds of a ready relay: the second reads a stake of zero, and ignores it. */
  lemma ReadyWithoutStake(cfg: ServerConfig)
    requires cfg.managerMinStake > 0 && cfg.successfulRoundsForReady <= MAX_SAFE_INTEGER
    ensures exists end ::
      && Reaches(cfg, BOOT, end) && IsReady(cfg, end.server) && AllScanned(end.stakes, end.server.lastScannedBlock)
      && StakeOf(end.stakes) == UNSTAKED && end.stakeAnswer == Some(UNSTAKED)
  {
    hide Reaches;
    OnePaid(cfg);
    var s := FirstRound(cfg);
    var later := 1 + Max(1, cfg.refreshStateTimeoutBlocks);
    var unlocked := s.stakes + [Unlock(later, later)];
    var stakes := s.stakes + [Unlock(later, later), Withdraw(later)];
    assert unlocked[..1] == s.stakes && stakes[..2] == unlocked;
    assert Lawful(unlocked);
    var mined := Mined(cfg, s, [Unlock(later, later), Withdraw(later)], later);
    assert AskedSince(mined.stakes, 1) > 0 by { assert Asked(mined.stakes[2]); }
    var end := RoundDone(cfg, mined);
    assert IsReady(cfg, end.server);
  }
}
