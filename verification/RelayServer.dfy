/** The relay server object (`RelayServer.ts`): its handler, uninterrupted, is a run of the step relation. */
module RelayServers {
  import opened Prelude
  import opened Events
  import opened Sorting
  import opened ServerState
  import opened Stakes
  import opened ServerRuns

  /**
   How one stake event is dealt with: the stake query is rejected; the stake is read; or it is read, and the withdrawal
   that follows is rejected.
   */
  datatype StakeHandling = NotRead | Handled | ReadOnly

  /**
   What the outside answers during one round; a `false` or `None` is a rejected promise, at which the round stops.
   `wholeLogOk` is asked only when no active event is known; `stakeHandling` is asked for each stake event found.
   */
  datatype RoundAnswers = RoundAnswers(gasPriceOk: bool, balance: Option<nat>, eventsOk: bool, wholeLogOk: bool,
                                       stakeEventsOk: bool, stakeHandling: nat -> StakeHandling, registrationOk: bool,
                                       sweepAndBoostOk: bool, replenishOk: bool, workerBalance: Option<nat>)
  {
    ghost predicate StakesAnswered(events: nat) {
      stakeEventsOk && forall i: nat | i < events :: stakeHandling(i).Handled?
    }
  }

  /** Without a reason to ask for the whole log, its content does not matter. */
  lemma AskedOnlyWhenUnknown(server: Server, events: seq<EventData>, log: seq<EventData>)
    requires events != [] || server.lastActive.Some?
    ensures LatestUpdated(server, events, []) == LatestUpdated(server, events, log)
  {
    SortedHeadIsLatest(events);
  }

  /** The steps of the run for the query for stake events, and for each stake event it finds. */
  lemma FetchesStakes(cfg: ServerConfig, s: State, mid: State) returns (end: State)
    requires Reaches(cfg, s, mid) && mid.phase.Updated?
    ensures Reaches(cfg, s, end)
    ensures end == mid.(phase := StakesFetched(mid.phase.block, mid.phase.events, mid.phase.at,
      AskedSince(mid.stakes, mid.server.lastScannedBlock)))
  {
    hide Reaches, AskedSince;
    ReachesNext(cfg, s, mid, FetchStakes);
    end := Apply(cfg, mid, FetchStakes);
  }

  lemma ReadsStake(cfg: ServerConfig, s: State, mid: State) returns (end: State)
    requires Reaches(cfg, s, mid) && mid.phase.StakesFetched? && mid.phase.left > 0
    ensures Reaches(cfg, s, end) && end.log == mid.log && end.stakes == mid.stakes
    ensures end.phase == mid.phase.(left := mid.phase.left - 1)
    ensures end.server ==
      mid.server.(registration := StakeRefreshed(mid.server.registration, StakeOf(mid.stakes)))
  {
    hide Reaches, StakeOf, StakeRefreshed;
    ReachesNext(cfg, s, mid, ReadStake);
    end := Apply(cfg, mid, ReadStake);
  }

  lemma RefreshedTwice(r: Registration, info: StakeInfo)
    ensures StakeRefreshed(StakeRefreshed(r, info), info) == StakeRefreshed(r, info)
  {
  }

  lemma UpdatedActive(server: Server, events: seq<EventData>, log: seq<EventData>)
    ensures LatestUpdated(server, events, log).lastActive ==
      if events != [] then Latest(events) else if server.lastActive.Some? then server.lastActive else Latest(log)
  {
    SortedHeadIsLatest(events);
  }

  class RelayServer {
    const config: ServerConfig
    const registrationManager: RegistrationManager
    var lastScannedBlock: nat
    var lastRefreshBlock: nat
    var ready: bool
    var lastSuccessfulRounds: nat
    var workerSemaphoreOn: bool
    var lastMinedActiveTransaction: Option<EventData>

    function View(): Server
      reads this, registrationManager
    {
      Server(lastScannedBlock, lastRefreshBlock, ready, lastSuccessfulRounds, workerSemaphoreOn,
        lastMinedActiveTransaction, registrationManager.state)
    }

    /** What a refresh demands of the registration: stake, lock, and a registration by this manager with this URL. */
    ghost predicate FindsRegistered()
      reads registrationManager
    {
      var r := registrationManager.state;
      && r.stake >= config.managerMinStake && r.isStakeLocked && r.lastRegister.Some?
      && r.lastRegister.value.returnValues.relayManager == config.managerAddress
      && r.lastRegister.value.returnValues.relayUrl == config.RegisterUrl()
    }

    /** The state must be refreshed: the last refresh is too long ago, or the relay is not ready. */
    ghost predicate RefreshDue(block: nat)
      reads this`lastRefreshBlock, this`lastSuccessfulRounds, this`ready
    {
      block - lastRefreshBlock >= config.refreshStateTimeoutBlocks
      || lastSuccessfulRounds < config.successfulRoundsForReady || !ready
    }

    /** The stake is read only if there are stake events, and then it is what the chain has. */
    ghost function AfterStakes(r: Registration, stakes: seq<StakeChange>): Registration
      reads this`lastScannedBlock
    {
      if AskedSince(stakes, lastScannedBlock) == 0 then r else StakeRefreshed(r, StakeOf(stakes))
    }

    /** What a scan makes of the registration: the stake, and the latest of the hub events. */
    ghost function Observed(r: Registration, log: seq<EventData>, stakes: seq<StakeChange>): Registration
      reads this`lastScannedBlock
    {
      HubEventsFolded(AfterStakes(r, stakes), StableSort(Filter(log, MinedAfter(lastScannedBlock)), NewestFirst))
    }

    /** The latest active event after a scan: of the window, or else the one known, or else of the whole log. */
    ghost function LatestActive(log: seq<EventData>): Option<EventData>
      reads this`lastScannedBlock, this`lastMinedActiveTransaction
    {
      var window := Filter(log, MinedAfter(lastScannedBlock));
      if window != [] then Latest(window)
      else if lastMinedActiveTransaction.Some? then lastMinedActiveTransaction
      else Latest(log)
    }

    constructor (config: ServerConfig, registrationManager: RegistrationManager)
      ensures this.config == config && this.registrationManager == registrationManager
      ensures View() == FRESH.(registration := registrationManager.state)
    {
      this.config := config;
      this.registrationManager := registrationManager;
      lastScannedBlock, lastRefreshBlock, ready, lastSuccessfulRounds := 0, 0, false, MAX_SAFE_INTEGER;
      workerSemaphoreOn, lastMinedActiveTransaction := false, None;
    }

    /**
     `_updateLatestTxBlockNumber`; the array of events is left sorted, newest first. `wholeLog` answers the query for
     all active events, if it is asked.
     */
    method UpdateLatestTxBlockNumber(events: array<EventData>, wholeLog: Option<seq<EventData>>) returns (ok: bool)
      modifies this`lastMinedActiveTransaction, events
      ensures ok <==> wholeLog.Some? || events.Length > 0 || old(lastMinedActiveTransaction).Some?
      ensures ok ==>
        View() == LatestUpdated(old(View()), old(events[..]), if wholeLog.Some? then wholeLog.value else [])
      ensures !ok ==> View() == old(View())
      ensures events[..] == StableSort(old(events[..]), NewestFirst)
    {
      SortedHeadIsLatest(events[..]);
      var latest := GetLatestEventData(events);
      if latest.Some? {
        lastMinedActiveTransaction := latest;
      }
      if lastMinedActiveTransaction.None? {
        if wholeLog.None? {
          return false;
        }
        var all := new EventData[|wholeLog.value|](i requires 0 <= i < |wholeLog.value| => wholeLog.value[i]);
        assert all[..] == wholeLog.value;
        lastMinedActiveTransaction := GetLatestEventData(all);
      }
      ok := true;
    }

    /**
     The scan of `_handleChanges` up to the point where the scanned block advances: it gets there iff nothing is
     rejected, and otherwise stops inside the round, at the rejected await.
     */
    method Scan(currentBlock: nat, log: seq<EventData>, stakes: seq<StakeChange>, answers: RoundAnswers, ghost s: State)
      returns (ok: bool, ghost end: State)
      requires s.server == View() && s.phase == Funded(currentBlock) && s.log == log && s.stakes == stakes
      modifies this`lastMinedActiveTransaction, this`lastScannedBlock, registrationManager`state
      ensures Reaches(config, s, end) && end.server == View() && end.log == s.log
      ensures ok <==>
        && old(WindowAnswered(log, answers)) && answers.StakesAnswered(AskedSince(stakes, old(lastScannedBlock)))
        && answers.registrationOk && answers.sweepAndBoostOk
      ensures if ok then end.phase == Scanned(currentBlock) else InRound(end.phase)
      ensures lastScannedBlock == if ok then currentBlock else old(lastScannedBlock)
      ensures ok ==> registrationManager.state == old(Observed(registrationManager.state, log, stakes))
      ensures ok ==> lastMinedActiveTransaction == old(LatestActive(log))
    {
      hide StableSort, Latest, Fold, Filter, HubEventsFolded, LatestUpdated, Reaches, RoundAnswers.StakesAnswered;
      var sorted;
      ok, sorted, end := FetchAndUpdate(currentBlock, log, answers, s);
      if !ok {
        return;
      }
      ok, end := ReadStakes(stakes, answers, s, end);
      if !ok {
        return;
      }
      end := FoldAndAdvance(currentBlock, sorted, answers.registrationOk && answers.sweepAndBoostOk, s, end);
      ok := answers.registrationOk && answers.sweepAndBoostOk;
    }

    /** Folds the window; what follows may be rejected before the scanned block advances. */
    method FoldAndAdvance(currentBlock: nat, sorted: seq<EventData>, advance: bool, ghost s: State, ghost mid: State)
      returns (ghost end: State)
      requires Reaches(config, s, mid) && mid.server == View()
      requires mid.phase == StakesFetched(currentBlock, sorted, |mid.log|, 0)
      modifies this`lastScannedBlock, registrationManager`state
      ensures Reaches(config, s, end) && end.server == View() && end.log == mid.log
      ensures end.phase == if advance then Scanned(currentBlock) else Folded(currentBlock)
      ensures lastScannedBlock == if advance then currentBlock else old(lastScannedBlock)
      ensures registrationManager.state == HubEventsFolded(old(registrationManager.state), sorted)
    {
      hide StableSort, Latest, Fold, Filter, HubEventsFolded, LatestUpdated, Reaches;
      registrationManager.ObserveHubEvents(sorted);
      ReachesNext(config, s, mid, FoldEvents);
      end := Apply(config, mid, FoldEvents);
      if advance {
        lastScannedBlock := currentBlock;
        ReachesNext(config, s, end, AdvanceScan);
        end := Apply(config, end, AdvanceScan);
      }
    }

    /** The events are fetched, and the whole log too if nothing active is known. */
    predicate WindowAnswered(log: seq<EventData>, answers: RoundAnswers)
      reads this`lastScannedBlock, this`lastMinedActiveTransaction
    {
      && answers.eventsOk
      && (answers.wholeLogOk || Filter(log, MinedAfter(lastScannedBlock)) != [] || lastMinedActiveTransaction.Some?)
    }

    /** Fetches the window and updates the latest active event; the window is left sorted, newest first. */
    method FetchAndUpdate(currentBlock: nat, log: seq<EventData>, answers: RoundAnswers, ghost s: State)
      returns (ok: bool, events: seq<EventData>, ghost end: State)
      requires s.server == View() && s.phase == Funded(currentBlock) && s.log == log
      modifies this`lastMinedActiveTransaction
      ensures Reaches(config, s, end) && end.server == View() && end.log == s.log && end.stakes == s.stakes
      ensures ok <==> old(WindowAnswered(log, answers))
      ensures if ok then end.phase == Updated(currentBlock, events, |log|) else InRound(end.phase)
      ensures ok ==> events == StableSort(Filter(log, MinedAfter(lastScannedBlock)), NewestFirst)
      ensures ok ==> lastMinedActiveTransaction == old(LatestActive(log))
    {
      hide StableSort, Latest, Fold, Filter, LatestUpdated, Keeps, Reaches;
      ReachesSelf(config, s);
      end := s;
      if !answers.eventsOk {
        return false, [], s;
      }
      ReachesNext(config, s, s, Fetch);
      end := Apply(config, s, Fetch);
      var hubEvents := FetchHubEvents(log);
      ok := UpdateLatestTxBlockNumber(hubEvents, if answers.wholeLogOk then Some(log) else None);
      if !ok {
        return false, [], end;
      }
      UpdatedActive(s.server, Filter(log, MinedAfter(s.server.lastScannedBlock)), log);
      if !answers.wholeLogOk {
        AskedOnlyWhenUnknown(s.server, Filter(log, MinedAfter(s.server.lastScannedBlock)), log);
      }
      ReachesNext(config, s, end, UpdateLatest);
      end := Apply(config, end, UpdateLatest);
      events := hubEvents[..];
    }

    /**
     The stake events since the last scan are fetched, and for each of them the stake is read, as the chain has it,
     until something is rejected.
     */
    method ReadStakes(stakes: seq<StakeChange>, answers: RoundAnswers, ghost s: State, ghost mid: State)
      returns (ok: bool, ghost end: State)
      requires Reaches(config, s, mid) && mid.server == View() && mid.phase.Updated? && mid.stakes == stakes
      modifies registrationManager`state
      ensures Reaches(config, s, end) && end.server == View() && end.log == mid.log
      ensures ok <==> answers.StakesAnswered(AskedSince(stakes, old(lastScannedBlock)))
      ensures ok ==> end.phase == StakesFetched(mid.phase.block, mid.phase.events, mid.phase.at, 0)
      ensures !ok ==> InRound(end.phase)
      ensures ok ==>
        registrationManager.state == old(AfterStakes(registrationManager.state, stakes))
    {
      hide Reaches, AskedSince, StakeOf, Apply, Enabled, StakeRefreshed;
      if !answers.stakeEventsOk {
        return false, mid;
      }
      end := FetchesStakes(config, s, mid);
      var found := AskedSince(stakes, lastScannedBlock);
      for i := 0 to found
        invariant Reaches(config, s, end) && end.server == View() && end.log == mid.log && end.stakes == stakes
        invariant end.phase == StakesFetched(mid.phase.block, mid.phase.events, mid.phase.at, found - i)
        invariant forall j: nat | j < i :: answers.stakeHandling(j).Handled?
        invariant registrationManager.state ==
          if i == 0 then old(registrationManager.state)
          else StakeRefreshed(old(registrationManager.state), StakeOf(stakes))
      {
        if answers.stakeHandling(i).NotRead? {
          return false, end;
        }
        registrationManager.RefreshStake(StakeOf(stakes));
        RefreshedTwice(old(registrationManager.state), StakeOf(stakes));
        end := ReadsStake(config, s, end);
        if answers.stakeHandling(i).ReadOnly? {
          return false, end;
        }
      }
      ok := true;
    }

    method IsReadyNow() returns (r: bool)
      ensures r == IsReady(config, View())
      ensures r <==> ready && lastSuccessfulRounds >= config.successfulRoundsForReady
    {
      if lastSuccessfulRounds < config.successfulRoundsForReady {
        return false;
      }
      return ready;
    }

    /** The end of `_handleChanges`, once the scan has advanced. */
    method Conclude(answers: RoundAnswers, ghost s: State, ghost mid: State) returns (ok: bool, ghost end: State)
      requires Reaches(config, s, mid) && mid.server == View() && mid.phase.Scanned?
      modifies this`ready
      ensures ok <==> (FindsRegistered() ==> answers.replenishOk && answers.workerBalance.Some?)
      ensures ready ==
        if ok then FindsRegistered() && answers.workerBalance.value >= config.workerMinBalance else old(ready)
      ensures Reaches(config, s, end)
      ensures ok ==> end.phase.Idle? && end.server == RoundCompleted(View())
      ensures !ok ==> InRound(end.phase) && end.server == View()
    {
      ReachesNext(config, s, mid, CheckRegistered);
      end := Apply(config, mid, CheckRegistered);
      if !IsRegistered(config, registrationManager.state) {
        ready := false;
        return true, end;
      }
      if !answers.replenishOk {
        return false, end;
      }
      if answers.workerBalance.None? {
        return false, end;
      }
      var workerBalance := answers.workerBalance.value;
      ReachesNext(config, s, end, ReadWorkerBalance(workerBalance));
      end := Apply(config, end, ReadWorkerBalance(workerBalance));
      ready := workerBalance >= config.workerMinBalance;
      ok := true;
    }

    /** `_handleChanges`: the scan, and then what it leads to. */
    method HandleChanges(blockNumber: nat, log: seq<EventData>, stakes: seq<StakeChange>, answers: RoundAnswers,
        ghost s: State)
      returns (ok: bool, ghost end: State)
      requires s.server == View() && s.phase == Funded(blockNumber) && s.log == log && s.stakes == stakes
      modifies this`lastMinedActiveTransaction, this`lastScannedBlock, this`ready, registrationManager`state
      ensures Reaches(config, s, end)
      ensures ok ==> end.phase.Idle? && end.server == RoundCompleted(View())
      ensures !ok ==> InRound(end.phase) && end.server == View()
      ensures var scanned := old(ScanAnswered(log, stakes, answers));
        && (ok <==> scanned && (FindsRegistered() ==> answers.replenishOk && answers.workerBalance.Some?))
        && lastScannedBlock == (if scanned then blockNumber else old(lastScannedBlock))
        && (scanned ==>
              && registrationManager.state == old(Observed(registrationManager.state, log, stakes))
              && lastMinedActiveTransaction == old(LatestActive(log)))
      ensures ready ==
        if ok then FindsRegistered() && answers.workerBalance.value >= config.workerMinBalance else old(ready)
    {
      hide Reaches, HubEventsFolded, Filter, StableSort, WindowAnswered, Observed, LatestActive, AskedSince,
        FindsRegistered, RoundAnswers.StakesAnswered;
      ok, end := Scan(blockNumber, log, stakes, answers, s);
      if ok {
        ok, end := Conclude(answers, s, end);
      }
    }

    /** Nothing is rejected on the way to the point where the scanned block advances. */
    ghost predicate ScanAnswered(log: seq<EventData>, stakes: seq<StakeChange>, answers: RoundAnswers)
      reads this`lastScannedBlock, this`lastMinedActiveTransaction
    {
      && WindowAnswered(log, answers) && answers.StakesAnswered(AskedSince(stakes, lastScannedBlock))
      && answers.registrationOk && answers.sweepAndBoostOk
    }

    /**
     What a round does, in terms of the fields and the answers: it succeeds iff nothing it comes to ask is rejected, and
     moves the marks of refresh and scan, the observations and the ready flag exactly as far as it gets.
     */
    twostate predicate RoundDone(block: nat, log: seq<EventData>, stakes: seq<StakeChange>, answers: RoundAnswers,
        ok: bool)
      reads this`lastRefreshBlock, this`lastScannedBlock, this`ready, this`lastMinedActiveTransaction,
        registrationManager
    {
      var due := old(RefreshDue(block));
      var asked := due && answers.gasPriceOk && answers.balance.Some?;
      var funded := asked && answers.balance.value >= config.managerMinBalance;
      var scanned := funded && old(ScanAnswered(log, stakes, answers));
      && (ok <==> !due || (asked && !funded)
                  || (scanned && (FindsRegistered() ==> answers.replenishOk && answers.workerBalance.Some?)))
      && lastRefreshBlock == (if due then block else old(lastRefreshBlock))
      && lastScannedBlock == (if scanned then block else old(lastScannedBlock))
      && (scanned ==>
            && registrationManager.state
               == old(Observed(registrationManager.state.(balance := answers.balance.value), log, stakes))
            && lastMinedActiveTransaction == old(LatestActive(log)))
      && (due && ok && !scanned ==>
            registrationManager.state == old(registrationManager.state).(balance := answers.balance.value))
      && (!due ==>
            registrationManager.state == old(registrationManager.state)
            && lastMinedActiveTransaction == old(lastMinedActiveTransaction))
      && ready ==
         if due && ok then
           scanned && FindsRegistered() && answers.workerBalance.value >= config.workerMinBalance
         else old(ready)
    }

    /** The start of a refresh: gas price and balance. Too low a balance ends the round. */
    method RefreshFunds(blockNumber: nat, answers: RoundAnswers, ghost s: State)
      returns (ok: bool, enough: bool, ghost end: State)
      requires s.server == View() && s.phase == Started(blockNumber) && ShouldRefreshState(config, View(), blockNumber)
      modifies this`lastRefreshBlock, this`ready, registrationManager`state
      ensures Reaches(config, s, end) && end.log == s.log && end.stakes == s.stakes
      ensures ok <==> answers.gasPriceOk && answers.balance.Some?
      ensures enough <==> ok && answers.balance.value >= config.managerMinBalance
      ensures lastRefreshBlock == blockNumber && ready == (if ok && !enough then false else old(ready))
      ensures ok ==> registrationManager.state == old(registrationManager.state).(balance := answers.balance.value)
      ensures !ok ==> InRound(end.phase) && end.server == View()
      ensures enough ==> end.phase == Funded(blockNumber) && end.server == View()
      ensures ok && !enough ==> end.phase.Idle? && end.server == RoundCompleted(View())
    {
      hide Reaches, ShouldRefreshState, IsRegistered;
      enough := false;
      ReachesSelf(config, s);
      ReachesNext(config, s, s, BeginRefresh);
      end := Apply(config, s, BeginRefresh);
      lastRefreshBlock := blockNumber;
      if !answers.gasPriceOk || answers.balance.None? {
        return false, false, end;
      }
      var balance := answers.balance.value;
      registrationManager.ReadBalance(balance);
      ReachesNext(config, s, end, ServerRuns.Step.ReadBalance(balance));
      end := Apply(config, end, ServerRuns.Step.ReadBalance(balance));
      enough := balance >= config.managerMinBalance;
      if !enough {
        ready := false;
      }
      ok := true;
    }

    /** `_worker`: on success the round is complete but for the bookkeeping of `_workerSemaphore`. */
    method Worker(blockNumber: nat, log: seq<EventData>, stakes: seq<StakeChange>, answers: RoundAnswers,
        ghost s: State)
      returns (ok: bool, ghost end: State)
      requires s.server == View() && s.phase == Started(blockNumber) && s.log == log && s.stakes == stakes
      modifies this`lastMinedActiveTransaction, this`lastScannedBlock, this`lastRefreshBlock, this`ready,
               registrationManager`state
      ensures Reaches(config, s, end)
      ensures ok ==> end.phase.Idle? && end.server == RoundCompleted(View())
      ensures !ok ==> InRound(end.phase) && end.server == View()
      ensures RoundDone(blockNumber, log, stakes, answers, ok)
    {
      hide Reaches, LatestUpdated, HubEventsFolded, Filter, StableSort, IsRegistered, WindowAnswered, Observed,
        LatestActive, AskedSince, FindsRegistered, RoundAnswers.StakesAnswered;
      ReachesSelf(config, s);
      end := s;
      var isReady := IsReadyNow();
      if !(blockNumber - lastRefreshBlock >= config.refreshStateTimeoutBlocks || !isReady) {
        ReachesNext(config, s, end, SkipRefresh);
        return true, Apply(config, end, SkipRefresh);
      }
      var enough;
      ok, enough, end := RefreshFunds(blockNumber, answers, s);
      if !ok || !enough {
        return ok, end;
      }
      ghost var before := end;
      ok, end := HandleChanges(blockNumber, log, stakes, answers, before);
      ReachesTrans(config, s, before, end);
    }

    /** `_workerSemaphore`: at most one round at a time; a failed round is left to the caller to count. */
    method WorkerSemaphore(blockNumber: nat, log: seq<EventData>, stakes: seq<StakeChange>, answers: RoundAnswers,
                           ghost s: State)
      returns (ok: bool, ghost end: State)
      requires s.server == View() && s.log == log && s.stakes == stakes && !s.phase.BootWorkers?
        && !s.phase.BootRegister?
      requires workerSemaphoreOn <==> InRound(s.phase)
      requires lastScannedBlock < blockNumber <= s.head
      modifies this, registrationManager`state
      ensures workerSemaphoreOn == old(workerSemaphoreOn)
      ensures Reaches(config, s, end) && (workerSemaphoreOn <==> InRound(end.phase))
      ensures end.server == if ok then View() else View().(lastSuccessfulRounds := 0)
      ensures old(workerSemaphoreOn) ==> ok && View() == old(View())
      ensures !old(workerSemaphoreOn) ==> RoundDone(blockNumber, log, stakes, answers, ok)
      ensures lastSuccessfulRounds == old(lastSuccessfulRounds)
        + if !old(workerSemaphoreOn) && ok && old(lastSuccessfulRounds) <= 9007199254740991 then 1 else 0
    {
      hide Reaches, ShouldRefreshState, IsRegistered, LatestUpdated, HubEventsFolded, Filter, StableSort, Observed,
        FindsRegistered, AskedSince, RoundAnswers.StakesAnswered, ScanAnswered, LatestActive, RefreshDue,
        WindowAnswered, IsReady, StakeOf, Lawful, StakeRefreshed;
      ReachesSelf(config, s);
      if workerSemaphoreOn {
        return true, s;
      }
      workerSemaphoreOn := true;
      ReachesNext(config, s, s, StartRound(blockNumber));
      ghost var started := Apply(config, s, StartRound(blockNumber));
      ok, end := Worker(blockNumber, log, stakes, answers, started);
      ReachesTrans(config, s, started, end);
      if ok {
        lastSuccessfulRounds := Increment(lastSuccessfulRounds);
      } else {
        ReachesNext(config, s, end, FailRound);
        end := Apply(config, end, FailRound);
      }
      workerSemaphoreOn := false;
    }

    /** `intervalHandler`: a round for a block not scanned yet; failures reset the count. */
    method IntervalHandler(latest: Option<nat>, log: seq<EventData>, stakes: seq<StakeChange>, answers: RoundAnswers,
                           ghost s: State)
      returns (ghost end: State)
      requires s.server == View() && s.log == log && s.stakes == stakes && (workerSemaphoreOn <==> InRound(s.phase))
      requires !s.phase.BootWorkers? && !s.phase.BootRegister?
      requires latest.Some? ==> latest.value <= s.head
      modifies this, registrationManager`state
      ensures Reaches(config, s, end) && end.server == View()
      ensures workerSemaphoreOn == old(workerSemaphoreOn) && (workerSemaphoreOn <==> InRound(end.phase))
      ensures latest.None? ==> View() == old(View()).(lastSuccessfulRounds := 0)
      ensures latest.Some? && (latest.value <= old(lastScannedBlock) || old(workerSemaphoreOn)) ==>
        View() == old(View())
      ensures latest.Some? && latest.value > old(lastScannedBlock) && !old(workerSemaphoreOn) ==>
        && RoundDone(latest.value, log, stakes, answers, lastSuccessfulRounds > 0)
        && lastSuccessfulRounds in {0, old(lastSuccessfulRounds) + 1, old(lastSuccessfulRounds)}
        && (lastSuccessfulRounds > 0 && old(lastSuccessfulRounds) <= 9007199254740991 ==>
              lastSuccessfulRounds == old(lastSuccessfulRounds) + 1)
    {
      hide Reaches, Filter, StableSort, Observed, FindsRegistered, AskedSince, RoundAnswers.StakesAnswered,
        ScanAnswered, LatestActive, RefreshDue, WindowAnswered;
      ReachesSelf(config, s);
      end := s;
      if latest.None? {
        lastSuccessfulRounds := 0;
        ReachesNext(config, s, s, BlockQueryFails);
        end := Apply(config, s, BlockQueryFails);
      } else if latest.value > lastScannedBlock {
        var ok;
        ok, end := WorkerSemaphore(latest.value, log, stakes, answers, s);
        if !ok {
          lastSuccessfulRounds := 0;
        }
      }
    }

    /**
     `getAllHubEventsSinceLastScan`, as a new array: exactly the events after the last scanned block, in their order.
     */
    method FetchHubEvents(log: seq<EventData>) returns (events: array<EventData>)
      ensures fresh(events) && events[..] == Filter(log, MinedAfter(lastScannedBlock))
      ensures Keeps(events[..], log, MinedAfter(lastScannedBlock))
    {
      FilterKeeps(log, MinedAfter(lastScannedBlock));
      var found := Filter(log, MinedAfter(lastScannedBlock));
      events := new EventData[|found|](i requires 0 <= i < |found| => found[i]);
    }
  }
}
