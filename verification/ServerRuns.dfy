/**
 The background worker of the relay server as a step relation: rounds may fail at any point, time out
 while running, and be skipped; the chain grows meanwhile; the process restarts.
 */
module ServerRuns {
  import opened Prelude
  import opened Events
  import opened Sorting
  import opened ServerState
  import opened Stakes

  /**
   How far the current round has come. `at` is the length of the event log when it was fetched, `left` the number of
   stake events fetched for which the stake has not been read yet.
   */
  datatype Phase =
    | BootWorkers
    | BootRegister
    | Idle
    | Started(block: nat)
    | Refreshing(block: nat)
    | Funded(block: nat)
    | Fetched(block: nat, events: seq<EventData>, at: nat)
    | Updated(block: nat, events: seq<EventData>, at: nat)
    | StakesFetched(block: nat, events: seq<EventData>, at: nat, left: nat)
    | Folded(block: nat)
    | Scanned(block: nat)
    | Registered(block: nat)

  /**
   What the last completed full refresh found; `registerSeen` is how much of the log its registration covers,
   `stakeAnswer` the last answer to a stake query by then, `stakesMade` the number of changes of the stake on the
   chain by then, and `scannedTo` the last scanned block.
   */
  datatype FullRefresh = FullRefresh(passed: bool, registration: Registration, workerBalance: Option<nat>,
                                     registerSeen: nat, stakeAnswer: Option<StakeInfo>, stakesMade: nat,
                                     scannedTo: nat)

  /**
   `log` is the manager's hub events in the order of the chain, `stakes` the changes of its stake, `head` the last
   block. `activeSeen`, `registerSeen` and `workersSeen` are the lengths of the log known when the fields were last
   updated; they, `failed`, `completed` (rounds completed since the last failure), `refresh`, `stakeAnswer` (the last
   answer to a stake query of this run of the process), `stakeFirst` and `stakeKept` (the first and the last that were
   not zero) and `stakeRead` (the number of changes made by the last stake query of this run) only record.
   */
  datatype State = State(server: Server, phase: Phase, log: seq<EventData>, stakes: seq<StakeChange>, head: nat,
                         activeSeen: nat, registerSeen: nat, workersSeen: nat, failed: bool, completed: nat,
                         refresh: Option<FullRefresh>, stakeAnswer: Option<StakeInfo>, stakeFirst: Option<StakeInfo>,
                         stakeKept: Option<StakeInfo>, stakeRead: nat)

  datatype Step =
    | Mine(events: seq<EventData>, changes: seq<StakeChange>, newHead: nat)
    | InitWorkers
    | InitRegister
    | TimeOut
    | BlockQueryFails
    | StartRound(block: nat)
    | SkipRefresh
    | BeginRefresh
    | ReadBalance(balance: nat)
    | Fetch
    | UpdateLatest
    | FetchStakes
    | ReadStake
    | FoldEvents
    | AdvanceScan
    | CheckRegistered
    | ReadWorkerBalance(workerBalance: nat)
    | FailRound
    | Restart

  const BOOT := State(FRESH, BootWorkers, [], [], 0, 0, 0, 0, false, 0, None, None, None, None, 0)

  predicate InRound(phase: Phase) {
    !phase.BootWorkers? && !phase.BootRegister? && !phase.Idle?
  }

  ghost predicate Enabled(cfg: ServerConfig, s: State, step: Step) {
    match step
    case Mine(events, changes, newHead) =>
      && newHead > s.head && (forall e | e in events :: s.head < e.blockNumber <= newHead)
      && Lawful(s.stakes + changes) && forall c | c in changes :: s.head < c.blockNumber <= newHead
    case InitWorkers => s.phase.BootWorkers?
    case InitRegister => s.phase.BootRegister?
    case TimeOut => !s.phase.BootWorkers? && !s.phase.BootRegister?
    case BlockQueryFails => !s.phase.BootWorkers? && !s.phase.BootRegister?
    // the semaphore is off, and the node has shown a block not scanned yet
    case StartRound(block) => !s.phase.BootWorkers? && !s.phase.BootRegister? && !s.server.workerSemaphoreOn
                              && s.server.lastScannedBlock < block <= s.head
    case SkipRefresh => s.phase.Started? && !ShouldRefreshState(cfg, s.server, s.phase.block)
    case BeginRefresh => s.phase.Started? && ShouldRefreshState(cfg, s.server, s.phase.block)
    case ReadBalance(balance) => s.phase.Refreshing?
    case Fetch => s.phase.Funded?
    case UpdateLatest => s.phase.Fetched?
    case FetchStakes => s.phase.Updated?
    case ReadStake => s.phase.StakesFetched? && s.phase.left > 0
    case FoldEvents => s.phase.StakesFetched? && s.phase.left == 0
    case AdvanceScan => s.phase.Folded?
    case CheckRegistered => s.phase.Scanned?
    case ReadWorkerBalance(workerBalance) => s.phase.Registered?
    case FailRound => InRound(s.phase)
    case Restart => true
  }

  function Failing(s: State): State {
    s.(failed := true, completed := 0)
  }

  function Completing(s: State): State {
    s.(server := RoundCompleted(s.server), phase := Idle, completed := s.completed + 1)
  }

  /** The end of a full refresh: the ready state is set, and the round completes. */
  function Refreshed(s: State, passed: bool, workerBalance: Option<nat>): State {
    Completing(s.(server := s.server.(ready := passed),
                  refresh := Some(FullRefresh(passed, s.server.registration, workerBalance, s.registerSeen,
                    s.stakeAnswer, |s.stakes|, s.server.lastScannedBlock))))
  }

  /** One `refreshStake`: the chain is asked for the stake as it is now. */
  function StakeRead(s: State, info: StakeInfo): State
    requires s.phase.StakesFetched? && s.phase.left > 0
  {
    s.(server := s.server.(registration := StakeRefreshed(s.server.registration, info)),
       phase := s.phase.(left := s.phase.left - 1), stakeAnswer := Some(info),
       stakeFirst := if info.stake == 0 || s.stakeFirst.Some? then s.stakeFirst else Some(info),
       stakeKept := if info.stake == 0 then s.stakeKept else Some(info), stakeRead := |s.stakes|)
  }

  function Apply(cfg: ServerConfig, s: State, step: Step): State
    requires Enabled(cfg, s, step)
  {
    match step
    case Mine(events, changes, newHead) => s.(log := s.log + events, stakes := s.stakes + changes, head := newHead)
    case InitWorkers =>
      var latest := Latest(Filter(s.log, IsWorkersAdded));
      s.(server := s.server.(registration := s.server.registration.(lastWorkerAdded := latest)),
         phase := BootRegister, workersSeen := |s.log|)
    case InitRegister =>
      s.(server := s.server.(registration := s.server.registration.(lastRegister := Latest(Filter(s.log, IsRegister)))),
         phase := Idle, registerSeen := |s.log|)
    case TimeOut => Failing(s.(server := s.server.(lastSuccessfulRounds := 0)))
    case BlockQueryFails => Failing(s.(server := s.server.(lastSuccessfulRounds := 0)))
    case StartRound(block) => s.(server := s.server.(workerSemaphoreOn := true), phase := Started(block))
    case SkipRefresh => Completing(s)
    case BeginRefresh => s.(server := s.server.(lastRefreshBlock := s.phase.block), phase := Refreshing(s.phase.block))
    case ReadBalance(balance) =>
      var read := s.(server := s.server.(registration := s.server.registration.(balance := balance)));
      if balance < cfg.managerMinBalance then Refreshed(read, false, None) else read.(phase := Funded(s.phase.block))
    case Fetch => s.(phase := Fetched(s.phase.block, Filter(s.log, MinedAfter(s.server.lastScannedBlock)), |s.log|))
    case UpdateLatest =>
      s.(server := LatestUpdated(s.server, s.phase.events, s.log),
         phase := Updated(s.phase.block, StableSort(s.phase.events, NewestFirst), s.phase.at),
         activeSeen := if s.phase.events == [] && s.server.lastActive.None? then |s.log| else s.phase.at)
    case FetchStakes =>
      s.(phase := StakesFetched(s.phase.block, s.phase.events, s.phase.at,
        AskedSince(s.stakes, s.server.lastScannedBlock)))
    case ReadStake => StakeRead(s, StakeOf(s.stakes))
    case FoldEvents =>
      s.(server := s.server.(registration := HubEventsFolded(s.server.registration, s.phase.events)),
         phase := Folded(s.phase.block), registerSeen := s.phase.at, workersSeen := s.phase.at)
    case AdvanceScan => s.(server := s.server.(lastScannedBlock := s.phase.block), phase := Scanned(s.phase.block))
    case CheckRegistered =>
      if IsRegistered(cfg, s.server.registration) then s.(phase := Registered(s.phase.block))
        else Refreshed(s, false, None)
    case ReadWorkerBalance(workerBalance) => Refreshed(s, workerBalance >= cfg.workerMinBalance, Some(workerBalance))
    case FailRound => Failing(s.(server := RoundFailed(s.server), phase := Idle))
    case Restart => BOOT.(log := s.log, stakes := s.stakes, head := s.head)
  }

  ghost predicate Runs(cfg: ServerConfig, s: State, steps: seq<Step>)
    decreases |steps|
  {
    steps == [] || (Enabled(cfg, s, steps[0]) && Runs(cfg, Apply(cfg, s, steps[0]), steps[1..]))
  }

  ghost function After(cfg: ServerConfig, s: State, steps: seq<Step>): State
    requires Runs(cfg, s, steps)
    decreases |steps|
  {
    if steps == [] then s else After(cfg, Apply(cfg, s, steps[0]), steps[1..])
  }

  /** `end` is reached from `s` by some run. */
  ghost predicate Reaches(cfg: ServerConfig, s: State, end: State) {
    exists steps :: Runs(cfg, s, steps) && After(cfg, s, steps) == end
  }

  lemma {:induction false} RunsSnoc(cfg: ServerConfig, s: State, steps: seq<Step>, step: Step)
    requires Runs(cfg, s, steps) && Enabled(cfg, After(cfg, s, steps), step)
    ensures Runs(cfg, s, steps + [step]) && After(cfg, s, steps + [step]) == Apply(cfg, After(cfg, s, steps), step)
    decreases |steps|
  {
    hide Apply, Enabled;
    if steps == [] {
      assert (steps + [step])[1..] == [];
    } else {
      RunsSnoc(cfg, Apply(cfg, s, steps[0]), steps[1..], step);
      assert (steps + [step])[1..] == steps[1..] + [step];
    }
  }

  lemma ReachesSelf(cfg: ServerConfig, s: State)
    ensures Reaches(cfg, s, s)
  {
    assert Runs(cfg, s, []);
  }

  lemma ReachesNext(cfg: ServerConfig, s: State, mid: State, step: Step)
    requires Reaches(cfg, s, mid) && Enabled(cfg, mid, step)
    ensures Reaches(cfg, s, Apply(cfg, mid, step))
  {
    hide Apply, Enabled;
    var steps :| Runs(cfg, s, steps) && After(cfg, s, steps) == mid;
    RunsSnoc(cfg, s, steps, step);
  }

  lemma ReachesTrans(cfg: ServerConfig, s: State, mid: State, end: State)
    requires Reaches(cfg, s, mid) && Reaches(cfg, mid, end)
    ensures Reaches(cfg, s, end)
  {
    var tail :| Runs(cfg, mid, tail) && After(cfg, mid, tail) == end;
    ReachesAll(cfg, s, mid, tail);
  }

  lemma {:induction false} ReachesAll(cfg: ServerConfig, s: State, mid: State, tail: seq<Step>)
    requires Reaches(cfg, s, mid) && Runs(cfg, mid, tail)
    ensures Reaches(cfg, s, After(cfg, mid, tail))
    decreases |tail|
  {
    hide Apply, Enabled, Reaches;
    if tail != [] {
      ReachesNext(cfg, s, mid, tail[0]);
      ReachesAll(cfg, s, Apply(cfg, mid, tail[0]), tail[1..]);
    }
  }

  // ---------- what the scans know of the log ----------

  ghost predicate AllAfter(log: seq<EventData>, seen: nat, block: nat) {
    forall i | seen <= i < |log| :: log[i].blockNumber > block
  }

  ghost predicate LogSound(log: seq<EventData>, head: nat) {
    forall e | e in log :: 0 < e.blockNumber <= head
  }

  /** The remembered event is the latest of the part of the log seen, and nothing unseen is in a scanned block. */
  ghost predicate ActiveKnown(last: Option<EventData>, log: seq<EventData>, seen: nat, lastScannedBlock: nat) {
    seen <= |log| && last == Latest(log[..seen]) && AllAfter(log, seen, lastScannedBlock)
  }

  ghost predicate FoldKnown(last: Option<EventData>, log: seq<EventData>, seen: nat, keep: EventData -> bool,
      lastScannedBlock: nat)
  {
    seen <= |log| && IsLatestOf(last, Filter(log[..seen], keep)) && AllAfter(log, seen, lastScannedBlock)
  }

  /** The window of the round, in whatever order, has been taken into account for the latest active event. */
  ghost predicate WindowKnown(s: State)
    requires s.phase.Updated? || s.phase.StakesFetched?
  {
    var events, at := s.phase.events, s.phase.at;
    && at <= s.activeSeen && s.registerSeen <= at <= |s.log| && s.workersSeen <= at
    && (forall e :: e in events <==> e in Filter(s.log[..at], MinedAfter(s.server.lastScannedBlock)))
    && AllAfter(s.log, at, s.phase.block)
  }

  /** What each phase of a round may rely on. */
  ghost predicate PhaseKnown(s: State) {
    match s.phase
    case Fetched(block, events, at) =>
      && s.activeSeen <= at <= |s.log| && s.registerSeen <= at && s.workersSeen <= at
      && events == Filter(s.log[..at], MinedAfter(s.server.lastScannedBlock))
      && AllAfter(s.log, at, block)
    case Updated(_, _, _) => WindowKnown(s)
    case StakesFetched(_, _, _, _) => WindowKnown(s)
    case Folded(block) =>
      AllAfter(s.log, s.activeSeen, block) && AllAfter(s.log, s.registerSeen, block)
        && AllAfter(s.log, s.workersSeen, block)
    case _ => true
  }

  /** The phases of a round before its scan advances. */
  predicate Unscanned(phase: Phase) {
    phase.Started? || phase.Refreshing? || phase.Funded? || phase.Fetched? || phase.Updated? || phase.StakesFetched?
    || phase.Folded?
  }

  /** Until the scan advances, the block of the round is ahead of what is scanned. */
  ghost predicate BlockAhead(s: State) {
    && (Unscanned(s.phase) ==> s.server.lastScannedBlock < s.phase.block <= s.head)
    && (s.phase.BootWorkers? || s.phase.BootRegister? ==> s.server.lastScannedBlock == 0)
    && s.server.lastScannedBlock <= s.head
  }

  ghost predicate ScansSound(s: State) {
    && LogSound(s.log, s.head)
    && BlockAhead(s)
    && ActiveKnown(s.server.lastActive, s.log, s.activeSeen, s.server.lastScannedBlock)
    && FoldKnown(s.server.registration.lastRegister, s.log, s.registerSeen, IsRegister, s.server.lastScannedBlock)
    && FoldKnown(s.server.registration.lastWorkerAdded, s.log, s.workersSeen, IsWorkersAdded, s.server.lastScannedBlock)
    && PhaseKnown(s)
  }

  lemma LaterIsAfter(log: seq<EventData>, more: seq<EventData>, seen: nat, block: nat, head: nat)
    requires AllAfter(log, seen, block) && block <= head && forall e | e in more :: head < e.blockNumber
    ensures AllAfter(log + more, seen, block)
  {
  }

  lemma FoldKnownGrows(last: Option<EventData>, log: seq<EventData>, more: seq<EventData>, seen: nat,
      keep: EventData -> bool, block: nat, head: nat)
    requires FoldKnown(last, log, seen, keep, block) && block <= head && forall e | e in more :: head < e.blockNumber
    ensures FoldKnown(last, log + more, seen, keep, block)
  {
    LaterIsAfter(log, more, seen, block, head);
    assert (log + more)[..seen] == log[..seen];
  }

  lemma ActiveKnownGrows(last: Option<EventData>, log: seq<EventData>, more: seq<EventData>, seen: nat, block: nat,
      head: nat)
    requires ActiveKnown(last, log, seen, block) && block <= head && forall e | e in more :: head < e.blockNumber
    ensures ActiveKnown(last, log + more, seen, block)
  {
    LaterIsAfter(log, more, seen, block, head);
    assert (log + more)[..seen] == log[..seen];
  }

  lemma PhaseKnownGrows(s: State, more: seq<EventData>)
    requires PhaseKnown(s) && BlockAhead(s) && forall e | e in more :: s.head < e.blockNumber
    ensures PhaseKnown(s.(log := s.log + more))
  {
    hide AllAfter;
    if s.phase.Fetched? || s.phase.Updated? || s.phase.StakesFetched? {
      LaterIsAfter(s.log, more, s.phase.at, s.phase.block, s.head);
      assert (s.log + more)[..s.phase.at] == s.log[..s.phase.at];
    } else if s.phase.Folded? {
      LaterIsAfter(s.log, more, s.activeSeen, s.phase.block, s.head);
      LaterIsAfter(s.log, more, s.registerSeen, s.phase.block, s.head);
      LaterIsAfter(s.log, more, s.workersSeen, s.phase.block, s.head);
    }
  }

  lemma MineSound(cfg: ServerConfig, s: State, step: Step)
    requires ScansSound(s) && step.Mine? && Enabled(cfg, s, step)
    ensures ScansSound(Apply(cfg, s, step))
  {
    hide Lawful, ActiveKnown, FoldKnown, PhaseKnown;
    var r, scanned := s.server.registration, s.server.lastScannedBlock;
    ActiveKnownGrows(s.server.lastActive, s.log, step.events, s.activeSeen, scanned, s.head);
    FoldKnownGrows(r.lastRegister, s.log, step.events, s.registerSeen, IsRegister, scanned, s.head);
    FoldKnownGrows(r.lastWorkerAdded, s.log, step.events, s.workersSeen, IsWorkersAdded, scanned, s.head);
    PhaseKnownGrows(s, step.events);
    SamePhaseKnown(s.(log := s.log + step.events), Apply(cfg, s, step));
  }

  lemma SamePhaseKnown(s: State, next: State)
    requires PhaseKnown(s) && next.phase == s.phase && next.log == s.log && next.server == s.server
    requires next.activeSeen == s.activeSeen && next.registerSeen == s.registerSeen && next.workersSeen == s.workersSeen
    ensures PhaseKnown(next)
  {
    hide AllAfter;
  }

  /** A window without events leaves nothing unseen that was fetched. */
  lemma EmptyWindow(log: seq<EventData>, seen: nat, at: nat, block: nat)
    requires seen <= at <= |log| && AllAfter(log, seen, block) && Filter(log[..at], MinedAfter(block)) == []
    ensures seen == at
  {
    FilterMembers(log[..at], MinedAfter(block));
    forall i | 0 <= i < at ensures log[i].blockNumber <= block {
      assert log[i] in log[..at];
    }
  }

  lemma UpdateLatestSound(cfg: ServerConfig, s: State)
    requires ScansSound(s) && s.phase.Fetched?
    ensures ScansSound(Apply(cfg, s, UpdateLatest))
  {
    var at, events, next := s.phase.at, s.phase.events, Apply(cfg, s, UpdateLatest);
    if events == [] {
      EmptyWindow(s.log, s.activeSeen, at, s.server.lastScannedBlock);
      assert s.log[..|s.log|] == s.log;
    } else {
      LatestOfWindow(s.log[..at], s.server.lastScannedBlock);
      SortedHeadIsLatest(events);
    }
    EventOrders();
    StableSortSorts(events, NewestFirst);
    assert forall e :: e in next.phase.events <==> e in multiset(next.phase.events);
  }

  /** Folding a window that reaches back to what is already known covers the whole log fetched. */
  lemma FoldWindow(last: Option<EventData>, log: seq<EventData>, seen: nat, at: nat, keep: EventData -> bool,
      block: nat, events: seq<EventData>)
    requires FoldKnown(last, log, seen, keep, block) && seen <= at <= |log|
    requires forall e :: e in events <==> e in Filter(log[..at], MinedAfter(block))
    ensures IsLatestOf(Fold(last, Filter(events, keep)), Filter(log[..at], keep))
  {
    hide Filter, Fold, IsLatestOf;
    var known, newer := Filter(log[..seen], keep), Filter(events, keep);
    FoldIsLatest(last, known, newer);
    FilterMembers(log[..seen], keep);
    FilterMembers(log[..at], keep);
    FilterMembers(log[..at], MinedAfter(block));
    FilterMembers(events, keep);
    forall e ensures e in known + newer <==> e in Filter(log[..at], keep) {
      if e in log[..at] {
        var i :| 0 <= i < at && log[i] == e;
        assert i < seen ==> e == log[..seen][i];
      }
      if e in log[..seen] {
        var i :| 0 <= i < seen && log[i] == e;
        assert e == log[..at][i];
      }
    }
    SameElements(Fold(last, newer), known + newer, Filter(log[..at], keep));
  }

  lemma SameElements(last: Option<EventData>, s: seq<EventData>, t: seq<EventData>)
    requires IsLatestOf(last, s) && forall e :: e in s <==> e in t
    ensures IsLatestOf(last, t)
  {
    if t != [] { assert t[0] in s; }
  }

  lemma FoldEventsSound(cfg: ServerConfig, s: State)
    requires ScansSound(s) && s.phase.StakesFetched? && s.phase.left == 0
    ensures ScansSound(Apply(cfg, s, FoldEvents))
  {
    hide Filter, Fold, IsLatestOf, StableSort, Latest;
    var r, block, at, events := s.server.registration, s.server.lastScannedBlock, s.phase.at, s.phase.events;
    FoldWindow(r.lastRegister, s.log, s.registerSeen, at, IsRegister, block, events);
    FoldWindow(r.lastWorkerAdded, s.log, s.workersSeen, at, IsWorkersAdded, block, events);
  }

  lemma LatestIsLatestOf(events: seq<EventData>)
    ensures IsLatestOf(Latest(events), events)
  {
    FoldIsLatest(None, [], events);
    assert [] + events == events;
  }

  lemma InitSound(cfg: ServerConfig, s: State, step: Step)
    requires ScansSound(s) && Enabled(cfg, s, step) && (step.InitWorkers? || step.InitRegister? || step.Fetch?)
    ensures ScansSound(Apply(cfg, s, step))
  {
    assert s.log[..|s.log|] == s.log;
    LatestIsLatestOf(Filter(s.log, IsWorkersAdded));
    LatestIsLatestOf(Filter(s.log, IsRegister));
  }

  lemma RestartSound(cfg: ServerConfig, s: State)
    requires ScansSound(s)
    ensures ScansSound(Apply(cfg, s, Restart))
  {
  }

  predicate SameWindow(a: Phase, b: Phase)
    requires (a.Updated? || a.StakesFetched?) && b.StakesFetched?
  {
    a.block == b.block && a.events == b.events && a.at == b.at
  }

  /** Steps that leave the log, the scanned block, the remembered events and the window alone. */
  lemma QuietScansSound(s: State, next: State)
    requires ScansSound(s) && next.log == s.log && next.head == s.head
    requires next.activeSeen == s.activeSeen && next.registerSeen == s.registerSeen && next.workersSeen == s.workersSeen
    requires next.server.lastScannedBlock == s.server.lastScannedBlock && next.server.lastActive == s.server.lastActive
    requires next.server.registration.lastRegister == s.server.registration.lastRegister
    requires next.server.registration.lastWorkerAdded == s.server.registration.lastWorkerAdded
    requires next.phase == s.phase || (next.phase.Idle? && !s.phase.BootWorkers? && !s.phase.BootRegister?)
      || (next.phase.Started? && s.server.lastScannedBlock < next.phase.block <= s.head)
      || (s.phase.Started? && next.phase == Refreshing(s.phase.block))
        || (s.phase.Refreshing? && next.phase == Funded(s.phase.block))
      || (s.phase.Updated? && next.phase.StakesFetched? && SameWindow(s.phase, next.phase))
      || (s.phase.StakesFetched? && next.phase.StakesFetched? && SameWindow(s.phase, next.phase))
      || (s.phase.Scanned? && next.phase.Registered?)
    ensures ScansSound(next)
  {
    hide LogSound, ActiveKnown, FoldKnown, AllAfter;
  }

  lemma AdvanceScanSound(cfg: ServerConfig, s: State)
    requires ScansSound(s) && s.phase.Folded?
    ensures ScansSound(Apply(cfg, s, AdvanceScan))
  {
    hide LogSound, Latest, IsLatestOf, Filter, StableSort, Fold;
  }

  lemma StepScansSound(cfg: ServerConfig, s: State, step: Step)
    requires ScansSound(s) && Enabled(cfg, s, step)
    ensures ScansSound(Apply(cfg, s, step))
  {
    hide ScansSound, Latest, Filter, StableSort, Fold, IsRegistered, ShouldRefreshState;
    match step
    case Mine(_, _, _) => MineSound(cfg, s, step);
    case UpdateLatest => UpdateLatestSound(cfg, s);
    case FoldEvents => FoldEventsSound(cfg, s);
    case AdvanceScan => AdvanceScanSound(cfg, s);
    case InitWorkers => InitSound(cfg, s, step);
    case InitRegister => InitSound(cfg, s, step);
    case Fetch => InitSound(cfg, s, step);
    case Restart => RestartSound(cfg, s);
    case _ => QuietScansSound(s, Apply(cfg, s, step));
  }

  lemma {:induction false} RunScansSound(cfg: ServerConfig, s: State, steps: seq<Step>)
    requires ScansSound(s) && Runs(cfg, s, steps)
    ensures ScansSound(After(cfg, s, steps))
    decreases |steps|
  {
    hide ScansSound, Apply, Enabled;
    if steps != [] {
      StepScansSound(cfg, s, steps[0]);
      RunScansSound(cfg, Apply(cfg, s, steps[0]), steps[1..]);
    }
  }

  /**
   The event kept incrementally is the one a query of the whole log would give: always the latest of the
   part of the log known, and right after an update of everything fetched in that round, although the field
   is overwritten without comparison, windows overlap, and rounds abort before the scan advances.
   */
  lemma LatestActiveIsFullQuery(cfg: ServerConfig, steps: seq<Step>)
    requires Runs(cfg, BOOT, steps)
    ensures var s := After(cfg, BOOT, steps);
      && s.activeSeen <= |s.log|
      && s.server.lastActive == Latest(s.log[..s.activeSeen])
      && (s.phase.Updated? || s.phase.StakesFetched? ==> s.phase.at <= s.activeSeen)
      && (forall i | s.activeSeen <= i < |s.log| :: s.log[i].blockNumber > s.server.lastScannedBlock)
  {
    RunScansSound(cfg, BOOT, steps);
  }

  /** The registration and worker events kept by the fold are at the position the batch query would report. */
  lemma FoldedEventsAreFullQuery(cfg: ServerConfig, steps: seq<Step>)
    requires Runs(cfg, BOOT, steps)
    ensures var s := After(cfg, BOOT, steps);
      && s.registerSeen <= |s.log| && s.workersSeen <= |s.log|
      && AtSamePosition(s.server.registration.lastRegister, Latest(Filter(s.log[..s.registerSeen], IsRegister)))
      && AtSamePosition(s.server.registration.lastWorkerAdded, Latest(Filter(s.log[..s.workersSeen], IsWorkersAdded)))
  {
    RunScansSound(cfg, BOOT, steps);
    var s := After(cfg, BOOT, steps);
    var registers, workers := Filter(s.log[..s.registerSeen], IsRegister),
      Filter(s.log[..s.workersSeen], IsWorkersAdded);
    LatestIsLatestOf(registers);
    LatestIsLatestOf(workers);
    LatestPositionIsUnique(s.server.registration.lastRegister, registers, Latest(registers), registers);
    LatestPositionIsUnique(s.server.registration.lastWorkerAdded, workers, Latest(workers), workers);
  }

  predicate AtSamePosition(a: Option<EventData>, b: Option<EventData>) {
    (a.Some? <==> b.Some?) && (a.Some? && b.Some? ==> SamePosition(a.value, b.value))
  }

  /** While the process runs, the remembered event never moves back and scanned blocks only grow. */
  lemma NeverBackward(cfg: ServerConfig, s: State, step: Step)
    requires ScansSound(s) && Enabled(cfg, s, step) && !step.Restart?
    ensures var next := Apply(cfg, s, step);
      && next.server.lastScannedBlock >= s.server.lastScannedBlock
      && (s.server.lastActive.Some? ==>
            next.server.lastActive.Some?
              && !IsSecondEventLater(next.server.lastActive.value, s.server.lastActive.value))
  {
    hide FoldKnown, LogSound, Filter, StableSort, Fold, Latest;
    var next := Apply(cfg, s, step);
    StepScansSound(cfg, s, step);
    if step.UpdateLatest? && s.server.lastActive.Some? {
      LatestGrows(s.log, s.activeSeen, next.activeSeen);
    }
  }

  lemma LatestGrows(log: seq<EventData>, m: nat, n: nat)
    requires m <= n <= |log| && Latest(log[..m]).Some?
    ensures Latest(log[..n]).Some? && !IsSecondEventLater(Latest(log[..n]).value, Latest(log[..m]).value)
  {
    LatestIsLatestOf(log[..m]);
    LatestIsLatestOf(log[..n]);
    var i :| 0 <= i < m && log[..m][i] == Latest(log[..m]).value;
    assert log[..n][i] == Latest(log[..m]).value;
  }
}
