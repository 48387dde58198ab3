/** What `RelayServer.ts` and `RegistrationManager.ts` remember, and how each stretch of code changes it. */
module ServerState {
  import opened Prelude
  import opened Events
  import opened Sorting

  lemma {:induction false} FirstColon(text: string)
    requires ':' in text
    ensures exists i :: 0 <= i < |text| && text[i] == ':' && ':' !in text[..i]
  {
    var last := |text| - 1;
    if ':' in text[..last] {
      FirstColon(text[..last]);
      var i :| 0 <= i < last && text[..last][i] == ':' && ':' !in text[..last][..i];
      assert text[..last][..i] == text[..i];
    } else {
      assert text[last] == ':';
    }
  }

  /** `portText` is the decimal form of `port`. */
  datatype ServerConfig = ServerConfig(managerAddress: Address, workerAddress: Address, url: string, port: nat,
                                       portText: string, refreshStateTimeoutBlocks: int,
                                       successfulRoundsForReady: nat, registrationBlockRate: nat,
                                       managerMinBalance: nat, managerMinStake: nat, workerMinBalance: nat)
  {
    predicate PortIncluded() {
      exists i | 0 < i < |url| :: url[i] == ':' && ':' !in url[..i]
    }

    /**
     The URL a registration is sent with, and the one a registration event is checked against: the port is added unless
     there is none or the URL has a colon other than at its start.
     */
    function RegisterUrl(): (u: string)
      ensures port == 0 || (':' in url && url[0] != ':') ==> u == url
      ensures port > 0 && (':' !in url || url[0] == ':') ==> u == url + ":" + portText
    {
      assert ':' in url && url[0] != ':' ==> PortIncluded() by {
        if ':' in url { FirstColon(url); }
      }
      if !PortIncluded() && port > 0 then url + ":" + portText else url
    }
  }

  datatype Registration = Registration(lastRegister: Option<EventData>, lastWorkerAdded: Option<EventData>,
                                       balance: nat, stake: nat, isStakeLocked: bool, owner: Option<Address>)

  datatype Server = Server(lastScannedBlock: nat, lastRefreshBlock: nat, ready: bool, lastSuccessfulRounds: nat,
                           workerSemaphoreOn: bool, lastActive: Option<EventData>, registration: Registration)

  datatype StakeInfo = StakeInfo(stake: nat, withdrawBlock: nat, owner: Address)

  const MAX_SAFE_INTEGER: nat := 0x1F_FFFF_FFFF_FFFF

  /** `n++` on a double: beyond 2^53 adding one changes nothing. */
  function Increment(n: nat): nat {
    if n > MAX_SAFE_INTEGER then n else n + 1
  }

  const UNREGISTERED := Registration(None, None, 0, 0, false, None)

  const FRESH := Server(0, 0, false, MAX_SAFE_INTEGER, false, None, UNREGISTERED)

  predicate IsRegister(e: EventData) {
    e.event.RelayServerRegistered?
  }

  predicate IsWorkersAdded(e: EventData) {
    e.event.RelayWorkersAdded?
  }

  predicate IsRegistrationValid(cfg: ServerConfig, e: Option<EventData>) {
    e.Some? && e.value.returnValues.relayManager == cfg.managerAddress
      && e.value.returnValues.relayUrl == cfg.RegisterUrl()
  }

  predicate IsRegistered(cfg: ServerConfig, r: Registration) {
    r.stake >= cfg.managerMinStake && r.isStakeLocked && IsRegistrationValid(cfg, r.lastRegister)
  }

  predicate IsReady(cfg: ServerConfig, s: Server) {
    s.lastSuccessfulRounds >= cfg.successfulRoundsForReady && s.ready
  }

  predicate ShouldRefreshState(cfg: ServerConfig, s: Server, currentBlock: nat) {
    currentBlock - s.lastRefreshBlock >= cfg.refreshStateTimeoutBlocks || !IsReady(cfg, s)
  }

  /** `refreshStake`: a stake of zero is ignored, whatever was known before. */
  function StakeRefreshed(r: Registration, info: StakeInfo): Registration {
    if info.stake == 0 then r
    else r.(isStakeLocked := info.withdrawBlock == 0, stake := info.stake,
            owner := if r.owner.None? then Some(info.owner) else r.owner)
  }

  /** The fold over the hub events of a scan. */
  function HubEventsFolded(r: Registration, events: seq<EventData>): Registration {
    r.(lastRegister := Fold(r.lastRegister, Filter(events, IsRegister)),
       lastWorkerAdded := Fold(r.lastWorkerAdded, Filter(events, IsWorkersAdded)))
  }

  /** `_updateLatestTxBlockNumber`: overwritten without comparison; asked of the node only when unknown. */
  function LatestUpdated(s: Server, events: seq<EventData>, wholeLog: seq<EventData>): Server {
    var latest := Latest(events);
    s.(lastActive := if latest.Some? then latest else if s.lastActive.None? then Latest(wholeLog) else s.lastActive)
  }

  function RoundCompleted(s: Server): Server {
    s.(lastSuccessfulRounds := Increment(s.lastSuccessfulRounds), workerSemaphoreOn := false)
  }

  function RoundFailed(s: Server): Server {
    s.(lastSuccessfulRounds := 0, workerSemaphoreOn := false)
  }

  lemma {:induction false} FoldFiltered(last: Option<EventData>, events: seq<EventData>, keep: EventData -> bool,
      i: nat)
    requires i < |events|
    ensures Fold(last, Filter(events[..i + 1], keep)) ==
      if keep(events[i]) then Newer(Fold(last, Filter(events[..i], keep)), events[i])
        else Fold(last, Filter(events[..i], keep))
  {
    assert events[..i + 1][..i] == events[..i];
    var kept := Filter(events[..i], keep);
    if keep(events[i]) {
      assert (kept + [events[i]])[..|kept|] == kept;
    } else {
      assert kept + [] == kept;
    }
  }

  class RegistrationManager {
    const config: ServerConfig
    var state: Registration
    var delayedEvents: seq<EventData>

    constructor (config: ServerConfig)
      ensures this.config == config && state == UNREGISTERED && delayedEvents == []
    {
      this.config := config;
      state := UNREGISTERED;
      delayedEvents := [];
    }

    /** The loop over `hubEventsSinceLastScan` in `handlePastEvents`. */
    method ObserveHubEvents(events: seq<EventData>)
      modifies this`state
      ensures state == HubEventsFolded(old(state), events)
    {
      var i := 0;
      while i < |events|
        invariant 0 <= i <= |events|
        invariant state == HubEventsFolded(old(state), events[..i])
      {
        var eventData := events[i];
        FoldFiltered(old(state).lastRegister, events, IsRegister, i);
        FoldFiltered(old(state).lastWorkerAdded, events, IsWorkersAdded, i);
        match eventData.event {
          case RelayServerRegistered =>
            if state.lastRegister.None? || IsSecondEventLater(state.lastRegister.value, eventData) {
              state := state.(lastRegister := Some(eventData));
            }
          case RelayWorkersAdded =>
            if state.lastWorkerAdded.None? || IsSecondEventLater(state.lastWorkerAdded.value, eventData) {
              state := state.(lastWorkerAdded := Some(eventData));
            }
          case _ =>
        }
        i := i + 1;
      }
      assert events[..i] == events;
    }

    method ReadBalance(balance: nat)
      modifies this`state
      ensures state == old(state).(balance := balance)
    {
      state := state.(balance := balance);
    }

    method RefreshStake(info: StakeInfo)
      modifies this`state
      ensures state == StakeRefreshed(old(state), info)
    {
      if info.stake == 0 {
        return;
      }
      state := state.(isStakeLocked := info.withdrawBlock == 0, stake := info.stake);
      if state.owner.None? {
        state := state.(owner := Some(info.owner));
      }
    }

    /** Splits the delayed events by due block: each is in exactly one of the two parts, which keep the order. */
    method ExtractDuePendingEvents(currentBlock: nat) returns (due: seq<EventData>)
      modifies this`delayedEvents
      ensures multiset(due) + multiset(delayedEvents) == multiset(old(delayedEvents))
      ensures forall e | e in due :: e.returnValues.withdrawBlock <= currentBlock
      ensures forall e | e in delayedEvents :: e.returnValues.withdrawBlock > currentBlock
      ensures Keeps(due, old(delayedEvents), DueBy(currentBlock))
      ensures Keeps(delayedEvents, old(delayedEvents), NotDueBy(currentBlock))
      ensures due == Filter(old(delayedEvents), DueBy(currentBlock))
      ensures delayedEvents == Filter(old(delayedEvents), NotDueBy(currentBlock))
    {
      hide Filter, Keeps;
      FilterPartition(delayedEvents, currentBlock);
      FilterMembers(delayedEvents, DueBy(currentBlock));
      FilterMembers(delayedEvents, NotDueBy(currentBlock));
      FilterKeeps(delayedEvents, DueBy(currentBlock));
      FilterKeeps(delayedEvents, NotDueBy(currentBlock));
      due := Filter(delayedEvents, DueBy(currentBlock));
      delayedEvents := Filter(delayedEvents, NotDueBy(currentBlock));
    }
  }

  function DueBy(block: nat): EventData -> bool {
    (e: EventData) => e.returnValues.withdrawBlock <= block
  }

  function NotDueBy(block: nat): EventData -> bool {
    (e: EventData) => e.returnValues.withdrawBlock > block
  }

  /** One handling of past events: those it delays, and then the height at which it extracts the due ones. */
  datatype Handling = Handling(pushed: seq<EventData>, height: nat)

  /** Everything delivered by successive handlings, each extracting from what is delayed by then. */
  function Delivered(delayed: seq<EventData>, handlings: seq<Handling>): seq<EventData>
    decreases |handlings|
  {
    if handlings == [] then []
    else
      var waiting, height := delayed + handlings[0].pushed, handlings[0].height;
      Filter(waiting, DueBy(height)) + Delivered(Filter(waiting, NotDueBy(height)), handlings[1..])
  }

  /** Everything delayed by successive handlings. */
  function Pushed(handlings: seq<Handling>): seq<EventData> {
    if handlings == [] then [] else handlings[0].pushed + Pushed(handlings[1..])
  }

  lemma FilterSnoc(init: seq<EventData>, e: EventData, keep: EventData -> bool)
    ensures Filter(init + [e], keep) == Filter(init, keep) + if keep(e) then [e] else []
  {
    assert (init + [e])[..|init|] == init;
  }

  lemma {:induction false} FilterPartition(s: seq<EventData>, block: nat)
    ensures multiset(Filter(s, DueBy(block))) + multiset(Filter(s, NotDueBy(block))) == multiset(s)
  {
    if s != [] {
      hide Filter;
      var init, e := s[..|s| - 1], s[|s| - 1];
      FilterPartition(init, block);
      FilterSnoc(init, e, DueBy(block));
      FilterSnoc(init, e, NotDueBy(block));
      assert s == init + [e];
    }
  }

  /**
   Over increasing heights, with events delayed at any of them: by the last height an event is delivered as often as it
   was delayed if it is due by then, and not at all if not.
   */
  lemma {:induction false} DeliveredOnce(delayed: seq<EventData>, handlings: seq<Handling>, e: EventData)
    requires handlings != [] && Ascending(handlings)
    ensures multiset(Delivered(delayed, handlings))[e] ==
      if e.returnValues.withdrawBlock <= handlings[|handlings| - 1].height
      then multiset(delayed)[e] + multiset(Pushed(handlings))[e] else 0
    decreases |handlings|
  {
    hide Filter, DueBy, NotDueBy;
    var waiting, height, later := delayed + handlings[0].pushed, handlings[0].height, handlings[1..];
    var due, rest := Filter(waiting, DueBy(height)), Filter(waiting, NotDueBy(height));
    CountOfFilter(waiting, height, e);
    assert multiset(waiting)[e] == multiset(delayed)[e] + multiset(handlings[0].pushed)[e];
    assert multiset(due + Delivered(rest, later))[e] == multiset(due)[e] + multiset(Delivered(rest, later))[e];
    assert multiset(Pushed(handlings))[e] == multiset(handlings[0].pushed)[e] + multiset(Pushed(later))[e];
    assert height <= handlings[|handlings| - 1].height;
    if later != [] {
      assert later[|later| - 1] == handlings[|handlings| - 1];
      assert Ascending(later) by { assert forall i | 0 <= i < |later| :: later[i] == handlings[i + 1]; }
      DeliveredOnce(rest, later, e);
    }
  }

  ghost predicate Ascending(handlings: seq<Handling>) {
    forall i, j | 0 <= i <= j < |handlings| :: handlings[i].height <= handlings[j].height
  }

  lemma CountOfFilter(s: seq<EventData>, block: nat, e: EventData)
    ensures multiset(Filter(s, DueBy(block)))[e] == if e.returnValues.withdrawBlock <= block then multiset(s)[e] else 0
    ensures multiset(Filter(s, NotDueBy(block)))[e] == if e.returnValues.withdrawBlock <= block then 0
      else multiset(s)[e]
  {
    var due, rest := Filter(s, DueBy(block)), Filter(s, NotDueBy(block));
    FilterPartition(s, block);
    FilterMembers(s, DueBy(block));
    FilterMembers(s, NotDueBy(block));
    assert e in multiset(due) <==> e in due;
    assert e in multiset(rest) <==> e in rest;
  }
}
