/** Which relays are known, and how their events are fetched (`KnownRelaysManager.ts`). */
module KnownRelays {
  import opened Prelude
  import opened Events
  import opened Sorting

  datatype RelayInfo = RelayInfo(relayManager: Address, relayUrl: string)

  function InfoOf(e: EventData): RelayInfo {
    RelayInfo(e.returnValues.relayManager, e.returnValues.relayUrl)
  }

  predicate Concerns(e: EventData, manager: Address) {
    e.returnValues.relayManager == manager
  }

  // ---------- the set of active relays ----------

  /** A JavaScript Map keyed by manager, as its entries in insertion order. */
  function MapSet(active: seq<RelayInfo>, info: RelayInfo): seq<RelayInfo> {
    if active == [] then [info]
    else if active[0].relayManager == info.relayManager then [info] + active[1..]
    else [active[0]] + MapSet(active[1..], info)
  }

  function MapDelete(active: seq<RelayInfo>, manager: Address): seq<RelayInfo> {
    if active == [] then []
    else if active[0].relayManager == manager then active[1..]
    else [active[0]] + MapDelete(active[1..], manager)
  }

  ghost predicate Keyed(active: seq<RelayInfo>) {
    forall i, j | 0 <= i < j < |active| :: active[i].relayManager != active[j].relayManager
  }

  lemma {:induction false} MapSetFacts(active: seq<RelayInfo>, info: RelayInfo)
    requires Keyed(active)
    ensures Keyed(MapSet(active, info))
    ensures forall x :: x in MapSet(active, info) <==> x == info || (x in active && x.relayManager != info.relayManager)
  {
    if active != [] {
      assert active == [active[0]] + active[1..];
      if active[0].relayManager != info.relayManager {
        MapSetFacts(active[1..], info);
      }
    }
  }

  lemma {:induction false} MapDeleteFacts(active: seq<RelayInfo>, manager: Address)
    requires Keyed(active)
    ensures Keyed(MapDelete(active, manager))
    ensures forall x :: x in MapDelete(active, manager) <==> x in active && x.relayManager != manager
  {
    if active != [] {
      assert active == [active[0]] + active[1..];
      if active[0].relayManager != manager {
        MapDeleteFacts(active[1..], manager);
      }
    }
  }

  /** The last of the manager's events in a sequence, if any. */
  function LastOf(events: seq<EventData>, manager: Address): Option<EventData> {
    if events == [] then None
    else if Concerns(events[|events| - 1], manager) then Some(events[|events| - 1])
    else LastOf(events[..|events| - 1], manager)
  }

  ghost predicate Tracks(active: seq<RelayInfo>, events: seq<EventData>) {
    && Keyed(active)
    && forall x :: x in active <==>
         var last := LastOf(events, x.relayManager);
         last.Some? && last.value.event.RelayServerRegistered? && InfoOf(last.value) == x
  }

  lemma TracksStep(active: seq<RelayInfo>, events: seq<EventData>, e: EventData)
    requires Tracks(active, events)
    ensures Tracks(if e.event.RelayServerRegistered? then MapSet(active, InfoOf(e))
        else MapDelete(active, e.returnValues.relayManager), events + [e])
  {
    assert (events + [e])[..|events|] == events;
    MapSetFacts(active, InfoOf(e));
    MapDeleteFacts(active, e.returnValues.relayManager);
  }

  lemma TracksBasics(active: seq<RelayInfo>, events: seq<EventData>)
    ensures Tracks([], [])
    ensures Tracks(active, events) ==> Keyed(active)
  {
  }

  /** `i` is the manager's last event by block and index; of several at one position, the last in the sequence. */
  ghost predicate IsLastFor(events: seq<EventData>, manager: Address, i: nat) {
    && i < |events| && Concerns(events[i], manager)
    && forall j | 0 <= j < |events| && Concerns(events[j], manager) ::
         && events[j].blockNumber <= events[i].blockNumber
         && (events[j].blockNumber == events[i].blockNumber ==>
               events[j].transactionIndex <= events[i].transactionIndex)
         && (j > i ==> !SamePosition(events[j], events[i]))
  }

  function AtPositionOf(e: EventData): EventData -> bool {
    (x: EventData) => SamePosition(x, e) && Concerns(x, e.returnValues.relayManager)
  }

  lemma {:induction false} LastOfFilter(s: seq<EventData>, keep: EventData -> bool) returns (i: nat)
    requires Filter(s, keep) != []
    ensures i < |s| && keep(s[i]) && s[i] == Filter(s, keep)[|Filter(s, keep)| - 1]
    ensures forall j | i < j < |s| :: !keep(s[j])
  {
    if keep(s[|s| - 1]) {
      i := |s| - 1;
    } else {
      i := LastOfFilter(s[..|s| - 1], keep);
    }
  }

  lemma {:induction false} LastOfIndex(events: seq<EventData>, manager: Address) returns (k: nat)
    requires exists i :: 0 <= i < |events| && Concerns(events[i], manager)
    ensures k < |events| && LastOf(events, manager) == Some(events[k]) && Concerns(events[k], manager)
    ensures forall j | k < j < |events| :: !Concerns(events[j], manager)
  {
    if Concerns(events[|events| - 1], manager) {
      k := |events| - 1;
    } else {
      k := LastOfIndex(events[..|events| - 1], manager);
    }
  }

  /** Equal filtered sequences end in the same element, wherever it stands in the originals. */
  lemma SameLast(s: seq<EventData>, k: nat, t: seq<EventData>, i: nat, keep: EventData -> bool)
    requires Filter(s, keep) == Filter(t, keep)
    requires k < |s| && keep(s[k]) && forall j | k < j < |s| :: !keep(s[j])
    requires i < |t| && keep(t[i]) && forall j | i < j < |t| :: !keep(t[j])
    ensures s[k] == t[i]
  {
    hide Filter;
    FilterMembers(s, keep);
    assert s[k] in s;
    var a := LastOfFilter(s, keep);
    var b := LastOfFilter(t, keep);
    assert a == k && b == i;
  }

  /** After a stable sort the last event of a manager is the one the merged, unsorted list says. */
  lemma LastAfterSort(merged: seq<EventData>, manager: Address, i: nat)
    requires IsLastFor(merged, manager, i)
    ensures LastOf(StableSort(merged, OldestFirst), manager) == Some(merged[i])
  {
    hide StableSort, LastOf, Filter;
    var sorted := StableSort(merged, OldestFirst);
    EventOrders();
    StableSortSorts(merged, OldestFirst);
    assert merged[i] in multiset(sorted);
    assert merged[i] in sorted;
    var k := LastOfIndex(sorted, manager);
    SamePlace(merged, manager, i, sorted, k);
    var keep := AtPositionOf(sorted[k]);
    StableSortIsStable(merged, OldestFirst, keep);
    forall j | i < j < |merged| ensures !keep(merged[j]) {
      if Concerns(merged[j], manager) { assert IsSecondEventLater(merged[j], merged[i]); }
    }
    SameLast(sorted, k, merged, i, keep);
  }

  lemma SamePlace(merged: seq<EventData>, manager: Address, i: nat, sorted: seq<EventData>, k: nat)
    requires IsLastFor(merged, manager, i) && multiset(sorted) == multiset(merged) && Sorted(sorted, OldestFirst)
    requires k < |sorted| && Concerns(sorted[k], manager)
    requires forall j | k < j < |sorted| :: !Concerns(sorted[j], manager)
    ensures SamePosition(sorted[k], merged[i])
  {
    assert sorted[k] in multiset(merged);
    var j :| 0 <= j < |merged| && merged[j] == sorted[k];
    assert !IsSecondEventLater(merged[i], merged[j]);
    assert merged[i] in multiset(sorted);
    var l :| 0 <= l < |sorted| && sorted[l] == merged[i];
    assert l <= k;
    if l < k { assert !OldestFirst(sorted[k], sorted[l]); }
  }

  lemma {:induction false} SomeLast(events: seq<EventData>, manager: Address) returns (i: nat)
    requires exists j :: 0 <= j < |events| && Concerns(events[j], manager)
    ensures IsLastFor(events, manager, i)
  {
    var init, n := events[..|events| - 1], |events| - 1;
    if exists j :: 0 <= j < |init| && Concerns(init[j], manager) {
      i := SomeLast(init, manager);
      if Concerns(events[n], manager) && !IsSecondEventLater(events[n], events[i]) {
        i := n;
      }
    } else {
      i := n;
    }
  }

  /** A relay is active exactly when its manager's last event is a registration, and then with that one's data. */
  ghost predicate LastWriterWins(merged: seq<EventData>, info: RelayInfo) {
    exists i: nat ::
      && IsLastFor(merged, info.relayManager, i) && merged[i].event.RelayServerRegistered?
      && merged[i].returnValues.relayManager == info.relayManager && merged[i].returnValues.relayUrl == info.relayUrl
  }

  lemma TracksLastWriter(active: seq<RelayInfo>, merged: seq<EventData>, x: RelayInfo)
    requires Tracks(active, StableSort(merged, OldestFirst))
    ensures x in active <==> LastWriterWins(merged, x)
  {
    hide StableSort, LastOf;
    var sorted, m := StableSort(merged, OldestFirst), x.relayManager;
    if LastWriterWins(merged, x) {
      var i: nat :| IsLastFor(merged, m, i) && merged[i].event.RelayServerRegistered? && InfoOf(merged[i]) == x;
      LastAfterSort(merged, m, i);
    }
    if x in active {
      LastInMerged(merged, m);
      var i := SomeLast(merged, m);
      LastAfterSort(merged, m, i);
    }
  }

  lemma LastInMerged(merged: seq<EventData>, manager: Address)
    requires LastOf(StableSort(merged, OldestFirst), manager).Some?
    ensures exists j :: 0 <= j < |merged| && Concerns(merged[j], manager)
  {
    hide StableSort;
    var sorted := StableSort(merged, OldestFirst);
    EventOrders();
    StableSortSorts(merged, OldestFirst);
    LastOfMember(sorted, manager);
    assert LastOf(sorted, manager).value in multiset(sorted);
    assert LastOf(sorted, manager).value in merged;
  }

  lemma {:induction false} LastOfMember(events: seq<EventData>, manager: Address)
    requires LastOf(events, manager).Some?
    ensures LastOf(events, manager).value in events && Concerns(LastOf(events, manager).value, manager)
  {
    if !Concerns(events[|events| - 1], manager) {
      LastOfMember(events[..|events| - 1], manager);
    }
  }

  // ---------- splitting a block range ----------

  datatype Part = Part(fromBlock: int, toBlock: int)

  function CeilDiv(a: int, b: int): int
    requires b > 0
  {
    -((-a) / b)
  }

  function SplitSize(fromBlock: int, toBlock: int, splits: nat): int
    requires splits >= 1
  {
    CeilDiv(toBlock - fromBlock + 1, splits)
  }

  predicate InSome(parts: seq<Part>, block: int) {
    exists i | 0 <= i < |parts| :: parts[i].fromBlock <= block <= parts[i].toBlock
  }

  /** Parts that follow each other without gap or overlap, none of them empty. */
  ghost predicate Contiguous(parts: seq<Part>, fromBlock: int, next: int) {
    && (forall i | 0 <= i < |parts| :: parts[i].fromBlock <= parts[i].toBlock)
    && (forall i | 0 <= i < |parts| - 1 :: parts[i + 1].fromBlock == parts[i].toBlock + 1)
    && (parts == [] ==> next == fromBlock)
    && (parts != [] ==> parts[0].fromBlock == fromBlock && parts[|parts| - 1].toBlock + 1 == next)
  }

  /** `toBlock` is left out exactly when the split size divides the distance to it. */
  predicate MissesLast(fromBlock: int, toBlock: int, splits: nat)
    requires splits >= 1 && fromBlock <= toBlock
  {
    SplitSize(fromBlock, toBlock, splits) > 0 && (toBlock - fromBlock) % SplitSize(fromBlock, toBlock, splits) == 0
  }

  lemma CeilDivFacts(a: int, b: int)
    requires a >= 1 && b >= 1
    ensures CeilDiv(a, b) >= 1 && b * (CeilDiv(a, b) - 1) < a <= b * CeilDiv(a, b)
  {
    var q := (-a) / b;
    assert -a == b * q + (-a) % b;
    assert b * (-q) == -(b * q);
    assert b * (-q) > 0;
  }

  lemma FewerThan(n: int, splits: int, size: int)
    requires size >= 1 && n * size < splits * size
    ensures n < splits
  {
    assert (splits - n) * size > 0;
  }

  lemma {:induction false} CoversItsRange(parts: seq<Part>, fromBlock: int, next: int, block: int)
    requires Contiguous(parts, fromBlock, next)
    ensures InSome(parts, block) <==> fromBlock <= block < next
  {
    if parts != [] {
      var init, last := parts[..|parts| - 1], parts[|parts| - 1];
      assert Contiguous(init, fromBlock, last.fromBlock) by {
        if init != [] { assert parts[|init| - 1 + 1].fromBlock == parts[|init| - 1].toBlock + 1; }
      }
      CoversItsRange(init, fromBlock, last.fromBlock, block);
      assert InSome(parts, block) <==> InSome(init, block) || last.fromBlock <= block <= last.toBlock by {
        if InSome(init, block) {
          var i :| 0 <= i < |init| && init[i].fromBlock <= block <= init[i].toBlock;
          assert parts[i] == init[i];
        }
      }
      if init != [] { ContiguousGrows(init, fromBlock, last.fromBlock); }
    }
  }

  lemma {:induction false} ContiguousGrows(parts: seq<Part>, fromBlock: int, next: int)
    requires Contiguous(parts, fromBlock, next)
    ensures fromBlock <= next
  {
    if parts != [] {
      var init, last := parts[..|parts| - 1], parts[|parts| - 1];
      assert Contiguous(init, fromBlock, last.fromBlock) by {
        if init != [] { assert parts[|init| - 1 + 1].fromBlock == parts[|init| - 1].toBlock + 1; }
      }
      ContiguousGrows(init, fromBlock, last.fromBlock);
    }
  }

  // ---------- fetching the events of a range ----------

  function Within(fromBlock: int, toBlock: int): EventData -> bool {
    (e: EventData) => fromBlock <= e.blockNumber <= toBlock
  }

  ghost predicate BlocksAscending(log: seq<EventData>) {
    forall i, j | 0 <= i < j < |log| :: log[i].blockNumber <= log[j].blockNumber
  }

  /** The answers to the queries of all parts, one after the other. */
  function Queried(log: seq<EventData>, parts: seq<Part>): seq<EventData> {
    if parts == [] then []
    else
      var last := parts[|parts| - 1];
      Queried(log, parts[..|parts| - 1]) + Filter(log, Within(last.fromBlock, last.toBlock))
  }

  lemma {:induction false} NothingWithin(log: seq<EventData>, fromBlock: int, toBlock: int)
    requires forall e | e in log :: !Within(fromBlock, toBlock)(e)
    ensures Filter(log, Within(fromBlock, toBlock)) == []
  {
    if log != [] {
      NothingWithin(log[..|log| - 1], fromBlock, toBlock);
    }
  }

  lemma {:induction false} WithinSplits(log: seq<EventData>, fromBlock: int, mid: int, toBlock: int)
    requires BlocksAscending(log) && fromBlock <= mid <= toBlock + 1
    ensures Filter(log, Within(fromBlock, toBlock)) == Filter(log, Within(fromBlock, mid - 1))
      + Filter(log, Within(mid, toBlock))
  {
    if log != [] {
      var init, x := log[..|log| - 1], log[|log| - 1];
      WithinSplits(init, fromBlock, mid, toBlock);
      if x.blockNumber < mid {
        NothingWithin(init, mid, toBlock);
      }
    }
  }

  lemma EmptyRange(log: seq<EventData>, fromBlock: int, toBlock: int)
    requires toBlock < fromBlock
    ensures Filter(log, Within(fromBlock, toBlock)) == []
  {
    NothingWithin(log, fromBlock, toBlock);
  }

  /** Querying contiguous parts one after the other is querying their range at once. */
  lemma {:induction false} QueriedIsOneQuery(log: seq<EventData>, parts: seq<Part>, fromBlock: int, next: int)
    requires BlocksAscending(log) && Contiguous(parts, fromBlock, next)
    ensures Queried(log, parts) == Filter(log, Within(fromBlock, next - 1))
  {
    hide Filter, BlocksAscending, Within;
    if parts == [] {
      EmptyRange(log, fromBlock, next - 1);
    } else {
      var init, last := parts[..|parts| - 1], parts[|parts| - 1];
      ContiguousInit(parts, fromBlock, next);
      ContiguousGrows(init, fromBlock, last.fromBlock);
      assert last.fromBlock <= last.toBlock == next - 1;
      QueriedIsOneQuery(log, init, fromBlock, last.fromBlock);
      WithinSplits(log, fromBlock, last.fromBlock, last.toBlock);
    }
  }

  lemma ContiguousInit(parts: seq<Part>, fromBlock: int, next: int)
    requires Contiguous(parts, fromBlock, next) && parts != []
    ensures Contiguous(parts[..|parts| - 1], fromBlock, parts[|parts| - 1].fromBlock)
  {
    var init := parts[..|parts| - 1];
    if init != [] {
      assert parts[|init| - 1 + 1].fromBlock == parts[|init| - 1].toBlock + 1;
    }
  }

  // ---------- ordering by score ----------

  /** 0.9 to the power of the number of recent failures. */
  function DefaultRelayScore(failures: nat): real {
    if failures == 0 then 1.0 else 0.9 * DefaultRelayScore(failures - 1)
  }

  lemma {:induction false} ScorePositive(n: nat)
    ensures DefaultRelayScore(n) > 0.0
  {
    if n > 0 { ScorePositive(n - 1); }
  }

  /** Fewer failures is exactly a higher score. */
  lemma {:induction false} ScoreDecreases(m: nat, n: nat)
    requires m < n
    ensures DefaultRelayScore(m) > DefaultRelayScore(n)
    decreases n
  {
    ScorePositive(n - 1);
    if m < n - 1 { ScoreDecreases(m, n - 1); }
  }

  function ScoreOf(scores: map<Address, real>, relay: RelayInfo): real {
    if relay.relayManager in scores then scores[relay.relayManager] else 0.0
  }

  function HigherScore(scores: map<Address, real>): (RelayInfo, RelayInfo) -> bool {
    (a: RelayInfo, b: RelayInfo) => ScoreOf(scores, a) > ScoreOf(scores, b)
  }

  lemma ScoreOrder(scores: map<Address, real>)
    ensures StrictWeakOrder(HigherScore(scores))
  {
  }

  /** What the node does with one batch of queries: answers all, or some query is rejected first. */
  datatype BatchAnswer = Answered | TooManyEvents | OtherError

  datatype FetchResult = Events(events: seq<EventData>) | TooManyAfterSplitting(parts: nat) | Rethrown

  class KnownRelaysManager {
    const relayLookupWindowBlocks: nat
    var relayLookupWindowParts: nat

    constructor (windowBlocks: nat, windowParts: nat)
      ensures relayLookupWindowBlocks == windowBlocks && relayLookupWindowParts == windowParts
    {
      relayLookupWindowBlocks, relayLookupWindowParts := windowBlocks, windowParts;
    }

    /** Sorts a fresh array of the events in place. */
    static method SortedByPosition(merged: seq<EventData>) returns (sorted: seq<EventData>)
      ensures sorted == StableSort(merged, OldestFirst)
    {
      var a := new EventData[|merged|](i requires 0 <= i < |merged| => merged[i]);
      assert a[..] == merged;
      SortInPlace(a, OldestFirst);
      sorted := a[..];
    }

    /** The loop over the sorted events: a registration sets its manager's entry, an exit deletes it. */
    static method ReplayInOrder(mergedEvents: seq<EventData>) returns (activeRelays: seq<RelayInfo>)
      ensures Tracks(activeRelays, mergedEvents)
    {
      hide MapSet, MapDelete, Tracks;
      activeRelays := [];
      TracksBasics([], []);
      for i := 0 to |mergedEvents|
        invariant Tracks(activeRelays, mergedEvents[..i])
      {
        var event := mergedEvents[i];
        TracksStep(activeRelays, mergedEvents[..i], event);
        assert mergedEvents[..i + 1] == mergedEvents[..i] + [event];
        if event.event.RelayServerRegistered? {
          activeRelays := MapSet(activeRelays, InfoOf(event));
        } else {
          activeRelays := MapDelete(activeRelays, event.returnValues.relayManager);
        }
      }
      assert mergedEvents[..|mergedEvents|] == mergedEvents;
    }

    /** Last writer wins, with exits before registrations on ties; `relayFilter` is applied at the end. */
    method GetRelayInfoForManagers(managers: set<Address>, registered: seq<EventData>, exits: seq<EventData>,
        relayFilter: RelayInfo -> bool)
      returns (relays: seq<RelayInfo>)
      requires forall e | e in registered :: e.event.RelayServerRegistered?
      requires forall e | e in exits :: e.event.StakeUnlocked? || e.event.StakePenalized?
      ensures managers == {} ==> relays == []
      ensures managers != {} ==> forall x :: x in relays <==> LastWriterWins(exits + registered, x) && relayFilter(x)
      ensures Keyed(relays)
    {
      if managers == {} {
        return [];
      }
      hide StableSort, LastWriterWins, Filter, Tracks, Keyed;
      var merged := exits + registered;
      var mergedEvents := SortedByPosition(merged);
      var activeRelays := ReplayInOrder(mergedEvents);
      TracksBasics(activeRelays, mergedEvents);
      relays := Filter(activeRelays, relayFilter);
      FilterMembers(activeRelays, relayFilter);
      FilterKeyed(activeRelays, relayFilter);
      forall x ensures x in activeRelays <==> LastWriterWins(merged, x) {
        TracksLastWriter(activeRelays, merged, x);
      }
    }

    /**
     The parts are ordered, contiguous and at most `splits` many, and cover the range but for `toBlock`,
     which is missed exactly when the split size divides the distance to it.
     */
    method SplitRange(fromBlock: int, toBlock: int, splits: nat) returns (parts: seq<Part>)
      requires splits >= 1
      ensures |parts| <= splits
      ensures fromBlock > toBlock ==> parts == []
      ensures fromBlock <= toBlock ==>
        Contiguous(parts, fromBlock, if MissesLast(fromBlock, toBlock, splits) then toBlock else toBlock + 1)
      ensures fromBlock <= toBlock ==>
        var size := SplitSize(fromBlock, toBlock, splits);
        && splits * (size - 1) < toBlock - fromBlock + 1 <= splits * size
        && forall i | 0 <= i < |parts| - 1 :: parts[i].toBlock == parts[i].fromBlock + size - 1
    {
      var totalBlocks := toBlock - fromBlock + 1;
      var splitSize := CeilDiv(totalBlocks, splits);
      parts := [];
      if totalBlocks >= 1 { CeilDivFacts(totalBlocks, splits); }
      var b := fromBlock;
      hide CeilDiv, CutAt;
      NothingCut(toBlock, splitSize);
      while b < toBlock
        invariant b - fromBlock == |parts| * splitSize
        invariant fromBlock <= toBlock ==> Contiguous(parts, fromBlock, Min(b, toBlock + 1))
        invariant fromBlock <= toBlock ==> b < toBlock + splitSize && |parts| <= splits
        invariant fromBlock > toBlock ==> parts == []
        invariant CutAt(parts, toBlock, splitSize)
        decreases toBlock - b
      {
        PartsStayFew(|parts|, splits, splitSize, b - fromBlock);
        OneMoreCut(parts, toBlock, splitSize, b);
        parts := parts + [Part(b, Min(toBlock, b + splitSize - 1))];
        b := b + splitSize;
      }
      if fromBlock <= toBlock {
        LastMissed(fromBlock, toBlock, splitSize, |parts|);
        WholeButTheLast(parts, fromBlock, Min(b, toBlock + 1), toBlock, splitSize);
      }
    }

    /**
     Splits, queries all parts, and on "too many" splits four times finer. At most three attempts, and on
     success the events are those of the covered range, in order.
     */
    method GetPastEventsForHub(fromBlock: int, toBlock: int, log: seq<EventData>, node: nat -> BatchAnswer)
      returns (result: FetchResult, attempts: nat)
      requires relayLookupWindowParts >= 1 && BlocksAscending(log)
      modifies this`relayLookupWindowParts
      ensures 1 <= attempts <= 3
      ensures relayLookupWindowParts
        == old(relayLookupWindowParts) * (if attempts == 1 then 1 else if attempts == 2 then 4 else 16)
      ensures forall i | 0 <= i < attempts - 1 :: node(i).TooManyEvents?
      ensures result.Events? <==> node(attempts - 1).Answered?
      ensures result.Events? && fromBlock > toBlock ==> result.events == []
      ensures result.Events? && fromBlock <= toBlock ==>
        var last := if MissesLast(fromBlock, toBlock, relayLookupWindowParts) then toBlock - 1 else toBlock;
        result.events == Filter(log, Within(fromBlock, last))
      ensures result.TooManyAfterSplitting? ==>
        node(attempts - 1).TooManyEvents? && relayLookupWindowBlocks > result.parts == relayLookupWindowParts >= 16
      ensures result.Rethrown? ==>
        node(attempts - 1).OtherError?
          || (node(attempts - 1).TooManyEvents? && relayLookupWindowBlocks <= relayLookupWindowParts)
    {
      attempts := 0;
      while true
        invariant 0 <= attempts <= 2
        invariant relayLookupWindowParts
          == old(relayLookupWindowParts) * (if attempts == 0 then 1 else if attempts == 1 then 4 else 16)
        invariant forall i | 0 <= i < attempts :: node(i).TooManyEvents?
        decreases 3 - attempts
      {
        var rangeParts := SplitRange(fromBlock, toBlock, relayLookupWindowParts);
        var answer := node(attempts);
        attempts := attempts + 1;
        if answer.Answered? {
          if fromBlock <= toBlock {
            QueriedIsOneQuery(log, rangeParts, fromBlock,
                              if MissesLast(fromBlock, toBlock, relayLookupWindowParts) then toBlock else toBlock + 1);
          }
          return Events(Queried(log, rangeParts)), attempts;
        } else if answer.TooManyEvents? && relayLookupWindowBlocks > relayLookupWindowParts {
          if relayLookupWindowParts >= 16 {
            return TooManyAfterSplitting(relayLookupWindowParts), attempts;
          }
          relayLookupWindowParts := relayLookupWindowParts * 4;
        } else {
          return Rethrown, attempts;
        }
      }
    }
  }

  /** `_sortRelaysInternal` with the default score: the relays with the fewest recent failures first. */
  method SortRelaysInternal(activeRelays: seq<RelayInfo>, failures: string -> nat) returns (sorted: seq<RelayInfo>)
    requires Keyed(activeRelays)
    ensures multiset(sorted) == multiset(activeRelays)
    ensures forall i, j | 0 <= i < j < |sorted| :: failures(sorted[i].relayUrl) <= failures(sorted[j].relayUrl)
  {
    var scores: map<Address, real> := map[];
    var i := 0;
    while i < |activeRelays|
      invariant 0 <= i <= |activeRelays|
      invariant forall j | 0 <= j < i :: activeRelays[j].relayManager in scores
      invariant forall j | 0 <= j < i ::
          scores[activeRelays[j].relayManager] == DefaultRelayScore(failures(activeRelays[j].relayUrl))
    {
      scores := scores[activeRelays[i].relayManager := DefaultRelayScore(failures(activeRelays[i].relayUrl))];
      i := i + 1;
    }
    sorted := StableSort(activeRelays, HigherScore(scores));
    ScoreOrder(scores);
    StableSortSorts(activeRelays, HigherScore(scores));
    forall i, j | 0 <= i < j < |sorted| ensures failures(sorted[i].relayUrl) <= failures(sorted[j].relayUrl) {
      assert sorted[i] in multiset(activeRelays) && sorted[j] in multiset(activeRelays);
      assert !HigherScore(scores)(sorted[j], sorted[i]);
      if failures(sorted[j].relayUrl) < failures(sorted[i].relayUrl) {
        ScoreDecreases(failures(sorted[j].relayUrl), failures(sorted[i].relayUrl));
      }
    }
  }

  lemma {:induction false} FilterKeyed(active: seq<RelayInfo>, keep: RelayInfo -> bool)
    requires Keyed(active)
    ensures Keyed(Filter(active, keep))
  {
    if active != [] {
      FilterKeyed(active[..|active| - 1], keep);
      FilterMembers(active[..|active| - 1], keep);
      forall x | x in Filter(active[..|active| - 1], keep) ensures x.relayManager != active[|active| - 1].relayManager {
        assert x in active[..|active| - 1];
      }
    }
  }

  /** Each part is as long as the split size, or ends with the range. */
  ghost predicate CutAt(parts: seq<Part>, toBlock: int, size: int) {
    forall i | 0 <= i < |parts| :: parts[i].toBlock == Min(toBlock, parts[i].fromBlock + size - 1)
  }

  lemma NothingCut(toBlock: int, size: int)
    ensures CutAt([], toBlock, size)
  {
  }

  lemma OneMoreCut(parts: seq<Part>, toBlock: int, size: int, b: int)
    requires CutAt(parts, toBlock, size)
    ensures CutAt(parts + [Part(b, Min(toBlock, b + size - 1))], toBlock, size)
  {
  }

  lemma WholeButTheLast(parts: seq<Part>, fromBlock: int, next: int, toBlock: int, size: int)
    requires Contiguous(parts, fromBlock, next) && CutAt(parts, toBlock, size)
    ensures forall i | 0 <= i < |parts| - 1 :: parts[i].toBlock == parts[i].fromBlock + size - 1
  {
    forall i | 0 <= i < |parts| - 1 ensures parts[i].toBlock < toBlock {
      assert parts[i + 1].fromBlock == parts[i].toBlock + 1 && parts[i + 1].toBlock <= toBlock;
    }
  }

  lemma PartsStayFew(n: nat, splits: nat, size: int, length: int)
    requires size >= 1 && length == n * size < splits * size
    ensures n < splits && (n + 1) * size == length + size
  {
    FewerThan(n, splits, size);
  }

  /** The loop stops at `toBlock` itself exactly when whole steps lead there. */
  lemma LastMissed(fromBlock: int, toBlock: int, splitSize: int, steps: nat)
    requires splitSize >= 1 && fromBlock <= toBlock
    requires toBlock <= fromBlock + steps * splitSize < toBlock + splitSize
    ensures (toBlock - fromBlock) % splitSize == 0 <==> fromBlock + steps * splitSize == toBlock
  {
    StepsOver(toBlock - fromBlock, splitSize, (toBlock - fromBlock) / splitSize, (toBlock - fromBlock) % splitSize,
      steps);
  }

  lemma StepsOver(d: int, size: int, q: int, r: int, steps: int)
    requires size >= 1 && d == size * q + r && 0 <= r < size
    requires d <= steps * size < d + size
    ensures r == 0 <==> steps * size == d
  {
    var k := steps - q;
    assert k * size == steps * size - q * size;
    ScaledGap(k, size, r);
  }

  /** A multiple of the size between the rest and the rest plus the size, exclusive. */
  lemma ScaledGap(k: int, size: int, r: int)
    requires 0 <= r < size && r <= k * size < r + size
    ensures k == (if r == 0 then 0 else 1)
  {
    FewerThan(k, 2, size);
    FewerThan(-1, k, size);
  }
}
