/** Contract events and the helpers of `Utils.ts` that order them. */
module Events {
  import opened Prelude
  import opened Sorting

  /** A 160-bit account number. Letter case of the hexadecimal form is not represented. */
  type Address = nat

  datatype EventName =
    | RelayServerRegistered
    | RelayWorkersAdded
    | TransactionRelayed
    | TransactionRejectedByRecipient
    | StakeAdded
    | StakeUnlocked
    | StakeWithdrawn
    | StakePenalized

  datatype ReturnValues = ReturnValues(relayManager: Address, relayUrl: string, newRelayWorkers: seq<Address>,
                                       withdrawBlock: nat)

  datatype EventData = EventData(event: EventName, blockNumber: nat, transactionIndex: nat, returnValues: ReturnValues)

  predicate IsSecondEventLater(a: EventData, b: EventData) {
    if a.blockNumber == b.blockNumber then b.transactionIndex > a.transactionIndex
    else b.blockNumber > a.blockNumber
  }

  predicate SamePosition(a: EventData, b: EventData) {
    a.blockNumber == b.blockNumber && a.transactionIndex == b.transactionIndex
  }

  /** The comparator of `getLatestEventData`: latest first. */
  predicate NewestFirst(a: EventData, b: EventData) {
    IsSecondEventLater(b, a)
  }

  /** The comparator of `getRelayInfoForManagers`: oldest first. */
  predicate OldestFirst(a: EventData, b: EventData) {
    IsSecondEventLater(a, b)
  }

  lemma EventOrders()
    ensures StrictWeakOrder(NewestFirst) && StrictWeakOrder(OldestFirst)
  {
  }

  /** `getLatestEventData`: sorts its argument in place and returns the first element. */
  method GetLatestEventData(events: array<EventData>) returns (latest: Option<EventData>)
    modifies events
    ensures events[..] == StableSort(old(events[..]), NewestFirst)
    ensures latest == Latest(old(events[..]))
  {
    ghost var was := events[..];
    SortInPlace(events, NewestFirst);
    SortedHeadIsLatest(was);
    assert |events[..]| == |was|;
    if events.Length == 0 {
      latest := None;
    } else {
      assert events[0] == events[..][0];
      latest := Some(events[0]);
    }
  }

  /** One step of the incremental fold: replace the remembered event only by a strictly later one. */
  function Newer(last: Option<EventData>, e: EventData): Option<EventData> {
    if last.None? || IsSecondEventLater(last.value, e) then Some(e) else last
  }

  function Fold(last: Option<EventData>, events: seq<EventData>): Option<EventData> {
    if events == [] then last
    else Newer(Fold(last, events[..|events| - 1]), events[|events| - 1])
  }

  /** The first of the latest events, in the order of the sequence. */
  function Latest(events: seq<EventData>): Option<EventData> {
    Fold(None, events)
  }

  /** `last` is an element of `events` that none of them is later than. */
  ghost predicate IsLatestOf(last: Option<EventData>, events: seq<EventData>) {
    match last
    case None => events == []
    case Some(e) => e in events && forall x | x in events ::
      x.blockNumber < e.blockNumber || (x.blockNumber == e.blockNumber && x.transactionIndex <= e.transactionIndex)
  }

  lemma {:induction false} InsertHead(s: seq<EventData>, x: EventData)
    requires s != [] && Sorted(s, NewestFirst)
    ensures Insert(s, x, NewestFirst)[0] == if NewestFirst(x, s[0]) then x else s[0]
  {
    if NewestFirst(x, s[|s| - 1]) && |s| > 1 {
      InsertHead(s[..|s| - 1], x);
    }
  }

  /** The batch query (sort, take the first) and the incremental fold give the same event. */
  lemma {:induction false} SortedHeadIsLatest(events: seq<EventData>)
    ensures Latest(events) == if events == [] then None else Some(StableSort(events, NewestFirst)[0])
  {
    if events != [] {
      var init := events[..|events| - 1];
      SortedHeadIsLatest(init);
      if init != [] {
        EventOrders();
        StableSortSorts(init, NewestFirst);
        InsertHead(StableSort(init, NewestFirst), events[|events| - 1]);
      }
    }
  }

  lemma {:induction false} FoldIsLatest(last: Option<EventData>, seen: seq<EventData>, events: seq<EventData>)
    requires IsLatestOf(last, seen)
    ensures IsLatestOf(Fold(last, events), seen + events)
  {
    if events == [] {
      assert seen + events == seen;
    } else {
      var init, e := events[..|events| - 1], events[|events| - 1];
      FoldIsLatest(last, seen, init);
      assert seen + events == (seen + init) + [e];
    }
  }

  /** Two correct answers for the same set of events are at the same block and index. */
  lemma LatestPositionIsUnique(a: Option<EventData>, s: seq<EventData>, b: Option<EventData>, t: seq<EventData>)
    requires IsLatestOf(a, s) && IsLatestOf(b, t)
    requires forall x :: x in s <==> x in t
    ensures a.Some? <==> b.Some?
    ensures a.Some? ==>
      a.value.blockNumber == b.value.blockNumber && a.value.transactionIndex == b.value.transactionIndex
  {
    if s != [] { assert s[0] in t; }
    if t != [] { assert t[0] in s; }
  }

  function FoldBatches(last: Option<EventData>, batches: seq<seq<EventData>>): Option<EventData> {
    if batches == [] then last
    else Fold(FoldBatches(last, batches[..|batches| - 1]), batches[|batches| - 1])
  }

  function Flatten(batches: seq<seq<EventData>>): seq<EventData> {
    if batches == [] then []
    else Flatten(batches[..|batches| - 1]) + batches[|batches| - 1]
  }

  lemma {:induction false} FoldBatchesIsLatest(batches: seq<seq<EventData>>)
    ensures IsLatestOf(FoldBatches(None, batches), Flatten(batches))
  {
    if batches != [] {
      FoldBatchesIsLatest(batches[..|batches| - 1]);
      FoldIsLatest(FoldBatches(None, batches[..|batches| - 1]), Flatten(batches[..|batches| - 1]),
        batches[|batches| - 1]);
    }
  }

  /**
   Folding any batches, overlapping and in any order, ends at the same block and index as one
   sorted query over any listing of the same events.
   */
  lemma FoldRefinesQuery(batches: seq<seq<EventData>>, all: seq<EventData>)
    requires forall x :: x in all <==> x in Flatten(batches)
    ensures FoldBatches(None, batches).Some? <==> Latest(all).Some?
    ensures Latest(all).Some? ==> SamePosition(FoldBatches(None, batches).value, Latest(all).value)
  {
    FoldBatchesIsLatest(batches);
    FoldIsLatest(None, [], all);
    assert [] + all == all;
    LatestPositionIsUnique(FoldBatches(None, batches), Flatten(batches), Latest(all), all);
  }

  function MinedAfter(block: nat): EventData -> bool {
    (e: EventData) => e.blockNumber > block
  }

  /** Dropping everything up to a block cannot change the latest event, unless it drops everything. */
  lemma {:induction false} LatestOfWindow(events: seq<EventData>, block: nat)
    requires Filter(events, MinedAfter(block)) != []
    ensures Latest(Filter(events, MinedAfter(block))) == Latest(events)
  {
    var keep := MinedAfter(block);
    var init, x := events[..|events| - 1], events[|events| - 1];
    var kept := Filter(init, keep);
    if kept != [] {
      LatestOfWindow(init, block);
      FilterMembers(init, keep);
      FoldIsLatest(None, [], kept);
      assert [] + kept == kept;
    } else {
      FilterMembers(init, keep);
      FoldIsLatest(None, [], init);
      assert [] + init == init;
    }
    if keep(x) {
      assert Latest(kept + [x]) == Newer(Latest(kept), x) by { assert (kept + [x])[..|kept|] == kept; }
      if kept == [] && init != [] { assert !keep(Latest(init).value); }
    } else {
      assert Filter(events, keep) == kept;
    }
  }
}
