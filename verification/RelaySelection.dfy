/** Choosing the next relay to try (`RelaySelectionManager.ts`). */
module RelaySelection {
  import opened Prelude
  import opened Events
  import opened Sorting
  import opened Race
  import KnownRelays

  /** A relay that was selected: its URL, its manager, and the list it came from (0 preferred, 1 found by events). */
  datatype Pick = Pick(relayUrl: Url, relayManager: Address, tier: nat)

  /**
   `NoRelay` is `undefined`; `Threw` a preferred relay whose registration could not be found; `Hangs` a promise that is
   never settled.
   */
  datatype Selection = Selected(pick: Pick) | NoRelay | Threw(relayUrl: Url) | Hangs

  /**
   What a race won by `w` comes to: a relay found by an event is selected as it is; one known by URL only with the
   manager of the one registration found for the manager it answers with, and if there is not exactly one, the promise
   rejects.
   */
  ghost function Decided(w: Winner, lookup: Address -> seq<KnownRelays.RelayInfo>, tier: nat): Selection {
    match w.relay.relayManager
    case Some(manager) => Selected(Pick(w.relay.relayUrl, manager, tier))
    case None =>
      if |lookup(w.relayManager)| == 1 then
        Selected(Pick(w.relay.relayUrl, lookup(w.relayManager)[0].relayManager, tier))
      else Threw(w.relay.relayUrl)
  }

  /** `w` is the first of the slice to succeed, and of all that failed before it the errors are recorded. */
  ghost predicate WonBy(slice: seq<Relay>, script: Script, w: Winner, errors: map<Url, Error>) {
    exists i: nat :: WinsAt(slice, script, w, i)
      && forall j | 0 <= j < i :: InOrder(slice, script.order(|slice|))[j].relayUrl in errors
  }

  lemma WinnerDecides(slice: seq<Relay>, script: Script, result: RaceResult, errors: map<Url, Error>)
    requires result.RaceResult? && result.winner.Some? && result.errors.Keys <= errors.Keys
    requires exists i: nat ::
      WinsAt(slice, script, result.winner.value, i) && RecordedInTime(slice, script, i, result.errors)
    ensures WonBy(slice, script, result.winner.value, errors) && !AllFail(slice, script)
  {
    var w := result.winner.value;
    var i: nat :| WinsAt(slice, script, w, i) && RecordedInTime(slice, script, i, result.errors);
    InOrderFacts(slice, script.order(|slice|));
    assert w.relay in slice && InTime(script, i, i - 1);
    assert forall j | 0 <= j < i ::
      InTime(script, i, j) && script.reply(InOrder(slice, script.order(|slice|))[j]).Failed?;
  }

  /** The selection is that of a race which one of the known relays has won. */
  ghost predicate WonByKnown(known: seq<Relay>, scripts: nat -> Script, lookup: Address -> seq<KnownRelays.RelayInfo>,
      selection: Selection)
  {
    exists n: nat, w: Winner, tier: nat ::
      w.relay in known && scripts(n).reply(w.relay) == Ready(w.relayManager) && selection == Decided(w, lookup, tier)
  }

  lemma WinnerKnown(known: seq<Relay>, slice: seq<Relay>, scripts: nat -> Script, n: nat,
      lookup: Address -> seq<KnownRelays.RelayInfo>, tier: nat, selection: Selection)
    requires forall r | r in slice :: r in known
    requires exists w, errors :: WonBy(slice, scripts(n), w, errors) && selection == Decided(w, lookup, tier)
    ensures WonByKnown(known, scripts, lookup, selection)
  {
    var w, errors :| WonBy(slice, scripts(n), w, errors) && selection == Decided(w, lookup, tier);
    var i: nat :| WinsAt(slice, scripts(n), w, i);
    InOrderFacts(slice, scripts(n).order(|slice|));
    assert w.relay in known;
  }

  /** Every ping error is what a known relay of that URL answered in some race. */
  ghost predicate PingsFailed(known: seq<Relay>, scripts: nat -> Script, errors: map<Url, Error>) {
    forall url | url in errors :: exists n: nat, r ::
      r in known && FailedWith(r, scripts(n), url, errors[url])
  }

  /** What is new among the errors is what relays of the slice answered. */
  ghost predicate ErrorsAdded(before: map<Url, Error>, slice: seq<Relay>, script: Script, after: map<Url, Error>) {
    exists more :: Explained(slice, script, more) && after == before + more
  }

  lemma MorePingsFailed(known: seq<Relay>, scripts: nat -> Script, before: map<Url, Error>, slice: seq<Relay>, n: nat,
      after: map<Url, Error>)
    requires PingsFailed(known, scripts, before) && forall r | r in slice :: r in known
    requires ErrorsAdded(before, slice, scripts(n), after)
    ensures PingsFailed(known, scripts, after)
  {
    hide FailedWith;
    var more :| Explained(slice, scripts(n), more) && after == before + more;
    forall url | url in after ensures exists m: nat, r :: r in known && FailedWith(r, scripts(m), url, after[url]) {
      if url in more {
        var r :| r in slice && FailedWith(r, scripts(n), url, more[url]);
        assert r in known;
      } else {
        assert url in before;
      }
    }
  }

  function Outside(gone: set<Url>): Relay -> bool {
    (r: Relay) => r.relayUrl !in gone
  }

  lemma SameUrlSameRelay(relays: seq<Relay>)
    requires DistinctUrls(relays)
    ensures forall q, r | q in relays && r in relays && q.relayUrl == r.relayUrl :: q == r
  {
  }

  lemma RemovalUrls(relays: seq<Relay>, gone: set<Url>)
    ensures Urls(Filter(relays, Outside(gone))) == Urls(relays) - gone
  {
    FilterMembers(relays, Outside(gone));
  }

  lemma {:induction false} RemovalDistinct(relays: seq<Relay>, gone: set<Url>)
    requires DistinctUrls(relays)
    ensures DistinctUrls(Filter(relays, Outside(gone)))
  {
    if relays != [] {
      var init, last := relays[..|relays| - 1], relays[|relays| - 1];
      RemovalDistinct(init, gone);
      FilterMembers(init, Outside(gone));
      forall r | r in Filter(init, Outside(gone)) ensures r.relayUrl != last.relayUrl {
        assert r in init;
      }
    }
  }

  /** At least as many relays go as there are URLs to remove among them, and exactly as many if no two share a URL. */
  lemma {:induction false} RemovalCount(relays: seq<Relay>, gone: set<Url>)
    ensures |Filter(relays, Outside(gone))| + |Urls(relays) * gone| <= |relays|
    ensures DistinctUrls(relays) ==> |Filter(relays, Outside(gone))| + |Urls(relays) * gone| == |relays|
  {
    if relays != [] {
      var init, last := relays[..|relays| - 1], relays[|relays| - 1];
      hide Urls, DistinctUrls;
      RemovalCount(init, gone);
      LastUrl(relays);
      if last.relayUrl in gone {
        assert Urls(relays) * gone == Urls(init) * gone + {last.relayUrl};
      } else {
        assert Urls(relays) * gone == Urls(init) * gone;
      }
    }
  }

  lemma LastUrl(relays: seq<Relay>)
    requires relays != []
    ensures var init, last := relays[..|relays| - 1], relays[|relays| - 1];
      && Urls(relays) == Urls(init) + {last.relayUrl}
      && (DistinctUrls(relays) ==> DistinctUrls(init) && last.relayUrl !in Urls(init))
  {
    assert relays == relays[..|relays| - 1] + [relays[|relays| - 1]];
  }

  /** The relays left after a race: those that neither won nor failed in it. */
  function Survivors(relays: seq<Relay>, result: RaceResult): seq<Relay>
    requires result.RaceResult?
  {
    Filter(relays, Outside(Gone(result)))
  }

  lemma ErrorsExplained(slice: seq<Relay>, script: Script, result: RaceResult)
    requires Possible(slice, script, result) && result.RaceResult?
    ensures Explained(slice, script, result.errors)
  {
  }

  lemma AddedErrors(before: map<Url, Error>, slice: seq<Relay>, script: Script, more: map<Url, Error>)
    requires Explained(slice, script, more)
    ensures ErrorsAdded(before, slice, script, before + more)
  {
  }

  lemma NoErrorsAdded(before: map<Url, Error>, slice: seq<Relay>, script: Script)
    ensures ErrorsAdded(before, slice, script, before)
  {
    assert before == before + map[] && Explained(slice, script, map[]);
  }

  lemma SurvivorsKnown(relays: seq<Relay>, result: RaceResult)
    requires result.RaceResult?
    ensures forall r | r in Survivors(relays, result) :: r in relays
  {
    FilterMembers(relays, Outside(Gone(result)));
  }

  function Gone(result: RaceResult): set<Url>
    requires result.RaceResult?
  {
    result.errors.Keys + if result.winner.Some? then {result.winner.value.relay.relayUrl} else {}
  }

  lemma WinnerHasNoError(relays: seq<Relay>, script: Script, result: RaceResult)
    requires DistinctUrls(relays) && Possible(relays, script, result) && result.RaceResult? && result.winner.Some?
    ensures result.winner.value.relay.relayUrl !in result.errors
  {
    SameUrlSameRelay(relays);
  }

  function PickUrls(picks: seq<Pick>): set<Url> {
    set p | p in picks :: p.relayUrl
  }

  /** What a race over a slice of one of the lists does to both, once it resolves. */
  lemma RaceEffect(first: seq<Relay>, second: seq<Relay>, tier: nat, slice: seq<Relay>, script: Script,
      result: RaceResult)
    requires tier <= 1 && Possible(slice, script, result) && result.RaceResult?
    requires slice != [] && forall r | r in slice :: r in if tier == 0 then first else second
    ensures Gone(result) <= Urls(slice) <= Urls(first) + Urls(second)
    ensures DistinctUrls(first) ==> DistinctUrls(Survivors(first, result))
    ensures DistinctUrls(second) ==> DistinctUrls(Survivors(second, result))
    ensures Urls(Survivors(first, result)) == Urls(first) - Gone(result)
    ensures Urls(Survivors(second, result)) == Urls(second) - Gone(result)
    ensures |Survivors(first, result)| + |Survivors(second, result)| < |first| + |second|
    ensures |Survivors(first, result)| <= |first|
    ensures result.winner.Some? && DistinctUrls(slice) ==> result.winner.value.relay.relayUrl !in result.errors
    ensures result.winner.None? ==> result.errors.Keys == Urls(slice) == Gone(result)
  {
    hide DistinctUrls, Filter;
    SliceGone(slice, script, result, if tier == 0 then first else second);
    var gone := Gone(result);
    RemovalUrls(first, gone);
    RemovalUrls(second, gone);
    RemovalCount(first, gone);
    RemovalCount(second, gone);
    if DistinctUrls(first) { RemovalDistinct(first, gone); }
    if DistinctUrls(second) { RemovalDistinct(second, gone); }
    if result.winner.Some? && DistinctUrls(slice) {
      WinnerHasNoError(slice, script, result);
    }
  }

  /**
   Each initial URL is still to be tried, returned, failed its ping, or was lost; none was returned twice; and, if no
   slice ever repeats a URL, each is in exactly one of these places.
   */
  ghost predicate Accounted(initial: set<Url>, remaining: set<Url>, returned: seq<Pick>, failed: set<Url>,
      lost: set<Url>, separate: bool)
  {
    && initial == remaining + PickUrls(returned) + failed + lost
    && remaining !! PickUrls(returned) + failed + lost
    && PickUrls(returned) !! lost
    && (separate ==> failed !! PickUrls(returned) + lost)
    && (forall i, j | 0 <= i < j < |returned| :: returned[i].relayUrl != returned[j].relayUrl)
  }

  lemma PickUrlsSnoc(picks: seq<Pick>, pick: Pick)
    ensures PickUrls(picks + [pick]) == PickUrls(picks) + {pick.relayUrl}
  {
  }

  lemma ReturnedOne(initial: set<Url>, remaining: set<Url>, returned: seq<Pick>, failed: set<Url>, lost: set<Url>,
                    separate: bool, newlyFailed: set<Url>, pick: Pick)
    requires Accounted(initial, remaining, returned, failed, lost, separate)
    requires newlyFailed <= remaining && pick.relayUrl in remaining && (separate ==> pick.relayUrl !in newlyFailed)
    ensures Accounted(initial, remaining - newlyFailed - {pick.relayUrl}, returned + [pick], failed + newlyFailed,
        lost, separate)
    ensures PickUrls(returned + [pick]) == PickUrls(returned) + {pick.relayUrl}
  {
    PickUrlsSnoc(returned, pick);
    assert forall i | 0 <= i < |returned| :: returned[i].relayUrl in PickUrls(returned);
  }

  lemma NoneReturned(initial: set<Url>, remaining: set<Url>, returned: seq<Pick>, failed: set<Url>, lost: set<Url>,
                     separate: bool, newlyFailed: set<Url>, newlyLost: set<Url>)
    requires Accounted(initial, remaining, returned, failed, lost, separate)
    requires newlyFailed <= remaining && newlyLost <= remaining && (separate ==> newlyLost !! newlyFailed)
    ensures Accounted(initial, remaining - newlyFailed - newlyLost, returned, failed + newlyFailed, lost + newlyLost,
        separate)
  {
  }

  /** No slice cut from one of the lists can repeat a URL. */
  ghost predicate SlicesDistinct(sliceSize: nat, lists: seq<seq<Relay>>) {
    sliceSize <= 1 || forall i | 0 <= i < |lists| :: DistinctUrls(lists[i])
  }

  class RelaySelectionManager {
    const sliceSize: nat
    var remainingRelays: seq<seq<Relay>>
    var errors: map<Url, Error>
    var races: nat
    /** What there was at the start, what has been returned so far, and what was lost to a throw. */
    ghost const initial: set<Url>
    ghost const preferred: set<Url>
    ghost const separate: bool
    ghost const known: seq<Relay>
    ghost var returned: seq<Pick>
    ghost var lost: set<Url>

    /** Every initial URL is accounted for, and every preferred one that is not in the first list any more. */
    ghost predicate Valid()
      reads this
    {
      && sliceSize >= 1
      && |remainingRelays| == 2 && (separate ==> SlicesDistinct(sliceSize, remainingRelays))
      && Accounted(initial, Remaining(), returned, errors.Keys, lost, separate)
      && preferred <= Urls(remainingRelays[0]) + PickUrls(returned) + errors.Keys + lost
      && AllKnown()
    }

    ghost predicate AllKnown()
      reads this
    {
      |remainingRelays| == 2 && forall r | r in remainingRelays[0] || r in remainingRelays[1] :: r in known
    }

    /** In default mode the second list is used only once the first is used up. */
    ghost predicate TiersKept()
      reads this
    {
      && |remainingRelays| == 2
      && (forall i, j | 0 <= i < j < |returned| :: returned[i].tier <= returned[j].tier)
      && (forall p | p in returned :: p.tier <= 1 && (p.tier == 1 ==> remainingRelays[0] == []))
    }

    ghost function Remaining(): set<Url>
      reads this
      requires |remainingRelays| == 2
    {
      Urls(remainingRelays[0]) + Urls(remainingRelays[1])
    }

    /** `relaysLeft().length` */
    function Left(): nat
      reads this
      requires |remainingRelays| == 2
    {
      |remainingRelays[0]| + |remainingRelays[1]|
    }

    constructor (sliceSize: nat, preferred: seq<Relay>, active: seq<Relay>)
      requires sliceSize >= 1
      ensures Valid() && TiersKept()
      ensures this.sliceSize == sliceSize && remainingRelays == [preferred, active] && errors == map[]
        && returned == [] && lost == {}
      ensures initial == Urls(preferred) + Urls(active) && this.preferred == Urls(preferred)
      ensures separate <==> SlicesDistinct(sliceSize, [preferred, active])
      ensures known == preferred + active
    {
      this.sliceSize := sliceSize;
      remainingRelays, errors, races := [preferred, active], map[], 0;
      initial, this.preferred, returned, lost := Urls(preferred) + Urls(active), Urls(preferred), [], {};
      separate, known := SlicesDistinct(sliceSize, [preferred, active]), preferred + active;
    }

    /** A relay stays in its list, in its place, iff it neither won nor failed; the newest error of a URL counts. */
    method HandleRaceResults(result: RaceResult)
      requires result.RaceResult? && |remainingRelays| == 2
      modifies this`errors, this`remainingRelays
      ensures forall url :: url in errors <==> url in old(errors) || url in result.errors
      ensures forall url | url in errors ::
        errors[url] == if url in result.errors then result.errors[url] else old(errors)[url]
      ensures |remainingRelays| == 2
      ensures forall i | 0 <= i < 2 :: remainingRelays[i] == Survivors(old(remainingRelays[i]), result)
      ensures forall i | 0 <= i < 2 :: Keeps(remainingRelays[i], old(remainingRelays[i]), Outside(Gone(result)))
    {
      hide Keeps, Filter;
      FilterKeeps(remainingRelays[0], Outside(Gone(result)));
      FilterKeeps(remainingRelays[1], Outside(Gone(result)));
      errors := errors + result.errors;
      remainingRelays := [Survivors(remainingRelays[0], result), Survivors(remainingRelays[1], result)];
    }

    /** `_getNextSlice`: from the first list that is not used up. */
    method GetNextSlice() returns (tier: nat, slice: seq<Relay>)
      requires |remainingRelays| == 2
      ensures tier <= 1
      ensures slice == remainingRelays[tier][..Min(sliceSize, |remainingRelays[tier]|)]
      ensures tier == 1 ==> remainingRelays[0] == [] || sliceSize == 0
      ensures slice == [] <==> Left() == 0 || sliceSize == 0
    {
      tier := 0;
      while tier < |remainingRelays|
        invariant 0 <= tier <= 2
        invariant forall t | 0 <= t < tier :: remainingRelays[t] == [] || sliceSize == 0
      {
        var bulkSize := Min(sliceSize, |remainingRelays[tier]|);
        slice := remainingRelays[tier][..bulkSize];
        if |slice| != 0 {
          return;
        }
        tier := tier + 1;
      }
      tier, slice := 1, [];
    }

    /** Races one slice and removes from both lists whoever won or failed. */
    method RaceSlice(tier: nat, slice: seq<Relay>, script: Script) returns (result: RaceResult)
      requires Valid() && Settles(script)
      requires tier <= 1 && slice != [] && forall r | r in slice :: r in remainingRelays[tier]
      modifies this`errors, this`remainingRelays, this`races
      ensures Possible(slice, script, result) && races == old(races) + 1
      ensures result.NeverResolves? <==> AllFail(slice, script) && !DistinctUrls(slice)
      ensures result.NeverResolves? ==> errors == old(errors) && remainingRelays == old(remainingRelays)
      ensures result.RaceResult? ==>
        && |remainingRelays| == 2 && (separate ==> SlicesDistinct(sliceSize, remainingRelays))
        && Left() < old(Left()) && |remainingRelays[0]| <= |old(remainingRelays[0])|
        && Remaining() == old(Remaining()) - Gone(result)
        && Urls(remainingRelays[0]) == Urls(old(remainingRelays[0])) - Gone(result)
        && errors.Keys == old(errors).Keys + result.errors.Keys && Gone(result) <= Urls(slice) <= old(Remaining())
        && (result.winner.Some? && DistinctUrls(slice) ==> result.winner.value.relay.relayUrl !in result.errors)
        && (result.winner.None? ==> result.errors.Keys == Urls(slice) == Gone(result))
        && remainingRelays[0] == Survivors(old(remainingRelays[0]), result) && AllKnown()
      ensures result.RaceResult? && result.winner.Some? ==>
        WonBy(slice, script, result.winner.value, errors) && !AllFail(slice, script)
      ensures result.RaceResult? ==> errors == old(errors) + result.errors && Explained(slice, script, result.errors)
    {
      hide Possible, DistinctUrls, Urls, Settles, Survivors, Gone, Accounted, AllFail, Keeps, Explained, WinsAt,
        RecordedInTime, WonBy;
      result := RaceToSuccess(slice, script);
      races := races + 1;
      if result.NeverResolves? {
        return;
      }
      ErrorsExplained(slice, script, result);
      RaceEffect(remainingRelays[0], remainingRelays[1], tier, slice, script, result);
      SurvivorsKnown(remainingRelays[0], result);
      SurvivorsKnown(remainingRelays[1], result);
      HandleRaceResults(result);
      assert errors == old(errors) + result.errors;
      if result.winner.Some? {
        WinnerDecides(slice, script, result, errors);
      }
    }

    /** `_nextRelayInternal`: races one slice, and looks up the registration of a winner known only by URL. */
    method NextRelayInternal(tier: nat, slice: seq<Relay>, script: Script,
        lookup: Address -> seq<KnownRelays.RelayInfo>)
      returns (selection: Selection)
      requires Valid() && Settles(script)
      requires tier <= 1 && slice != [] && forall r | r in slice :: r in remainingRelays[tier]
      requires separate ==> DistinctUrls(slice)
      modifies this
      ensures Valid() && races == old(races) + 1
      ensures selection.Hangs? <==> AllFail(slice, script) && !DistinctUrls(slice)
      ensures selection.NoRelay? <==> AllFail(slice, script) && DistinctUrls(slice)
      ensures selection.Selected? || selection.Threw? ==>
        exists w :: WonBy(slice, script, w, errors) && selection == Decided(w, lookup, tier)
      ensures ErrorsAdded(old(errors), slice, script, errors)
      ensures if selection.Hangs? then remainingRelays == old(remainingRelays) && errors == old(errors)
        else Left() < old(Left())
      ensures |remainingRelays[0]| <= |old(remainingRelays[0])|
      ensures old(errors).Keys <= errors.Keys
      ensures if selection.Selected?
        then returned == old(returned) + [selection.pick] && selection.pick.tier == tier
          && selection.pick.relayUrl in Urls(slice)
        else returned == old(returned)
      ensures lost == if selection.Threw? then old(lost) + {selection.relayUrl} else old(lost)
      ensures selection.NoRelay? ==>
        && DistinctUrls(slice) && Urls(slice) <= errors.Keys
        && remainingRelays[0] == Filter(old(remainingRelays[0]), Outside(Urls(slice)))
    {
      hide Accounted, Possible, DistinctUrls, Urls, PickUrls, Settles, SlicesDistinct, AllFail, WonBy,
        ErrorsAdded;
      ghost var remaining, failed, before := Remaining(), errors.Keys, Urls(remainingRelays[0]);
      var raceResult := RaceSlice(tier, slice, script);
      if raceResult.NeverResolves? {
        NoErrorsAdded(errors, slice, script);
        return Hangs;
      }
      AddedErrors(old(errors), slice, script, raceResult.errors);
      ghost var newlyFailed := raceResult.errors.Keys;
      if raceResult.winner.None? {
        NoneReturned(initial, remaining, returned, failed, lost, separate, newlyFailed, {});
        assert Remaining() == remaining - newlyFailed - {} && lost + {} == lost;
        NoWinnerAllDistinct(slice, script, raceResult);
        return NoRelay;
      }
      var w := raceResult.winner.value;
      selection := SelectWinner(tier, w, lookup, remaining, failed, newlyFailed);
    }

    /** The winner of a race, with its manager; one known by URL only is looked up. */
    method SelectWinner(tier: nat, w: Winner, lookup: Address -> seq<KnownRelays.RelayInfo>, ghost remaining: set<Url>,
        ghost failed: set<Url>, ghost newlyFailed: set<Url>)
      returns (selection: Selection)
      requires sliceSize >= 1 && AllKnown() && (separate ==> SlicesDistinct(sliceSize, remainingRelays))
      requires Accounted(initial, remaining, returned, failed, lost, separate)
      requires newlyFailed <= remaining && errors.Keys == failed + newlyFailed
      requires w.relay.relayUrl in remaining && (separate ==> w.relay.relayUrl !in newlyFailed)
      requires Remaining() == remaining - newlyFailed - {w.relay.relayUrl}
      requires preferred <= Urls(remainingRelays[0]) + PickUrls(returned) + {w.relay.relayUrl} + errors.Keys + lost
      modifies this`returned, this`lost
      ensures Valid() && selection == Decided(w, lookup, tier)
      ensures returned == if selection.Selected? then old(returned) + [selection.pick] else old(returned)
      ensures lost == if selection.Threw? then old(lost) + {w.relay.relayUrl} else old(lost)
    {
      hide Accounted, Urls, PickUrls, SlicesDistinct;
      var manager := w.relay.relayManager;
      if manager.None? && |lookup(w.relayManager)| == 1 {
        manager := Some(lookup(w.relayManager)[0].relayManager);
      }
      if manager.Some? {
        selection := Selected(Pick(w.relay.relayUrl, manager.value, tier));
        ReturnedOne(initial, remaining, returned, failed, lost, separate, newlyFailed, selection.pick);
        returned := returned + [selection.pick];
      } else {
        NoneReturned(initial, remaining, returned, failed, lost, separate, newlyFailed, {w.relay.relayUrl});
        lost := lost + {w.relay.relayUrl};
        selection := Threw(w.relay.relayUrl);
      }
    }

    /** `selectNextRelay` in default mode: slice after slice, the preferred relays first. */
    method SelectNextRelay(scripts: nat -> Script, lookup: Address -> seq<KnownRelays.RelayInfo>)
      returns (selection: Selection)
      requires Valid() && TiersKept() && forall i :: Settles(scripts(i))
      modifies this
      ensures Valid() && TiersKept() && |remainingRelays[0]| <= |old(remainingRelays[0])|
      ensures old(errors).Keys <= errors.Keys
      ensures selection.Hangs? ==> !separate
      ensures selection.Selected? || selection.Threw? ==> WonByKnown(known, scripts, lookup, selection)
      ensures old(PingsFailed(known, scripts, errors)) ==> PingsFailed(known, scripts, errors)
      ensures selection.Selected? ==>
        returned == old(returned) + [selection.pick] && lost == old(lost) && Left() < old(Left())
      ensures selection.NoRelay? ==> returned == old(returned) && lost == old(lost) && Left() == 0
      ensures !selection.Selected? ==> returned == old(returned)
    {
      hide Accounted, AllFail, Urls, SlicesDistinct, DistinctUrls, PickUrls, Settles, Filter, ErrorsAdded, PingsFailed,
        WonByKnown, WonBy;
      while true
        invariant Valid() && TiersKept() && Left() <= old(Left()) && |remainingRelays[0]| <= |old(remainingRelays[0])|
        invariant returned == old(returned) && lost == old(lost) && old(errors).Keys <= errors.Keys
        invariant old(PingsFailed(known, scripts, errors)) ==> PingsFailed(known, scripts, errors)
        decreases Left()
      {
        var tier, slice := GetNextSlice();
        if |slice| == 0 {
          return NoRelay;
        }
        PrefixDistinct(sliceSize, remainingRelays, tier, 0, |slice|);
        ghost var n, errorsBefore := races, errors;
        selection := NextRelayInternal(tier, slice, scripts(races), lookup);
        if old(PingsFailed(known, scripts, errors)) {
          MorePingsFailed(known, scripts, errorsBefore, slice, n, errors);
        }
        if selection.Selected? || selection.Threw? {
          WinnerKnown(known, slice, scripts, n, lookup, tier, selection);
        }
        if !selection.NoRelay? {
          return;
        }
      }
    }

    /** `_getPreferredRelaysNextSlice` */
    method GetPreferredRelaysNextSlice(index: nat) returns (slice: seq<Relay>)
      requires |remainingRelays| == 2
      ensures slice == if |remainingRelays[0]| >= index + 1
                       then remainingRelays[0][index..index + Min(sliceSize, |remainingRelays[0]| - index)] else []
    {
      slice := [];
      if |remainingRelays[0]| >= index + 1 {
        var relays := remainingRelays[0][index..];
        slice := relays[..Min(sliceSize, |relays|)];
      }
    }

    /**
     `selectNextRelay` restricted to preferred relays. The index moves on although the relays that failed are gone
     already: if they all fit in one slice, giving up means that every one was tried; if no two share a URL, only
     then.
     */
    method SelectNextPreferredRelay(scripts: nat -> Script, lookup: Address -> seq<KnownRelays.RelayInfo>)
      returns (selection: Selection)
      requires Valid() && forall i :: Settles(scripts(i))
      modifies this
      ensures Valid() && old(errors).Keys <= errors.Keys && |remainingRelays[0]| <= |old(remainingRelays[0])|
      ensures selection.Hangs? ==> !separate
      ensures selection.Selected? || selection.Threw? ==> WonByKnown(known, scripts, lookup, selection)
      ensures old(PingsFailed(known, scripts, errors)) ==> PingsFailed(known, scripts, errors)
      ensures selection.Selected? ==>
        returned == old(returned) + [selection.pick] && lost == old(lost) && selection.pick.tier == 0
      ensures selection.Selected? ==> Left() < old(Left())
      ensures selection.NoRelay? ==> returned == old(returned) && lost == old(lost)
      ensures selection.NoRelay? && |old(remainingRelays[0])| <= sliceSize ==> remainingRelays[0] == []
      ensures selection.NoRelay? && DistinctUrls(old(remainingRelays[0])) ==>
        (remainingRelays[0] == [] <==> |old(remainingRelays[0])| <= sliceSize)
      ensures !selection.Selected? ==> returned == old(returned)
    {
      hide Accounted, AllFail, Urls, SlicesDistinct, DistinctUrls, PickUrls, Settles, Filter, ErrorsAdded, PingsFailed,
        WonByKnown, WonBy;
      var index: nat := 0;
      ghost var total := |remainingRelays[0]|;
      while true
        invariant Valid() && |remainingRelays[0]| + index <= total && Left() <= old(Left())
        invariant returned == old(returned) && lost == old(lost) && old(errors).Keys <= errors.Keys
        invariant old(PingsFailed(known, scripts, errors)) ==> PingsFailed(known, scripts, errors)
        invariant index == 0 ==> remainingRelays[0] == old(remainingRelays[0])
        invariant index != 0 && total <= sliceSize ==> remainingRelays[0] == []
        invariant DistinctUrls(old(remainingRelays[0])) ==>
          DistinctUrls(remainingRelays[0]) && |remainingRelays[0]| == total - index
        invariant total > sliceSize && index != 0 && DistinctUrls(old(remainingRelays[0])) ==> index < total
        decreases |remainingRelays[0]|
      {
        var slice := GetPreferredRelaysNextSlice(index);
        if |slice| == 0 {
          return NoRelay;
        }
        ghost var before := remainingRelays[0];
        PrefixDistinct(sliceSize, remainingRelays, 0, index, |slice|);
        ghost var n, errorsBefore := races, errors;
        selection := NextRelayInternal(0, slice, scripts(races), lookup);
        if old(PingsFailed(known, scripts, errors)) {
          MorePingsFailed(known, scripts, errorsBefore, slice, n, errors);
        }
        if selection.Selected? || selection.Threw? {
          WinnerKnown(known, slice, scripts, n, lookup, 0, selection);
        }
        if !selection.NoRelay? {
          return;
        }
        RemovalCount(before, Urls(slice));
        if DistinctUrls(before) { RemovalDistinct(before, Urls(slice)); }
        SliceCount(before, slice);
        index := index + |slice|;
      }
    }
  }

  lemma PrefixDistinct(sliceSize: nat, lists: seq<seq<Relay>>, tier: nat, from: nat, n: nat)
    requires tier < |lists| && from + n <= |lists[tier]| && n <= sliceSize
    ensures SlicesDistinct(sliceSize, lists) ==> DistinctUrls(lists[tier][from..from + n])
    ensures forall r | r in lists[tier][from..from + n] :: r in lists[tier]
  {
  }

  /** A race that ends without a winner was over distinct URLs: it recorded an error for each. */
  lemma NoWinnerAllDistinct(slice: seq<Relay>, script: Script, result: RaceResult)
    requires Possible(slice, script, result) && result.RaceResult? && result.winner.None?
    ensures AllFail(slice, script)
  {
  }

  lemma SliceCount(relays: seq<Relay>, slice: seq<Relay>)
    requires DistinctUrls(slice) && forall r | r in slice :: r in relays
    ensures |Urls(relays) * Urls(slice)| == |slice|
  {
    UrlCount(slice);
    assert Urls(relays) * Urls(slice) == Urls(slice);
  }

  /** A race over a slice removes at least one relay of the list the slice was cut from. */
  lemma SliceGone(slice: seq<Relay>, script: Script, result: RaceResult, relays: seq<Relay>)
    requires Possible(slice, script, result) && result.RaceResult?
    requires slice != [] && forall r | r in slice :: r in relays
    ensures Gone(result) <= Urls(slice) && |Urls(relays) * Gone(result)| > 0
    ensures result.winner.None? ==> Gone(result) == Urls(slice) && result.errors.Keys == Urls(slice)
  {
    var r := if result.winner.Some? then result.winner.value.relay else slice[0];
    assert r in slice && r.relayUrl in Urls(relays) * Gone(result);
  }
}
