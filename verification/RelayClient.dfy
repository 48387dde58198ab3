/** The attempt loop of `relayTransaction` (`RelayClient.ts`). */
module RelayClient {
  import opened Prelude
  import opened Events
  import opened Race
  import opened RelaySelection
  import KnownRelays

  /** What an attempt through one relay comes to; estimating the token gas may throw before it. */
  datatype Attempt = Relayed(transaction: nat) | RelayingFailed(error: Error) | EstimateThrew

  /** `Hangs` is a promise that is never settled. */
  datatype RelayingResult =
    | NoRegisteredRelayers
    | Rejected
    | Hangs
    | RelayingResult(transaction: Option<nat>, relayingErrors: map<Url, Error>, pingErrors: map<Url, Error>)

  /** The errors recorded are exactly those of the attempts made, by URL. */
  ghost predicate AttemptsFailed(picks: seq<Pick>, attempt: Pick -> Attempt, errors: map<Url, Error>) {
    && errors.Keys == PickUrls(picks)
    && forall i | 0 <= i < |picks| :: attempt(picks[i]).RelayingFailed? && picks[i].relayUrl in errors
         && errors[picks[i].relayUrl] == attempt(picks[i]).error
  }

  /** No relay twice, each one known at the start, and the lists in order of preference. */
  ghost predicate ProperAttempts(picks: seq<Pick>, known: set<Url>, onlyPreferredRelays: bool) {
    && (forall i, j | 0 <= i < j < |picks| :: picks[i].relayUrl != picks[j].relayUrl)
    && PickUrls(picks) <= known
    && (forall i, j | 0 <= i < j < |picks| :: picks[i].tier <= picks[j].tier)
    && (onlyPreferredRelays ==> forall i | 0 <= i < |picks| :: picks[i].tier == 0)
  }

  /** The promise: nothing is left unexplained, and the two kinds of errors do not overlap if no slice repeats a URL. */
  ghost predicate FullyExplained(known: set<Url>, relayingErrors: map<Url, Error>, pingErrors: map<Url, Error>,
      separate: bool)
  {
    && known <= relayingErrors.Keys + pingErrors.Keys
    && (separate ==> relayingErrors.Keys !! pingErrors.Keys)
  }

  /**
   Nothing on the way to an attempt throws: no gas estimate, and no lookup of the manager a known relay answers with.
   */
  ghost predicate NothingThrows(known: seq<Relay>, scripts: nat -> Script,
      lookup: Address -> seq<KnownRelays.RelayInfo>, attempt: Pick -> Attempt)
  {
    && (forall p: Pick :: !attempt(p).EstimateThrew?)
    && (forall n: nat, r | r in known && r.relayManager.None? && scripts(n).reply(r).Ready? ::
          |lookup(scripts(n).reply(r).relayManager)| == 1)
  }

  /** A relay of this URL is known, every one of them answers every ping, and any attempt through it succeeds. */
  ghost predicate Works(url: Url, known: seq<Relay>, scripts: nat -> Script, attempt: Pick -> Attempt) {
    && url in Urls(known)
    && (forall n: nat, r | r in known && r.relayUrl == url :: scripts(n).reply(r).Ready?)
    && (forall p: Pick | p.relayUrl == url :: attempt(p).Relayed?)
  }

  /**
   How the loop ends, by the last selection made. It rejects exactly when that selection or the gas estimate for it
   threw; it ends without a transaction exactly when nothing was left to select; all attempts before failed.
   */
  ghost predicate EndsBy(final: Selection, attempted: seq<Pick>, attempt: Pick -> Attempt, result: RelayingResult) {
    && (result.Rejected? <==> final.Threw? || (final.Selected? && attempt(final.pick).EstimateThrew?))
    && (result.Hangs? <==> final.Hangs?)
    && (result.RelayingResult? && result.transaction.None? <==> final.NoRelay?)
    && (final.Selected? ==>
          attempted != [] && attempted[|attempted| - 1] == final.pick && !attempt(final.pick).RelayingFailed?)
    && forall i | 0 <= i < |attempted| - (if final.Selected? then 1 else 0) :: attempt(attempted[i]).RelayingFailed?
  }

  /** Every attempt, and a selection that threw, came of a race won by a known relay. */
  ghost predicate AllWon(known: seq<Relay>, scripts: nat -> Script, lookup: Address -> seq<KnownRelays.RelayInfo>,
      final: Selection, attempted: seq<Pick>)
  {
    && (forall p | p in attempted :: WonByKnown(known, scripts, lookup, Selected(p)))
    && (final.Threw? ==> WonByKnown(known, scripts, lookup, final))
  }

  /**
   Tries relay after relay. Without a transaction, every relay known at the start failed its ping or its attempt; in
   preferred-only mode, every preferred one if they fit in one slice. No relay is attempted twice, so the loop ends,
   unless a slice repeats a URL, which is the only way to wait for ever. It rejects only because a gas estimate or the
   lookup of a winner threw. So if nothing throws and some relay works, there is a transaction.
   */
  method RelayTransaction(preferred: seq<Relay>, active: seq<Relay>, sliceSize: nat, onlyPreferredRelays: bool,
                          scripts: nat -> Script, lookup: Address -> seq<KnownRelays.RelayInfo>,
                          attempt: Pick -> Attempt)
    returns (result: RelayingResult, attempted: seq<Pick>, ghost final: Selection)
    requires sliceSize >= 1 && forall i :: Settles(scripts(i))
    ensures |attempted| <= |preferred| + |active|
    ensures ProperAttempts(attempted, Urls(preferred) + Urls(active), onlyPreferredRelays)
    ensures result.NoRegisteredRelayers? <==> |preferred| + |active| == 0
    ensures !result.NoRegisteredRelayers? ==>
      EndsBy(final, attempted, attempt, result) && AllWon(preferred + active, scripts, lookup, final, attempted)
    ensures result.Hangs? ==> !SlicesDistinct(sliceSize, [preferred, active])
    ensures result.RelayingResult? && result.transaction.Some? ==>
      attempted != [] && attempt(attempted[|attempted| - 1]) == Relayed(result.transaction.value)
      && AttemptsFailed(attempted[..|attempted| - 1], attempt, result.relayingErrors)
    ensures result.RelayingResult? && result.transaction.None? ==>
      && AttemptsFailed(attempted, attempt, result.relayingErrors)
      && (!onlyPreferredRelays || |preferred| <= sliceSize ==>
            FullyExplained(if onlyPreferredRelays then Urls(preferred) else Urls(preferred) + Urls(active),
                           result.relayingErrors, result.pingErrors, SlicesDistinct(sliceSize, [preferred, active])))
    ensures result.RelayingResult? ==> PingsFailed(preferred + active, scripts, result.pingErrors)
    ensures NothingThrows(preferred + active, scripts, lookup, attempt) ==> !result.Rejected?
    ensures (&& !onlyPreferredRelays && SlicesDistinct(sliceSize, [preferred, active])
             && NothingThrows(preferred + active, scripts, lookup, attempt)
             && exists url :: Works(url, preferred + active, scripts, attempt)) ==>
      result.RelayingResult? && result.transaction.Some?
  {
    hide Urls, DistinctUrls, Settles, AttemptsFailed, FullyExplained, ProperAttempts, SlicesDistinct, EndsBy, AllWon,
      NothingThrows, PingsFailed, Works;
    result, attempted, final := TryRelays(preferred, active, sliceSize, onlyPreferredRelays, scripts, lookup, attempt);
    if !result.NoRegisteredRelayers? && NothingThrows(preferred + active, scripts, lookup, attempt) {
      NothingThrown(preferred + active, scripts, lookup, final, attempted, attempt, result);
      if !onlyPreferredRelays && result.RelayingResult? && result.transaction.None? {
        NobodyWorks(preferred, active, scripts, attempted, attempt, result,
          SlicesDistinct(sliceSize, [preferred, active]));
      }
    } else if |preferred| + |active| == 0 {
      NobodyKnown(preferred + active, scripts, attempt);
    }
  }

  lemma NothingThrown(known: seq<Relay>, scripts: nat -> Script, lookup: Address -> seq<KnownRelays.RelayInfo>,
      final: Selection, attempted: seq<Pick>, attempt: Pick -> Attempt, result: RelayingResult)
    requires NothingThrows(known, scripts, lookup, attempt) && EndsBy(final, attempted, attempt, result)
    requires AllWon(known, scripts, lookup, final, attempted)
    ensures !result.Rejected?
  {
    forall selection | WonByKnown(known, scripts, lookup, selection) ensures !selection.Threw? {
      var n: nat, w: Winner, tier: nat :| w.relay in known && scripts(n).reply(w.relay) == Ready(w.relayManager)
        && selection == Decided(w, lookup, tier);
    }
  }

  /** When every known relay has an error, none of them works. */
  lemma NobodyWorks(preferred: seq<Relay>, active: seq<Relay>, scripts: nat -> Script, attempted: seq<Pick>,
      attempt: Pick -> Attempt, result: RelayingResult, separate: bool)
    requires result.RelayingResult? && AttemptsFailed(attempted, attempt, result.relayingErrors)
    requires FullyExplained(Urls(preferred) + Urls(active), result.relayingErrors, result.pingErrors, separate)
    requires PingsFailed(preferred + active, scripts, result.pingErrors)
    ensures forall url :: !Works(url, preferred + active, scripts, attempt)
  {
    forall url | url in Urls(preferred + active) ensures !Works(url, preferred + active, scripts, attempt) {
      assert url in Urls(preferred) + Urls(active);
      if url in result.pingErrors {
        var n: nat, r :| r in preferred + active && FailedWith(r, scripts(n), url, result.pingErrors[url]);
        assert !scripts(n).reply(r).Ready?;
      } else {
        assert url in PickUrls(attempted);
        var p :| p in attempted && p.relayUrl == url;
        var i :| 0 <= i < |attempted| && attempted[i] == p;
        assert attempt(attempted[i]).RelayingFailed?;
      }
    }
  }

  lemma NobodyKnown(known: seq<Relay>, scripts: nat -> Script, attempt: Pick -> Attempt)
    requires known == []
    ensures forall url :: !Works(url, known, scripts, attempt)
  {
  }

  /** The attempt loop. */
  method TryRelays(preferred: seq<Relay>, active: seq<Relay>, sliceSize: nat, onlyPreferredRelays: bool,
                   scripts: nat -> Script, lookup: Address -> seq<KnownRelays.RelayInfo>, attempt: Pick -> Attempt)
    returns (result: RelayingResult, attempted: seq<Pick>, ghost final: Selection)
    requires sliceSize >= 1 && forall i :: Settles(scripts(i))
    ensures |attempted| <= |preferred| + |active|
    ensures ProperAttempts(attempted, Urls(preferred) + Urls(active), onlyPreferredRelays)
    ensures result.NoRegisteredRelayers? <==> |preferred| + |active| == 0
    ensures !result.NoRegisteredRelayers? ==>
      EndsBy(final, attempted, attempt, result) && AllWon(preferred + active, scripts, lookup, final, attempted)
    ensures result.Hangs? ==> !SlicesDistinct(sliceSize, [preferred, active])
    ensures result.RelayingResult? && result.transaction.Some? ==>
      attempted != [] && attempt(attempted[|attempted| - 1]) == Relayed(result.transaction.value)
      && AttemptsFailed(attempted[..|attempted| - 1], attempt, result.relayingErrors)
    ensures result.RelayingResult? && result.transaction.None? ==>
      && AttemptsFailed(attempted, attempt, result.relayingErrors)
      && (!onlyPreferredRelays || |preferred| <= sliceSize ==>
            FullyExplained(if onlyPreferredRelays then Urls(preferred) else Urls(preferred) + Urls(active),
                           result.relayingErrors, result.pingErrors, SlicesDistinct(sliceSize, [preferred, active])))
    ensures result.RelayingResult? ==> PingsFailed(preferred + active, scripts, result.pingErrors)
  {
    hide Accounted, PickUrls, Urls, DistinctUrls, Settles, AttemptsFailed, FullyExplained, ProperAttempts,
      SlicesDistinct, PingsFailed, WonByKnown, EndsBy;
    ghost var known := Urls(preferred) + Urls(active);
    attempted, final := [], NoRelay;
    var manager := new RelaySelectionManager(sliceSize, preferred, active);
    var count := manager.Left();
    NoAttempts(attempt, known, onlyPreferredRelays, preferred + active, scripts);
    if count == 0 {
      return NoRegisteredRelayers, [], final;
    }
    var relayingErrors: map<Url, Error> := map[];
    while true
      invariant manager.Valid() && fresh(manager) && manager.initial == known && manager.preferred == Urls(preferred)
      invariant manager.separate <==> SlicesDistinct(sliceSize, [preferred, active])
      invariant manager.sliceSize == sliceSize && |manager.remainingRelays[0]| <= |preferred|
      invariant manager.known == preferred + active && PingsFailed(manager.known, scripts, manager.errors)
      invariant !onlyPreferredRelays ==> manager.TiersKept()
      invariant onlyPreferredRelays ==> forall p | p in attempted :: p.tier == 0
      invariant manager.returned == attempted && manager.lost == {}
      invariant |attempted| + manager.Left() <= count
      invariant AttemptsFailed(attempted, attempt, relayingErrors)
      invariant forall p | p in attempted :: WonByKnown(preferred + active, scripts, lookup, Selected(p))
      decreases manager.Left()
    {
      var selection;
      if onlyPreferredRelays {
        selection := manager.SelectNextPreferredRelay(scripts, lookup);
      } else {
        selection := manager.SelectNextRelay(scripts, lookup);
      }
      final := selection;
      AttemptsProper(known, manager.Remaining(), manager.returned, manager.errors.Keys, manager.lost, manager.separate,
        onlyPreferredRelays);
      match selection {
        case NoRelay =>
          if !onlyPreferredRelays {
            NothingLeft(manager.remainingRelays);
          } else if |preferred| <= sliceSize {
            NothingPreferred(manager.remainingRelays[0]);
          }
          if !onlyPreferredRelays || |preferred| <= sliceSize {
            var owed := if onlyPreferredRelays then Urls(preferred) else known;
            EverythingExplained(owed, known, manager.Remaining(), attempted, manager.errors, manager.separate, attempt,
              relayingErrors);
          }
          result := RelayingResult(None, relayingErrors, manager.errors);
          EndsSo(final, attempted, attempt, result, relayingErrors);
          return;
        case Threw(_) =>
          result := Rejected;
          EndsSo(final, attempted, attempt, result, relayingErrors);
          return;
        case Hangs =>
          result := RelayingResult.Hangs;
          EndsSo(final, attempted, attempt, result, relayingErrors);
          return;
        case Selected(pick) =>
          ghost var before := attempted;
          attempted := attempted + [pick];
          assert attempted[..|attempted| - 1] == before;
          match attempt(pick) {
            case EstimateThrew =>
              result := Rejected;
              EndsSo(final, attempted, attempt, result, relayingErrors);
              return;
            case Relayed(transaction) =>
              result := RelayingResult(Some(transaction), relayingErrors, manager.errors);
              EndsSo(final, attempted, attempt, result, relayingErrors);
              return;
            case RelayingFailed(error) =>
              RecordAttempt(known, attempted, attempt, relayingErrors, onlyPreferredRelays);
              relayingErrors := relayingErrors[pick.relayUrl := error];
          }
      }
    }
  }

  lemma EndsSo(final: Selection, attempted: seq<Pick>, attempt: Pick -> Attempt, result: RelayingResult,
      relayingErrors: map<Url, Error>)
    requires match final
      case NoRelay => result.RelayingResult? && result.transaction.None?
      case Threw(_) => result.Rejected?
      case Hangs => result.Hangs?
      case Selected(pick) =>
        && attempted != [] && attempted[|attempted| - 1] == pick
        && match attempt(pick)
           case EstimateThrew => result.Rejected?
           case Relayed(_) => result.RelayingResult? && result.transaction.Some?
           case RelayingFailed(_) => false
    requires AttemptsFailed(
      if final.Selected? then attempted[..|attempted| - 1] else attempted, attempt, relayingErrors)
    ensures EndsBy(final, attempted, attempt, result)
  {
    var failed := if final.Selected? then attempted[..|attempted| - 1] else attempted;
    assert forall i | 0 <= i < |failed| :: failed[i] == attempted[i] && attempt(failed[i]).RelayingFailed?;
  }

  lemma NoAttempts(attempt: Pick -> Attempt, known: set<Url>, onlyPreferredRelays: bool, relays: seq<Relay>,
      scripts: nat -> Script)
    ensures PingsFailed(relays, scripts, map[])
    ensures AttemptsFailed([], attempt, map[]) && ProperAttempts([], known, onlyPreferredRelays)
  {
  }

  lemma AttemptsProper(known: set<Url>, remaining: set<Url>, returned: seq<Pick>, failed: set<Url>, lost: set<Url>,
      separate: bool, onlyPreferredRelays: bool)
    requires Accounted(known, remaining, returned, failed, lost, separate)
    requires forall i, j | 0 <= i < j < |returned| :: returned[i].tier <= returned[j].tier
    requires onlyPreferredRelays ==> forall p | p in returned :: p.tier == 0
    ensures ProperAttempts(returned, known, onlyPreferredRelays)
  {
  }

  lemma EverythingExplained(promised: set<Url>, known: set<Url>, remaining: set<Url>, returned: seq<Pick>,
      pingErrors: map<Url, Error>, separate: bool, attempt: Pick -> Attempt, relayingErrors: map<Url, Error>)
    requires Accounted(known, remaining, returned, pingErrors.Keys, {}, separate)
    requires AttemptsFailed(returned, attempt, relayingErrors)
    requires promised <= PickUrls(returned) + pingErrors.Keys || (promised == known && remaining == {})
    ensures FullyExplained(promised, relayingErrors, pingErrors, separate)
  {
  }

  lemma RecordAttempt(known: set<Url>, picks: seq<Pick>, attempt: Pick -> Attempt, errors: map<Url, Error>,
      onlyPreferredRelays: bool)
    requires picks != [] && ProperAttempts(picks, known, onlyPreferredRelays)
    requires AttemptsFailed(picks[..|picks| - 1], attempt, errors) && attempt(picks[|picks| - 1]).RelayingFailed?
    ensures AttemptsFailed(picks, attempt, errors[picks[|picks| - 1].relayUrl := attempt(picks[|picks| - 1]).error])
  {
    hide PickUrls, AttemptsFailed;
    var init, last := picks[..|picks| - 1], picks[|picks| - 1];
    forall i | 0 <= i < |init| ensures init[i].relayUrl != last.relayUrl {
      assert init[i] == picks[i];
    }
    OneMoreFailed(init, last, attempt, errors);
    assert picks == init + [last];
  }

  lemma OneMoreFailed(picks: seq<Pick>, pick: Pick, attempt: Pick -> Attempt, errors: map<Url, Error>)
    requires AttemptsFailed(picks, attempt, errors) && attempt(pick).RelayingFailed?
    requires forall i | 0 <= i < |picks| :: picks[i].relayUrl != pick.relayUrl
    ensures AttemptsFailed(picks + [pick], attempt, errors[pick.relayUrl := attempt(pick).error])
  {
    hide PickUrls;
    PickUrlsSnoc(picks, pick);
    var more := errors[pick.relayUrl := attempt(pick).error];
    assert more.Keys == errors.Keys + {pick.relayUrl};
    forall i | 0 <= i <= |picks|
      ensures var p := (picks + [pick])[i];
        attempt(p).RelayingFailed? && p.relayUrl in more && more[p.relayUrl] == attempt(p).error
    {
      if i < |picks| { assert (picks + [pick])[i] == picks[i]; }
    }
  }

  lemma NothingLeft(remaining: seq<seq<Relay>>)
    requires |remaining| == 2 && |remaining[0]| + |remaining[1]| == 0
    ensures Urls(remaining[0]) + Urls(remaining[1]) == {}
  {
  }

  lemma NothingPreferred(remaining: seq<Relay>)
    requires remaining == []
    ensures Urls(remaining) == {}
  {
  }
}
