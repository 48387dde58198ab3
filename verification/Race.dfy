/** Racing pings (`_raceToSuccess` in `RelaySelectionManager.ts`). */
module Race {
  import opened Prelude
  import opened Events

  type Url = string
  type Error = string

  /** A relay known by its URL, and by its manager too if it was found through an event. */
  datatype Relay = Relay(relayUrl: Url, relayManager: Option<Address>)

  /** A ping that passes the filter names the relay's manager; every other ping ends in an error. */
  datatype Ping = Ready(relayManager: Address) | Failed(error: Error)

  /** What each relay answers, in which order the pings settle, and how many have when the result is used. */
  datatype Script = Script(reply: Relay -> Ping, order: nat -> seq<nat>, handledAt: nat)

  datatype Winner = Winner(relay: Relay, relayManager: Address)

  datatype RaceResult = NeverResolves | RaceResult(winner: Option<Winner>, errors: map<Url, Error>)

  ghost predicate IsPermutation(order: seq<nat>, n: nat) {
    && |order| == n
    && (forall i | 0 <= i < n :: order[i] < n)
    && (forall i, j | 0 <= i < j < n :: order[i] != order[j])
    && (forall k | 0 <= k < n :: k in order)
  }

  ghost predicate Settles(script: Script) {
    forall n: nat :: IsPermutation(script.order(n), n)
  }

  ghost predicate DistinctUrls(relays: seq<Relay>) {
    forall i, j | 0 <= i < j < |relays| :: relays[i].relayUrl != relays[j].relayUrl
  }

  function Urls(relays: seq<Relay>): set<Url> {
    set r | r in relays :: r.relayUrl
  }

  lemma {:induction false} UrlCount(relays: seq<Relay>)
    ensures |Urls(relays)| <= |relays|
    ensures |Urls(relays)| == |relays| <==> DistinctUrls(relays)
  {
    if relays != [] {
      var init, last := relays[..|relays| - 1], relays[|relays| - 1];
      UrlCount(init);
      assert relays == init + [last];
      assert Urls(relays) == Urls(init) + {last.relayUrl};
      if last.relayUrl in Urls(init) {
        assert Urls(relays) == Urls(init);
        var i :| 0 <= i < |init| && init[i].relayUrl == last.relayUrl;
        assert relays[i].relayUrl == relays[|relays| - 1].relayUrl;
      }
    }
  }

  lemma NoUrls(relays: seq<Relay>)
    ensures Urls(relays[..0]) == {}
  {
  }

  lemma UrlsSnoc(relays: seq<Relay>, i: nat)
    requires i < |relays|
    ensures Urls(relays[..i + 1]) == Urls(relays[..i]) + {relays[i].relayUrl}
    ensures |Urls(relays[..i + 1])| <= i + 1
  {
    assert relays[..i + 1] == relays[..i] + [relays[i]];
    UrlCount(relays[..i + 1]);
  }

  /** The relays in the order they settle. */
  function InOrder(relays: seq<Relay>, order: seq<nat>): seq<Relay>
    requires forall i | 0 <= i < |order| :: order[i] < |relays|
  {
    seq(|order|, i requires 0 <= i < |order| => relays[order[i]])
  }

  lemma InOrderFacts(relays: seq<Relay>, order: seq<nat>)
    requires IsPermutation(order, |relays|)
    ensures forall r :: r in InOrder(relays, order) <==> r in relays
    ensures Urls(InOrder(relays, order)) == Urls(relays)
      && (DistinctUrls(InOrder(relays, order)) <==> DistinctUrls(relays))
  {
    var settled := InOrder(relays, order);
    forall r | r in relays ensures r in settled {
      var k :| 0 <= k < |relays| && relays[k] == r;
      assert k in order;
      var i :| 0 <= i < |order| && order[i] == k;
      assert settled[i] == r;
    }
    assert Urls(settled) == Urls(relays);
    UrlCount(settled);
    UrlCount(relays);
  }

  ghost predicate AllFail(relays: seq<Relay>, script: Script) {
    forall r | r in relays :: script.reply(r).Failed?
  }

  ghost predicate FailedWith(r: Relay, script: Script, url: Url, error: Error) {
    r.relayUrl == url && script.reply(r) == Failed(error)
  }

  /** Every error recorded is what a relay of that URL answered. */
  ghost predicate Explained(relays: seq<Relay>, script: Script, errors: map<Url, Error>) {
    forall url | url in errors :: exists r :: r in relays && FailedWith(r, script, url, errors[url])
  }

  lemma NothingExplained(relays: seq<Relay>, script: Script)
    ensures Explained(relays, script, map[])
  {
  }

  lemma ExplainedGrows(relays: seq<Relay>, script: Script, errors: map<Url, Error>, r: Relay)
    requires Explained(relays, script, errors) && r in relays && script.reply(r).Failed?
    ensures Explained(relays, script, errors[r.relayUrl := script.reply(r).error])
  {
    var more := errors[r.relayUrl := script.reply(r).error];
    forall url | url in more
      ensures exists q :: q in relays && FailedWith(q, script, url, more[url])
    {
      if url != r.relayUrl {
        assert exists q :: q in relays && FailedWith(q, script, url, errors[url]);
      } else {
        assert FailedWith(r, script, url, more[url]);
      }
    }
  }

  /** What a race may end in, whatever the order of the answers. */
  ghost predicate Possible(relays: seq<Relay>, script: Script, result: RaceResult) {
    match result
    case NeverResolves => AllFail(relays, script) && (relays == [] || !DistinctUrls(relays))
    case RaceResult(None, errors) =>
      relays != [] && AllFail(relays, script) && errors.Keys == Urls(relays) && Explained(relays, script, errors)
    case RaceResult(Some(w), errors) =>
      && w.relay in relays && script.reply(w.relay) == Ready(w.relayManager)
      && Explained(relays, script, errors)
  }

  /** `w` is the first to succeed, at position `i` of the order in which the pings settle. */
  ghost predicate WinsAt(relays: seq<Relay>, script: Script, w: Winner, i: nat) {
    var order := script.order(|relays|);
    && IsPermutation(order, |relays|)
    && FirstReady(InOrder(relays, order), script, w, i)
  }

  ghost predicate FirstReady(settled: seq<Relay>, script: Script, w: Winner, i: nat) {
    && i < |settled| && settled[i] == w.relay && script.reply(w.relay) == Ready(w.relayManager)
    && forall j | 0 <= j < i :: script.reply(settled[j]).Failed?
  }

  /** The errors are those of the pings that failed before the winner settled, or later but before it is handled. */
  ghost predicate RecordedInTime(relays: seq<Relay>, script: Script, i: nat, errors: map<Url, Error>) {
    var order := script.order(|relays|);
    && IsPermutation(order, |relays|)
    && FailuresRecorded(InOrder(relays, order), script, i, errors)
  }

  ghost predicate FailuresRecorded(settled: seq<Relay>, script: Script, i: nat, errors: map<Url, Error>) {
    && (forall j | 0 <= j < |settled| && InTime(script, i, j) && script.reply(settled[j]).Failed? ::
          settled[j].relayUrl in errors)
    && (forall url | url in errors :: exists j ::
          0 <= j < |settled| && InTime(script, i, j) && FailedWith(settled[j], script, url, errors[url]))
  }

  ghost predicate InTime(script: Script, i: int, j: int) {
    j < i || i < j < script.handledAt
  }

  lemma WinnerIsUnique(relays: seq<Relay>, script: Script, w: Winner, i: nat, x: Winner, j: nat)
    requires WinsAt(relays, script, w, i) && WinsAt(relays, script, x, j)
    ensures w == x && i == j
  {
    var settled := InOrder(relays, script.order(|relays|));
    assert !script.reply(settled[i]).Failed? && !script.reply(settled[j]).Failed?;
  }

  /**
   Resolves with the first ping to succeed, or once as many errors as relays have been recorded by URL.
   Pings that fail after a winner is known still add their errors until the result is handled.
   */
  method RaceToSuccess(relays: seq<Relay>, script: Script) returns (result: RaceResult)
    requires Settles(script)
    ensures Possible(relays, script, result)
    ensures result.NeverResolves? <==> AllFail(relays, script) && (relays == [] || !DistinctUrls(relays))
    ensures result.RaceResult? && result.winner.Some? ==>
      exists i: nat ::
        WinsAt(relays, script, result.winner.value, i) && RecordedInTime(relays, script, i, result.errors)
  {
    hide DistinctUrls, FirstReady, FailuresRecorded, Explained, Urls;
    var settled := InOrder(relays, script.order(|relays|));
    InOrderFacts(relays, script.order(|relays|));
    ghost var i;
    result, i := CollectUntilDecided(relays, settled, script);
    SameFailures(relays, settled, script);
    if result.RaceResult? && result.winner.Some? {
      assert WinsAt(relays, script, result.winner.value, i) && RecordedInTime(relays, script, i, result.errors);
    }
  }

  lemma SameFailures(relays: seq<Relay>, settled: seq<Relay>, script: Script)
    requires forall r :: r in settled <==> r in relays
    ensures AllFail(relays, script) <==> AllFail(settled, script)
    ensures Urls(relays) == Urls(settled)
  {
    assert forall r | r in settled :: r in relays;
  }

  lemma RecordFailure(settled: seq<Relay>, i: nat, errors: map<Url, Error>, error: Error)
    requires i < |settled| && errors.Keys == Urls(settled[..i])
    ensures var more := errors[settled[i].relayUrl := error];
      && more.Keys == Urls(settled[..i + 1])
      && |more| <= i + 1
      && (i + 1 == |settled| ==> more.Keys == Urls(settled))
      && (|more| == |settled| ==> i + 1 == |settled| && DistinctUrls(settled))
      && (i + 1 == |settled| && DistinctUrls(settled) ==> |more| == |settled|)
  {
    var more := errors[settled[i].relayUrl := error];
    UrlsSnoc(settled, i);
    assert more.Keys == Urls(settled[..i + 1]) && |more| == |more.Keys|;
    UrlCount(settled);
    if i + 1 == |settled| { assert settled[..i + 1] == settled; }
  }

  lemma SomeFail(settled: seq<Relay>, script: Script)
    ensures AllFail(settled, script) <==> forall j | 0 <= j < |settled| :: script.reply(settled[j]).Failed?
  {
  }

  /** The promise handlers, called as the pings settle; `wonAt` is the position of the winner. */
  method CollectUntilDecided(relays: seq<Relay>, settled: seq<Relay>, script: Script)
    returns (result: RaceResult, ghost wonAt: nat)
    requires |settled| == |relays| && forall r :: r in settled <==> r in relays
    ensures result.NeverResolves? <==> AllFail(settled, script) && (relays == [] || !DistinctUrls(settled))
    ensures result.RaceResult? && result.winner.None? ==>
      relays != [] && AllFail(settled, script) && result.errors.Keys == Urls(settled)
      && Explained(relays, script, result.errors)
    ensures result.RaceResult? && result.winner.Some? ==>
      && result.winner.value.relay in relays
      && script.reply(result.winner.value.relay) == Ready(result.winner.value.relayManager)
      && FirstReady(settled, script, result.winner.value, wonAt) && Explained(relays, script, result.errors)
      && FailuresRecorded(settled, script, wonAt, result.errors)
  {
    hide Explained, DistinctUrls, Urls, SoFar, FailuresRecorded, FailedWith, AllFail;
    var errors: map<Url, Error> := map[];
    NothingExplained(relays, script);
    NothingSoFar(settled, script);
    NoUrls(settled);
    SomeFail(settled, script);
    wonAt := 0;
    var i := 0;
    while i < |settled|
      invariant 0 <= i <= |settled|
      invariant forall j | 0 <= j < i :: script.reply(settled[j]).Failed?
      invariant SoFar(settled, script, -1, i, errors)
      invariant errors.Keys == Urls(settled[..i])
      invariant Explained(relays, script, errors)
      invariant |errors| < |relays| || relays == []
      invariant 0 < i == |settled| ==> !DistinctUrls(settled)
    {
      var relay := settled[i];
      match script.reply(relay) {
        case Ready(relayManager) =>
          wonAt := i;
          SoFarSkips(settled, script, i, errors);
          errors := LateErrors(relays, settled, i, script, errors);
          return RaceResult(Some(Winner(relay, relayManager)), errors), wonAt;
        case Failed(error) =>
          ExplainedGrows(relays, script, errors, relay);
          RecordFailure(settled, i, errors, error);
          SoFarGrows(settled, script, -1, i, errors);
          errors := errors[relay.relayUrl := error];
          if |errors| == |relays| {
            return RaceResult(None, errors), wonAt;
          }
      }
      i := i + 1;
    }
    result := NeverResolves;
  }

  /** The errors are those of the first `n` pings to settle, but for the one at `skip`. */
  ghost predicate SoFar(settled: seq<Relay>, script: Script, skip: int, n: nat, errors: map<Url, Error>) {
    && n <= |settled|
    && (forall j | 0 <= j < n && j != skip && script.reply(settled[j]).Failed? :: settled[j].relayUrl in errors)
    && (forall url | url in errors :: exists j ::
          0 <= j < n && j != skip && FailedWith(settled[j], script, url, errors[url]))
  }

  lemma NothingSoFar(settled: seq<Relay>, script: Script)
    ensures SoFar(settled, script, -1, 0, map[])
  {
  }

  lemma SoFarGrows(settled: seq<Relay>, script: Script, skip: int, n: nat, errors: map<Url, Error>)
    requires SoFar(settled, script, skip, n, errors) && n < |settled| && n != skip
    ensures var reply := script.reply(settled[n]);
      SoFar(settled, script, skip, n + 1, if reply.Failed? then errors[settled[n].relayUrl := reply.error] else errors)
  {
    if script.reply(settled[n]).Failed? {
      assert FailedWith(settled[n], script, settled[n].relayUrl, script.reply(settled[n]).error);
    }
  }

  lemma SoFarSkips(settled: seq<Relay>, script: Script, n: nat, errors: map<Url, Error>)
    requires SoFar(settled, script, -1, n, errors) && n < |settled|
    ensures SoFar(settled, script, n, n + 1, errors)
  {
  }

  lemma SoFarInTime(settled: seq<Relay>, script: Script, wonAt: nat, n: nat, errors: map<Url, Error>)
    requires SoFar(settled, script, wonAt, n, errors)
    requires n == wonAt + 1 >= script.handledAt || n == |settled| <= script.handledAt || n == script.handledAt > wonAt
    ensures FailuresRecorded(settled, script, wonAt, errors)
  {
    hide FailedWith;
  }

  /** The errors recorded between the moment the race is won and the moment its result is handled. */
  method LateErrors(relays: seq<Relay>, settled: seq<Relay>, wonAt: nat, script: Script, before: map<Url, Error>)
    returns (errors: map<Url, Error>)
    requires wonAt < |settled| && forall r | r in settled :: r in relays
    requires Explained(relays, script, before) && SoFar(settled, script, wonAt, wonAt + 1, before)
    ensures Explained(relays, script, errors)
    ensures FailuresRecorded(settled, script, wonAt, errors)
  {
    hide Explained, SoFar, FailuresRecorded;
    errors := before;
    var i := wonAt + 1;
    while i < |settled| && i < script.handledAt
      invariant wonAt < i <= |settled| && (i == wonAt + 1 || i <= script.handledAt)
      invariant Explained(relays, script, errors)
      invariant SoFar(settled, script, wonAt, i, errors)
    {
      SoFarGrows(settled, script, wonAt, i, errors);
      var reply := script.reply(settled[i]);
      if reply.Failed? {
        ExplainedGrows(relays, script, errors, settled[i]);
        errors := errors[settled[i].relayUrl := reply.error];
      }
      i := i + 1;
    }
    SoFarInTime(settled, script, wonAt, i, errors);
  }
}
