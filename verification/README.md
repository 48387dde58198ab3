# Off-chain relay protocol: model and proofs

This project models the off-chain half of a transaction relay: the relay server that signs, stores, re-prices and
forgets transactions and decides when it may serve; the client that looks for relays and tries them one after the other;
wallet discovery; and the accessor of the on-chain version registry. The chain, the answers of the nodes and of the
relays, clocks and HTTP requests are the environment: parameters, or steps that may happen at any time.

`dafny verify dfyconfig.toml` checks everything.

## How it is laid out

| files | subject |
|---|---|
| `Prelude`, `Sorting`, `Events` | shared values; the stable order `Array.prototype.sort` leaves behind, in place and as a function; event positions, the in-place latest-event query and the fold |
| `TxStore`, `Sweep`, `Boosting`, `TransactionManager` | the store with two unique indexes, the confirmation sweep, re-pricing, and the class that sends |
| `Pipeline`, `Refinement` | the same code as a step machine: HTTP sends, the background worker, broadcasts, the chain and restarts interleave; the methods are runs of it |
| `Equivocation`, `Nonces`, `Raising`, `Pricing`, `Ordered`, `OwnKeys`, `Latecomers`, `Registration`, `Requests` | what holds in every run of that machine, and exactly when the rest does |
| `Scenarios`, `StalePoll`, `OutOfOrder` | reachable states in which it does not |
| `ServerState`, `Stakes`, `ServerRuns`, `RelayServer`, `Readiness`, `RealStake`, `StakeGone` | the server's scan and readiness state, the hub's stake entry, the rounds as a step machine over both, and the class whose methods are proved to be runs of it |
| `Race`, `RelaySelection`, `RelayClient`, `KnownRelays` | racing pings, choosing the next relay, the attempt loop, the event-sourced relay set and range splitting |
| `Discovery`, `VersionRegistry` | gap-limited wallet discovery; the registry's codec and history |

Classes are the source's objects: fields that methods update. Each method is proved against a function of the old state,
and the promises are lemmas about those functions or about whole runs of the two step machines.

## What is assumed of the environment

- A transaction hash names one transaction (`TxId` is the signed transaction itself), and derived wallet addresses are
  never the zero address. Discovery ends when activity dies out along the derivations; `FiniteActivityDiesOut` shows
  that finitely many active addresses, all derivations distinct, are enough.
- The event log only grows, by blocks above the last one, and a nonce confirmed `confirmationsNeeded` deep stays counted.
- The steps of the machines interleave more freely than the event loop lets them, so what holds of their runs holds of
  the program's. Pings of one race all settle, in any order, and a slice holds at least one relay. Gas prices are not
  negative; the factor is above one.
- `Array.prototype.sort` is stable, as ECMAScript requires since 2019.

## Where the code does less than its description

- **Equivocation.** The nonce poll, the sweep and the store are separate awaits. After a restart the local counter is
  zero, so a pending count that was read before a transaction is confirmed and swept, and used after that, signs the
  same nonce twice (`StalePollEquivocates`). On keys only this relay uses, that is the only way
  (`SentTwiceIffOvertaken`). In the first run of the process the counter alone is enough and no condition is needed.
- **Value.** A re-send is rebuilt without `value`, and the store does not keep it. Two transactions under one nonce
  differ in value exactly when one is a re-send of a transaction that carried value (`ValueLostExactlyByResend`).
- **Nonces.** When `putTx` fails at a nonce that nothing has taken, the counter has moved on and the nonce is lost to
  this run of the process. On keys only this relay uses, over all restarts, the nonces sent are an initial segment
  exactly unless the same run then stores another send of that signer (`GapIffSentPastLost`); nothing at or above a lost
  nonce is confirmed until a restart sends it after all (`SentExactlyUnlessLost`). A rejection because the nonce is
  taken leaves no gap: that nonce was sent. On keys that others use too, a pending count ahead of the counter leaves one.
- **Boosting.** The price of a boost is set by the oldest entry. If that is cheaper than another entry has become, the
  re-send of the other falls short of the factor, unless it reaches the cap (`ResendProgress` says exactly when). That
  takes a send at a lower nonce than one already boosted: not before the first restart after a send
  (`ProgressUntilRestart`), and on keys only this relay uses never as long as no poll is overtaken and no send stored
  past a lost nonce (`ProgressOnOwnKeys`). One lost nonce and one restart are enough (`UndercutBreaksProgress`).
  Re-sends still come to an end (`ResentFinitelyOften`).
- **After a boost.** The resend loop awaits, and a transaction sent meanwhile below the new price stays below it; nothing
  else does (`CheapExactlyIfSentMeanwhile`, `LatecomerStaysCheap`).
- **Stake.** `refreshStake` ignores an answer of zero, and penalties are not among the events the scan asks for. So when
  all changes it asks for have been scanned, what the relay remembers is the stake it has exactly if that is not zero
  (`RememberedStakeIsRealIff`). It can stay ready after a withdrawal, which the handlers of withdrawal events counter by
  sending its funds away and closing the HTTP server, and after a penalty, which nothing counters
  (`ReadyWithoutStake`, `ReadyAfterPenalty`).
- **Racing pings.** A slice that repeats a URL and whose pings all fail never resolves, and the client waits for ever.
- **Preferred relays only.** After a slice without winner the index advances although those relays are gone already.
  Without repeated URLs, a search that finds nobody has exhausted the list iff it had at most `sliceSize` relays.
- **Range splitting.** The block `toBlock` is missed exactly when the split size divides the distance to it.
- **Discovery.** A scan stops after `limit + 1` consecutive inactive indices, one more than the name of the setting says.
- **Registry.** A version name that ends in NUL is not the name it is listed under; added next to its shorter namesake it
  is lost. A name read from a word that is not well-formed UTF-8 cannot be cancelled: the word sent is another one
  (`CancelVersionWithdraws`).

## Model

| member | source | states |
|---|---|---|
| Sorting.StableSortSorts | src/common/Utils.ts:196-200 | the sort permutes, and its result is in the comparator's order |
| Sorting.StableSortIsStable | src/relayclient/KnownRelaysManager.ts:72-81 | elements that no comparison separates keep their order |
| Sorting.SortInPlace | src/common/Utils.ts:196-200 | the in-place sort leaves exactly the stably sorted array |
| Events.GetLatestEventData | src/common/Utils.ts:192-204 | returns the latest event and leaves its argument sorted newest first |
| Events.SortedHeadIsLatest | src/common/Utils.ts:192-204 | the head of the descending sort is what a one-pass search for the latest position finds |
| Events.LatestPositionIsUnique | src/common/Utils.ts:185-204 | any two latest events (highest block, and in it highest index) of the same set of events have the same block and index, however they were found |
| Events.FoldIsLatest | src/relayserver/RegistrationManager.ts:140-153 | the fold that keeps later events ends in a latest event of everything seen, in whatever order it came |
| Events.FoldRefinesQuery | src/relayserver/RegistrationManager.ts:140-153 | folding any batches, overlapping and in any order, finds the position that one query over all their events finds |
| Events.LatestOfWindow | src/relayserver/RelayServer.ts:592-629 | the latest event of a non-empty scan window is the latest of the whole log |
| TxStore.StoreKeepsIndexes | src/relayserver/TxStoreManager.ts:16-49 | any put or removal keeps both indexes unique; a put lands under its own key and changes nothing else |
| TxStore.PutAccepts | src/relayserver/TxStoreManager.ts:28-49 | a document that agrees with its hash is refused exactly when its key is taken and no update was asked for |
| TxStore.SortedListing | src/relayserver/TxStoreManager.ts:98-108 | sorting a query's answer lists every matching document once, lowest nonce first |
| TxStore.TxStoreManager.Put | src/relayserver/TxStoreManager.ts:28-49 | inserts, updates the document with that nonce and signer, or throws and leaves the store alone |
| TxStore.TxStoreManager.RemoveUntilNonce | src/relayserver/TxStoreManager.ts:83-92 | exactly the signer's entries up to the nonce go, and the indexes stay sound |
| TxStore.TxStoreManager.GetAll | src/relayserver/TxStoreManager.ts:104-108 | every document once, nonces ascending |
| TxStore.TxStoreManager.GetAllBySigner | src/relayserver/TxStoreManager.ts:98-102 | every document of the signer once, nonces ascending |
| TxStore.TxStoreManager.IsActionPending | src/relayserver/TxStoreManager.ts:110-113 | true iff some entry without a mined block has the action, and the destination if one is given |
| Sweep.TxVerdict | src/relayserver/TransactionManager.ts:229-256 | due for a check means unmined, or marked `confirmationsNeeded` blocks ago or longer; an entry is removed iff it is due and shown in a block that is deep enough, and marked with a block iff it is due, shown in that block, this is not deep enough and not its mark already |
| Sweep.SweepStep | src/relayserver/TransactionManager.ts:223-258 | an iteration never fails, and never re-inserts what an earlier one removed, although putTx inserts when nothing matches |
| Sweep.SweepDone | src/relayserver/TransactionManager.ts:220-259 | after the loop the store is the declared one: entries covered by a confirmed one are gone, all others are there, updated if mined |
| Sweep.SweepIsSound | src/relayserver/TransactionManager.ts:220-259 | an entry goes only if it or a later nonce of its signer is deep enough, survivors are exactly those above the highest confirmed nonce, what is due and deep enough goes; a survivor that is due and shown in a block has that mined block afterwards and is otherwise as before, all others survive unchanged, and nothing new appears |
| Boosting.PriceConfig.NewGasPrice | src/relayserver/TransactionManager.ts:199-209 | the smaller of `maxGasPrice` and the old price times `retryGasPriceFactor` |
| Boosting.ResendOneEffect | src/relayserver/TransactionManager.ts:155-190 | one re-send changes its own entry only, and the store accepts it; field by field, the entry is signed again for the same purpose without value, has one attempt more and this boost block, and keeps action and creation block |
| TransactionManagers.TransactionManager.PollNonce | src/relayserver/TransactionManager.ts:211-218 | the counter becomes the larger of itself and the pending count, and is returned |
| TransactionManagers.TransactionManager.SendTransaction | src/relayserver/TransactionManager.ts:108-148 | the whole outcome of a send: counter, store and answer, also when the gas price or the poll fails, the signing throws, the insert fails or finds the nonce taken, or the broadcast fails; what is stored and broadcast holds the request's signer, destination, value, gas limit, data, action and creation block, the price and the nonce polled, field by field |
| TransactionManagers.TransactionManager.ResendTransaction | src/relayserver/TransactionManager.ts:169-197 | the entry is re-signed without value at the new price, field by field, and stored before it is broadcast |
| TransactionManagers.TransactionManager.RemoveConfirmedTransactions | src/relayserver/TransactionManager.ts:220-259 | for any answers of the node the loop over the snapshot deals with its entries as declared, up to the first query that is rejected; if none is, the whole store is the declared one |
| TransactionManagers.TransactionManager.ResendUnderpriced | src/relayserver/TransactionManager.ts:288-297 | a prefix of the targets is re-sent, all of them unless a broadcast fails, and the returned map sends each old hash to its replacement |
| TransactionManagers.TransactionManager.BoostUnderpricedPendingTransactionsForSigner | src/relayserver/TransactionManager.ts:265-300 | uninterrupted, it re-sends only when the oldest entry is unmined and was last boosted, or else created, long enough ago, at the smaller of the cap and its price times the factor; then no entry of the signer is below that price |
| Pipeline.StepCoherent | src/relayserver/TransactionManager.ts:108-300 | under any interleaving the snapshot a loop works on agrees with the store for everything it has not reached yet |
| Pipeline.CommitCoherent | src/relayserver/TransactionManager.ts:111-139 | a commit stores the new entry, or changes neither store nor outbox if its nonce is taken |
| Refinement.SendIsARun | src/relayserver/TransactionManager.ts:108-148 | a send without interruption is a poll and then a failed signing, a failed insert or a commit of the machine, with the counter, store and outbox the method promises |
| Refinement.SweepIsARun | src/relayserver/TransactionManager.ts:220-259 | a sweep without interruption is a run of the machine and ends in the store the method promises |
| Refinement.BoostIsARun | src/relayserver/TransactionManager.ts:265-300 | a boost that is due, without interruption, is a run of the machine, re-sends the same entries and prices all of the signer's entries |
| Refinement.RestartIsAFreshStart | src/relayserver/TransactionManager.ts:48-61 | a restart in any reachable state leaves exactly the counters of a newly constructed manager, zero for both signers, over the store as it was |
| Equivocation.SentBeforeIffOvertaken | src/relayserver/TransactionManager.ts:111-139 | on keys only the relay uses, a commit to a nonce free in the store sends a nonce sent before iff that nonce is below what the chain has confirmed |
| Equivocation.StepSafe | src/relayserver/TransactionManager.ts:108-218 | every step, unless it is a commit whose poll has been overtaken after a restart, keeps: one purpose and one send per nonce, entries agree with what was signed, and what was signed is stored until its nonce is confirmed |
| Equivocation.NonEquivocation | src/relayserver/TransactionManager.ts:108-218 | in every run, over restarts, in which no poll is overtaken after a restart, two broadcast transactions of one signer and nonce have the same destination, gas limit and data, and differ at most in gas price iff their values are equal |
| Equivocation.SentTwiceIffOvertaken | src/relayserver/TransactionManager.ts:108-148 | exactly when it fails: in a run on keys only the relay uses, some nonce is sent twice iff some commit finds its nonce free in the store although it is below what the chain has confirmed |
| Equivocation.ValueLostExactlyByResend | src/relayserver/TransactionManager.ts:169-197 | against the original send, a signing under its nonce differs in value iff it is a re-send and the original carried value |
| Equivocation.BroadcastIsStored | src/relayserver/TransactionManager.ts:128-145 | whatever was broadcast is in the store with the same purpose, or its nonce is confirmed |
| StalePoll.StalePollEquivocates | src/relayserver/TransactionManager.ts:111-139 | such runs exist for any two relay calls: both are broadcast under one nonce after a restart, on keys only the relay uses |
| Nonces.NoncesIncrease | src/relayserver/TransactionManager.ts:111-139 | between restarts a signer's nonces strictly increase and the counter is above all of them, for any mutex order and any node |
| Nonces.NonceConservation | src/relayserver/TransactionManager.ts:111-139 | on any keys, between restarts, every nonce the counter passed was sent or skipped by a jump of the pending count, a failed insert or a taken nonce; without such skips the nonces sent are consecutive |
| OwnKeys.SentExactlyUnlessLost | src/relayserver/TransactionManager.ts:111-139 | on keys only the relay uses, over all restarts: a nonce was sent iff it is stored or confirmed; below the counter that is every one but those lost to failed inserts since the restart, and nothing from a lost one on is confirmed |
| OwnKeys.CommitLeavesOutIffLost | src/relayserver/TransactionManager.ts:134-135 | storing a send leaves a lower nonce of its signer unsent iff one was lost since the restart |
| OwnKeys.GapIffSentPastLost | src/relayserver/TransactionManager.ts:108-148 | throughout a run over any restarts the nonces sent are an initial segment iff no send is stored after the same run of the process lost a nonce of that signer |
| Raising.ReachesFactorIff | src/relayserver/TransactionManager.ts:199-209 | the price set by one entry reaches the factor times another price, or the cap, iff the entry is at least that expensive or its own raise reaches the cap |
| Pricing.StepPriced | src/relayserver/TransactionManager.ts:265-300 | every step keeps the books of re-sends: entries at their last price, geometric apart from undercut re-sends, each of those charged to a different cheaper nonce sent in this run |
| Pricing.ResendProgress | src/relayserver/TransactionManager.ts:265-300 | in every reachable state, for every target still to come: its re-send raises the price, within the cap, and reaches the cap or the factor times its previous re-send price iff the oldest entry is at least that expensive or its own raise reaches the cap |
| Pricing.UndercutsAreSends | src/relayserver/TransactionManager.ts:265-300 | re-sends of an entry that were undercut are at most as many as its nonce: each has its own lower nonce, sent in this run of the process |
| Raising.Bernoulli | src/relayserver/TransactionManager.ts:199-209 | n raises by the factor gain at least n times the first gain |
| Pricing.ResentFinitelyOften | src/relayserver/TransactionManager.ts:265-300 | in every run an entry is re-sent a bounded number of times: its nonce, plus the raises that fit below the cap |
| Ordered.OrderedProgress | src/relayserver/TransactionManager.ts:265-300 | in a run whose stored sends are in nonce order every re-send makes that progress and nothing is undercut |
| Ordered.ProgressUntilRestart | src/relayserver/TransactionManager.ts:111-139 | on any keys, until the process has been restarted after a send, every run is in nonce order, and so makes that progress |
| OwnKeys.ProgressOnOwnKeys | src/relayserver/TransactionManager.ts:265-300 | on keys only the relay uses, over any restarts: without an overtaken poll and without a send stored past a lost nonce, each nonce up to the last is sent once, sends are in order and every re-send makes that progress |
| OutOfOrder.UndercutBreaksProgress | src/relayserver/TransactionManager.ts:281-283 | for every factor and every positive cap, on keys only the relay uses and with no poll overtaken, there is a reachable re-send that falls short of the factor |
| Latecomers.CheapExactlyIfSentMeanwhile | src/relayserver/TransactionManager.ts:283-300 | when the resend loop is done, in any reachable state, an entry of the signer is below the new price iff it was sent below that price while the boost was under way |
| Latecomers.LatecomerStaysCheap | src/relayserver/TransactionManager.ts:283-300 | such an entry can be there, on keys only the relay uses: a reachable end of a boost with an entry of its signer below the new price |
| Registration.AtMostOneRegistrationPending | src/relayserver/RegistrationManager.ts:164-168 | in every reachable state at most one unmined REGISTER_SERVER and one unmined ADD_WORKER entry are stored |
| Registration.CommitOnePending | src/relayserver/RegistrationManager.ts:288-308 | storing a send keeps that, also when relay calls are sent while the worker registers |
| Requests.NothingUnrequested | src/relayserver/TransactionManager.ts:108-190 | over all runs and restarts, whatever is stored or broadcast has the signer, destination, gas limit and data of a request, the nonce it acquired, and its value or, sent again, none; a stored entry its action and creation block too |
| ServerState.RegistrationManager.ObserveHubEvents | src/relayserver/RegistrationManager.ts:140-153 | the event loop keeps the latest registration and worker event, as two folds over the batch |
| ServerState.ServerConfig.RegisterUrl | src/relayserver/RegistrationManager.ts:295-296 | the port is appended unless there is none or the URL has a colon other than at its start |
| ServerState.RegistrationManager.RefreshStake | src/relayserver/RegistrationManager.ts:240-257 | stake, lock and first owner are taken over, unless the stake read is zero |
| ServerState.RegistrationManager.ExtractDuePendingEvents | src/relayserver/RegistrationManager.ts:172-176 | due and kept events partition the delayed ones by due block, and both keep their order |
| ServerState.DeliveredOnce | src/relayserver/RegistrationManager.ts:124-176 | over increasing heights, with events delayed at any of them, an event due by the last is delivered exactly as often as it was delayed, and any other not at all |
| ServerRuns.StepScansSound | src/relayserver/RelayServer.ts:519-547 | every step, also of aborted rounds, keeps each remembered event the latest of the known part of the log, with nothing unknown in a scanned block |
| ServerRuns.LatestActiveIsFullQuery | src/relayserver/RelayServer.ts:592-636 | in every reachable state the incrementally kept event is the answer of a full query over everything fetched so far |
| ServerRuns.FoldedEventsAreFullQuery | src/relayserver/RegistrationManager.ts:99-108 | the kept registration and worker events are where the batch query over everything folded would put them |
| ServerRuns.NeverBackward | src/relayserver/RelayServer.ts:519-547 | no step short of a restart moves the scanned block or the remembered event back |
| RelayServers.RelayServer.UpdateLatestTxBlockNumber | src/relayserver/RelayServer.ts:619-629 | overwrites with the window's latest event, asks for the whole log only when nothing is known, leaves the window sorted, and changes nothing if that query is rejected |
| RelayServers.RelayServer.FetchHubEvents | src/relayserver/RelayServer.ts:592-603 | an event of the log is in the window, in its place, iff it is after the last scanned block |
| RelayServers.RelayServer.Scan | src/relayserver/RelayServer.ts:519-537 | the scanned block advances iff none of the queries and actions before is rejected, one stake query for each stake event among them; otherwise the scan stops at the rejected one; both are runs of the round machine |
| RelayServers.RelayServer.HandleChanges | src/relayserver/RelayServer.ts:519-547 | the scan and what follows: it succeeds iff nothing it comes to is rejected; what it observed, the scanned block and the ready flag in terms of the fields before and the answers |
| RelayServers.RelayServer.Worker | src/relayserver/RelayServer.ts:491-547 | a round succeeds iff nothing it comes to ask is rejected, and moves the refresh mark, the scanned block, the observations and the ready flag exactly as far as it gets; one that returns is a completed run of the machine, one that throws a run that stops inside the round |
| RelayServers.RelayServer.WorkerSemaphore | src/relayserver/RelayServer.ts:380-398 | with the semaphore on it does nothing; otherwise it does a whole round and counts it iff it succeeded |
| RelayServers.RelayServer.IntervalHandler | src/relayserver/RelayServer.ts:336-398 | a block not scanned yet gets a whole round unless one is under way, and the count grows by one or, if the round fails, drops to zero; any other block changes nothing, and a failed block query only resets the count; a tick is a run of the machine |
| RelayServers.RelayServer.IsReadyNow | src/relayserver/RelayServer.ts:671-676 | isReady reports that the ready flag is set and the count has reached `successfulRoundsForReady`, which is the readiness that the run theorems speak of |
| Readiness.StepJustified | src/relayserver/RelayServer.ts:519-547 | every step keeps the ready flag equal to the verdict of the last full refresh and the counter within the completed rounds |
| Readiness.ReadyIsJustified | src/relayserver/RelayServer.ts:671-692 | in every reachable state a ready relay has completed enough rounds since its last failure, if any, and its last full refresh found stake, lock and balances sufficient and a registration by its manager with its URL that no scanned one is later than |
| Readiness.ReadyIff | src/relayserver/RelayServer.ts:671-692 | and whenever that much holds the relay is ready: exactly `successfulRoundsForReady` rounds after a failure are enough |
| Readiness.RoundsNeverOverlap | src/relayserver/RelayServer.ts:380-398 | the semaphore is on exactly while a round is under way, so none starts inside another |
| Readiness.FailureUnreadies | src/relayserver/RelayServer.ts:336-398 | a failed round, a timeout or a failed block query takes readiness away at once |
| Readiness.RememberedStakeIsLastNonZero | src/relayserver/RegistrationManager.ts:240-257 | in every reachable state the remembered stake and lock are those of the last answer that was not zero, the owner that of the first |
| RealStake.StepStakesKnown | src/relayserver/RegistrationManager.ts:107-137 | every step, also of aborted rounds, keeps: what was last read and not zero is remembered as it was, and stake changes asked for but not read yet are in blocks not scanned yet |
| RealStake.RememberedStakeIsRealIff | contracts/RelayHub.sol:257-358 | in every reachable state in which all stake changes the server asks for have been scanned, the remembered stake and lock are those of the hub's entry iff that stake is not zero or none was ever read |
| RealStake.ReadyStakeIsRealIff | src/relayserver/RegistrationManager.ts:240-257 | the stake a ready relay had at its last full refresh, by the last answer and by the hub's entry if all changes asked for had been scanned, meets the requirements iff it is not zero, or none is required and it is not being withdrawn |
| StakeGone.ReadyWithoutStake | src/relayserver/RegistrationManager.ts:240-257 | whenever a stake is required there is a reachable state of a ready relay that has scanned the withdrawal of its stake and read zero |
| StakeGone.ReadyAfterPenalty | contracts/RelayHub.sol:257-284 | and one of a ready relay whose stake was taken as a penalty, with everything it asks for scanned |
| Race.UrlCount | src/relayclient/RelaySelectionManager.ts:171-174 | as many URLs as relays iff no two relays share one |
| Race.RaceToSuccess | src/relayclient/RelaySelectionManager.ts:159-178 | the first ping to succeed wins, whatever the order, with exactly the errors of the pings that failed before it or before the result is handled; without a winner the race ends with an error per relay; it never resolves iff all fail and the slice is empty or repeats a URL |
| Race.WinnerIsUnique | src/relayclient/RelaySelectionManager.ts:159-178 | answers and their order determine the winner |
| RelaySelection.RaceEffect | src/relayclient/RelaySelectionManager.ts:159-188 | a race that resolves removes exactly its winner and its failures from both lists, and at least one relay |
| RelaySelection.RelaySelectionManager.HandleRaceResults | src/relayclient/RelaySelectionManager.ts:180-188 | a relay stays in its list, in its place, iff it neither won nor failed; errors accumulate by URL, the newest counting |
| RelaySelection.RelaySelectionManager.GetNextSlice | src/relayclient/RelaySelectionManager.ts:124-135 | the slice starts the first list that is not empty, and is empty iff nothing is left |
| RelaySelection.RelaySelectionManager.NextRelayInternal | src/relayclient/RelaySelectionManager.ts:85-110 | the race's winner is selected with its manager: its own, or the one of the only registration found for the manager it answered with; without exactly one it throws; no relay is selected iff all pings fail, each with its error; what failed before the winner has its error too; it never settles iff all pings of the slice fail and it repeats a URL |
| RelaySelection.RelaySelectionManager.SelectNextRelay | src/relayclient/RelaySelectionManager.ts:58-70 | selects or throws by a race that a known relay won, and every ping error is what a known relay answered; accounts for every initial URL as remaining, returned, failed or lost, as exactly one of them if no slice can repeat a URL; keeps the tiers in order; finds nobody only when nothing is left |
| RelaySelection.RelaySelectionManager.SelectNextPreferredRelay | src/relayclient/RelaySelectionManager.ts:41-57 | selects from the first list only; a search that finds nobody has exhausted that list if it had at most sliceSize relays, and without repeated URLs only then |
| RelayClient.RelayTransaction | src/relayclient/RelayClient.ts:397-430 | for any lists: within as many attempts as relays, none twice and no tier back, each after a failed one; rejects iff the last gas estimate or the lookup of the last winner threw; without a transaction every initial relay has a ping error or a relaying error (in preferred-only mode every preferred one, if they fit in one slice), and not both if no slice can repeat a URL; only then can it wait for ever; so if nothing throws and some known relay works, there is a transaction |
| KnownRelays.LastAfterSort | src/relayclient/KnownRelaysManager.ts:72-81 | after the stable sort a manager's last event is its latest by block and index, the later listed on ties |
| KnownRelays.TracksLastWriter | src/relayclient/KnownRelaysManager.ts:82-90 | replaying the sorted events leaves exactly the managers whose last event is a registration, with its URL |
| KnownRelays.KnownRelaysManager.GetRelayInfoForManagers | src/relayclient/KnownRelaysManager.ts:61-93 | last writer wins, exits before registrations on ties, then the filter, one entry per manager; nothing for no managers |
| KnownRelays.CoversItsRange | src/relayclient/KnownRelaysManager.ts:95-107 | contiguous parts contain a block iff it is in the range they span |
| KnownRelays.KnownRelaysManager.SplitRange | src/relayclient/KnownRelaysManager.ts:95-107 | at most `splits` contiguous parts from `fromBlock` on, all but the last of the least size for which so many suffice, up to `toBlock` but for it exactly when the split size divides the distance |
| KnownRelays.QueriedIsOneQuery | src/relayclient/KnownRelaysManager.ts:117-122 | the parts' answers in order are the answer to one query of the covered range |
| KnownRelays.KnownRelaysManager.GetPastEventsForHub | src/relayclient/KnownRelaysManager.ts:109-136 | at most three attempts, four times finer each; on success the events of the covered range in order; gives up or rethrows exactly as the node's answers demand |
| KnownRelays.ScoreDecreases | src/relayclient/KnownRelaysManager.ts:25-27 | more failures, strictly lower score |
| KnownRelays.SortRelaysInternal | src/relayclient/KnownRelaysManager.ts:177-196 | a permutation of the active relays with the fewest failures first |
| Discovery.ScannedIffGapsWithin | src/relayclient/SmartWalletDiscovery.ts:143-156 | the loop counter stays within the limit up to an index iff no window of limit + 1 inactive indices lies before it |
| Discovery.SmartWalletDiscovery.ScanWallets | src/relayclient/SmartWalletDiscovery.ts:162-184 | ends, and finds exactly the active wallets that no such window precedes |
| Discovery.SmartWalletDiscovery.ScanAccount | src/relayclient/SmartWalletDiscovery.ts:143-193 | ends, and appends exactly the records of the account; both totals are zero iff there are none |
| Discovery.RecordsAreExactlyTheReachedActive | src/relayclient/SmartWalletDiscovery.ts:137-201 | the records are those of one ascending list of indices: exactly the active ones that no gap window precedes, and that list is the only one |
| Discovery.WalletsAreExactlyTheReachedActive | src/relayclient/SmartWalletDiscovery.ts:162-184 | the same of the wallets recorded with an address, custom ones iff the configuration says so |
| Discovery.ActiveIffAddressOrReachedWallet | src/relayclient/SmartWalletDiscovery.ts:146-193 | an index is active iff its address is, or a wallet of it that the wallet scan reaches |
| Discovery.SmartWalletDiscovery.DiscoverAccountsFromMnemonic | src/relayclient/SmartWalletDiscovery.ts:125-202 | records all accounts before the first without activity, on the network's coin type, and stops there |
| Discovery.SmartWalletDiscovery.DiscoverAccountsFromExtendedPublicKeys | src/relayclient/SmartWalletDiscovery.ts:209-273 | records every account of the list, in order, idle or not |
| Discovery.SmartWalletDiscovery.DiscoverAccounts | src/relayclient/SmartWalletDiscovery.ts:283-365 | records all accounts before the first that is not served or has no activity |
| Discovery.ProceduresAgree | src/relayclient/SmartWalletDiscovery.ts:125-365 | the three procedures visit the same keys and record the same; a reader may only stop earlier where it serves nothing, and an idle account adds nothing |
| Discovery.FiniteActivityDiesOut | src/relayclient/SmartWalletDiscovery.ts:143-193 | finitely many active addresses and distinct derivations bound every scan |
| VersionRegistries.LazyMatchKeepsWholeBytes | src/common/VersionRegistry.ts:14-16 | the lazy pattern drops whole zero bytes only, never the zero digit of a last byte |
| VersionRegistries.RoundTripIffNoTrailingNul | src/common/VersionRegistry.ts:9-16 | unpacking what was packed gives the text without trailing NULs, so the text itself iff it does not end in NUL, at any length |
| VersionRegistries.WordRoundTrip | src/common/VersionRegistry.ts:9-16 | packing what a 32-byte word is read as gives the word back |
| VersionRegistries.StrippingIsInjective | src/common/VersionRegistry.ts:14-16 | different 32-byte words are read as different byte strings |
| VersionRegistries.GetAllVersions | src/common/VersionRegistry.ts:77-105 | the reduce, map, filter and reverse chain with its found set computes the declared history |
| VersionRegistries.ListedOnceNewestFirst | src/common/VersionRegistry.ts:85-104 | every added name is listed once, with the value and time of its first addition, later first additions before earlier |
| VersionRegistries.ListedIffAdded | src/common/VersionRegistry.ts:85-104 | a name is listed iff some event adds it |
| VersionRegistries.CanceledByLastCancellation | src/common/VersionRegistry.ts:79-83 | a word is cancelled iff some event cancels it, before or after its addition, with the last reason |
| VersionRegistries.HistoryIsAppendOnly | src/common/VersionRegistry.ts:77-105 | more events only put entries in front; old ones keep order, version, value and time, and stay cancelled |
| VersionRegistries.CanceledIsNeverReturned | src/common/VersionRegistry.ts:58-71 | once the word of a first addition is cancelled, no later history makes getVersion return its name |
| VersionRegistries.NewestEligibleIsReturned | src/common/VersionRegistry.ts:58-71 | getVersion returns v iff v is eligible and every newer entry is not, and throws iff no entry is eligible |
| VersionRegistries.LatestOfferedIsReturned | src/common/VersionRegistry.ts:58-105 | on the events: getVersion answers with the latest first addition of an uncancelled word that is at least `delayPeriod` old or asked for by name, with its name, value and time, and throws iff there is none |
| VersionRegistries.LongerDelayOnlyMovesBack | src/common/VersionRegistry.ts:64-65 | a longer delay or an earlier clock gives the same or an older entry |
| VersionRegistries.YoungVersionsDoNotMatter | src/common/VersionRegistry.ts:58-71 | additions that are too young and not opted into leave the answer as it was |
| VersionRegistries.AddVersionListsIffNoTrailingNul | src/common/VersionRegistry.ts:114-131 | an addition that passes the check is listed, newest and unchanged, iff its name does not end in NUL; else it is lost when the shorter name is listed |
| VersionRegistries.PackedAgainIff | src/common/VersionRegistry.ts:9-16 | packing a text gives a 32-byte word iff the two have the same bytes but for trailing NULs |
| VersionRegistries.CancelVersionWithdraws | src/common/VersionRegistry.ts:120-131 | cancelling a listed name sends the word that was added iff decoding changed none of its bytes, as when it is well-formed; getVersion never returns the name again iff it is that word or the word was cancelled before |

## Left out

- Deep reorganisations: confirmed nonces and event logs are stable.
- Rounding of gas prices and scores: both are real numbers; a boosted price is not rounded to an integer.
- Letter case of addresses and hashes: an address is a number, so lower-casing and checksums do nothing.
- Equivocation.SentTwiceIffOvertaken: on keys that others use too, a nonce confirmed by somebody else's transaction can be taken again without a conflict, so there only the direction of `NonEquivocation` is stated.
- RelayClient.RelayTransaction: says nothing of relays left over in only-preferred mode when the preferred ones do not fit in one slice, where the search may stop early; `SelectNextPreferredRelay` says when.
- Readiness.ReadyIsJustified: the stake is the remembered one; `RememberedStakeIsRealIff` and `ReadyStakeIsRealIff` say when that is the one on the chain.
- The `alerted` state and the delayed replies it causes, replenishment, withdrawals and transfers to the owner (apart from being sends like any other) and the closing of the HTTP server that goes with them, gas estimation, the trusted verifier list.
- What makes the worker register in `Pipeline`: whether a relay call is pending, the registration expired or correct, and the prerequisites met may be anything; `Registration` holds for all of it.
- Development mode, which empties the store at start: `Pipeline` restarts keep it.
- The expiry of relay failures and other score calculators: `SortRelaysInternal` takes the failure counts and uses the default score.
- A failing activity query during discovery, which ends the scan with the accounts recorded so far; reconnection attempts.
- Key derivation, wallet address computation, signing, hashing and ABI encoding: functions of their inputs.
- UTF-8: texts are their bytes; what decoding does to malformed ones is a parameter. Names longer than a word, which the contract call rejects.
- Event filtering by topic: queries return the matching events of the log.
- HTTP, configuration parsing, logging, and the contracts themselves, apart from the manager's stake entry in the hub; its unstake delay may be anything.
