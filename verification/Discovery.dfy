/**
 * Wallet discovery: walk the addresses derived from a key and stop after a gap of inactive ones.
 *
 * The nested loops of `SmartWalletDiscovery` are proved against a specification that has no counters:
 * an index is scanned iff no window of `limit + 1` consecutive inactive indices lies wholly before it.
 */
module Discovery {
  import opened Prelude
  import Events

  type Address = Events.Address

  /** An extended key of one account, from which the addresses of that account derive. */
  type Key = nat

  const ZERO_ADDRESS: Address := 0

  datatype DiscoveredAccount = DiscoveredAccount(eoaAccount: Address, swAccounts: seq<Address>)

  datatype DiscoveryConfig = DiscoveryConfig(eoaGap: int, sWalletGap: int, isTestNet: bool, isCustomWallet: bool)

  /**
   * What a scan sees: derivation of addresses, the wallets an address owns (standard or with custom logic)
   * and which addresses have activity on the chain.
   */
  datatype World = World(
    derive: (Key, nat) -> Address,
    standardWallet: (Address, nat) -> Address,
    customWallet: (Address, nat) -> Address,
    active: Address -> bool)
  {
    function Wallet(config: DiscoveryConfig, owner: Address, index: nat): Address {
      if config.isCustomWallet then customWallet(owner, index) else standardWallet(owner, index)
    }
  }

  /** Derivation never hits the zero address. */
  ghost predicate NeverZero(world: World) {
    forall key, index :: world.derive(key, index) != ZERO_ADDRESS
  }

  // ---- One gap-limited scan, over any notion of activity ----

  /** The `limit + 1` indices from `start` on are idle. */
  ghost predicate IdleWindow(act: nat -> bool, start: nat, limit: int) {
    forall i: nat | start <= i <= start + limit :: !act(i)
  }

  /** No `limit + 1` consecutive idle indices before `i`. */
  ghost predicate Scanned(act: nat -> bool, limit: int, i: nat) {
    forall start: nat | start + limit + 1 <= i :: !IdleWindow(act, start, limit)
  }

  /** Exactly the indices below `n` are scanned. */
  ghost predicate ScanEnd(act: nat -> bool, limit: int, n: nat) {
    forall i: nat :: i < n <==> Scanned(act, limit, i)
  }

  ghost function ScanLength(act: nat -> bool, limit: int): nat {
    if exists n: nat :: ScanEnd(act, limit, n) then
      var n: nat :| ScanEnd(act, limit, n); n
    else
      0
  }

  /** The counter the loops keep: how many idle indices end just before `i`. */
  ghost function Gap(act: nat -> bool, i: nat): nat {
    if i == 0 || act(i - 1) then 0 else Gap(act, i - 1) + 1
  }

  lemma {:induction false} GapIsTrailingIdleRun(act: nat -> bool, i: nat)
    ensures Gap(act, i) <= i
    ensures IdleWindow(act, i - Gap(act, i), Gap(act, i) - 1)
    ensures Gap(act, i) == i || act(i - Gap(act, i) - 1)
  {
    if i != 0 && !act(i - 1) {
      GapIsTrailingIdleRun(act, i - 1);
    }
  }

  /** The counter never passed the limit on the way to `i` iff `i` is scanned. */
  lemma {:induction false} ScannedIffGapsWithin(act: nat -> bool, limit: int, i: nat)
    ensures Scanned(act, limit, i) <==> forall k: nat | k <= i :: Gap(act, k) <= limit
  {
    if k: nat :| k <= i && limit < Gap(act, k) {
      GapIsTrailingIdleRun(act, k);
      var start := if limit < 0 then 0 else k - limit - 1;
      assert IdleWindow(act, start, limit);
    } else if start: nat :| start + limit + 1 <= i && IdleWindow(act, start, limit) {
      assert Gap(act, 0) <= limit;
      GapIsTrailingIdleRun(act, start + limit + 1);
    }
  }

  lemma ScanEndsAtFirstWideGap(act: nat -> bool, limit: int, n: nat)
    requires forall k: nat | k < n :: Gap(act, k) <= limit
    requires limit < Gap(act, n)
    ensures ScanEnd(act, limit, n)
    ensures ScanLength(act, limit) == n
  {
    forall i: nat ensures i < n <==> Scanned(act, limit, i) {
      ScannedIffGapsWithin(act, limit, i);
    }
    assert ScanEnd(act, limit, n);
    ScanEndIsUnique(act, limit, n, ScanLength(act, limit));
  }

  lemma ScanEndIsUnique(act: nat -> bool, limit: int, n: nat, m: nat)
    requires ScanEnd(act, limit, n) && ScanEnd(act, limit, m)
    ensures n == m
  {
    assert n < m <==> Scanned(act, limit, n);
    assert m < n <==> Scanned(act, limit, m);
  }

  /** The active indices below `n`, ascending. */
  ghost function Hits(act: nat -> bool, n: nat): seq<nat> {
    if n == 0 then [] else Hits(act, n - 1) + if act(n - 1) then [n - 1] else []
  }

  ghost predicate Ascending(indices: seq<nat>) {
    forall j, k | 0 <= j < k < |indices| :: indices[j] < indices[k]
  }

  lemma {:induction false} HitsListsActive(act: nat -> bool, n: nat)
    ensures Ascending(Hits(act, n))
    ensures forall i: nat :: i in Hits(act, n) <==> i < n && act(i)
  {
    if n != 0 {
      HitsListsActive(act, n - 1);
      var before := Hits(act, n - 1);
      forall k | 0 <= k < |before| ensures before[k] < n - 1 {
        assert before[k] in before;
      }
    }
  }

  lemma {:induction false} QuietTailAddsNoHits(act: nat -> bool, m: nat, n: nat)
    requires m <= n && forall i: nat | m <= i < n :: !act(i)
    ensures Hits(act, n) == Hits(act, m)
    decreases n
  {
    if m < n {
      QuietTailAddsNoHits(act, m, n - 1);
    }
  }

  // ---- What a scan must record ----

  ghost function WalletActivity(world: World, config: DiscoveryConfig, owner: Address): nat -> bool {
    (w: nat) => world.active(world.Wallet(config, owner, w))
  }

  ghost function WalletsAt(world: World, config: DiscoveryConfig, owner: Address, indices: seq<nat>): seq<Address> {
    seq(|indices|, k requires 0 <= k < |indices| => world.Wallet(config, owner, indices[k]))
  }

  /** The active wallets of `owner` that a scan reaches. */
  ghost function WalletsOf(world: World, config: DiscoveryConfig, owner: Address): seq<Address> {
    var act := WalletActivity(world, config, owner);
    WalletsAt(world, config, owner, Hits(act, ScanLength(act, config.sWalletGap)))
  }

  /** An index is active if its address is, or one of the scanned wallets of that address. */
  ghost function EoaActivity(world: World, config: DiscoveryConfig, key: Key): nat -> bool {
    (i: nat) => world.active(world.derive(key, i)) || WalletsOf(world, config, world.derive(key, i)) != []
  }

  ghost function RecordOf(world: World, config: DiscoveryConfig, owner: Address): DiscoveredAccount {
    DiscoveredAccount(owner, WalletsOf(world, config, owner))
  }

  ghost function RecordsAt(world: World, config: DiscoveryConfig, key: Key, indices: seq<nat>): seq<DiscoveredAccount> {
    seq(|indices|, k requires 0 <= k < |indices| => RecordOf(world, config, world.derive(key, indices[k])))
  }

  /** A record for each active index below `n`. */
  ghost function RecordsBelow(world: World, config: DiscoveryConfig, key: Key, n: nat): seq<DiscoveredAccount> {
    RecordsAt(world, config, key, Hits(EoaActivity(world, config, key), n))
  }

  /** What the scan of one account records. */
  ghost function Records(world: World, config: DiscoveryConfig, key: Key): seq<DiscoveredAccount> {
    RecordsBelow(world, config, key, ScanLength(EoaActivity(world, config, key), config.eoaGap))
  }

  ghost function AllRecords(world: World, config: DiscoveryConfig, keys: seq<Key>): seq<DiscoveredAccount> {
    if keys == [] then [] else
      AllRecords(world, config, keys[..|keys| - 1]) + Records(world, config, keys[|keys| - 1])
  }

  // ---- Activity that dies out, so that every scan ends ----

  ghost predicate KeyQuiet(world: World, config: DiscoveryConfig, key: Key, bound: nat) {
    && (forall i: nat | bound <= i :: !world.active(world.derive(key, i)))
    && (forall i: nat, w: nat | bound <= i || bound <= w ::
          !world.active(world.Wallet(config, world.derive(key, i), w)))
  }

  ghost predicate AccountsQuiet(world: World, config: DiscoveryConfig, reader: nat -> Option<Key>, bound: nat) {
    forall account: nat | reader(account).Some? ::
      KeyQuiet(world, config, reader(account).value, if account < bound then bound else 0)
  }

  lemma ActivityDiesOut(world: World, config: DiscoveryConfig, key: Key, bound: nat, i: nat)
    requires KeyQuiet(world, config, key, bound)
    requires bound <= i
    ensures !EoaActivity(world, config, key)(i)
  {
    var owner := world.derive(key, i);
    var act := WalletActivity(world, config, owner);
    QuietTailAddsNoHits(act, 0, ScanLength(act, config.sWalletGap));
  }

  lemma QuietWallets(world: World, config: DiscoveryConfig, key: Key, bound: nat, owner: Address, i: nat)
    requires KeyQuiet(world, config, key, bound) && owner == world.derive(key, i)
    ensures forall w: nat | bound <= w :: !world.active(world.Wallet(config, owner, w))
  {
  }

  lemma QuietAccountIsIdle(world: World, config: DiscoveryConfig, key: Key)
    requires KeyQuiet(world, config, key, 0)
    ensures Records(world, config, key) == []
  {
    var act := EoaActivity(world, config, key);
    forall i: nat ensures !act(i) {
      ActivityDiesOut(world, config, key, 0, i);
    }
    QuietTailAddsNoHits(act, 0, ScanLength(act, config.eoaGap));
  }

  /** The loop over addresses records index `i` iff it is active. */
  lemma OneMoreIndex(world: World, config: DiscoveryConfig, key: Key, i: nat)
    ensures RecordsBelow(world, config, key, 0) == []
    ensures RecordsBelow(world, config, key, i + 1) == RecordsBelow(world, config, key, i)
      + if EoaActivity(world, config, key)(i) then [RecordOf(world, config, world.derive(key, i))] else []
  {
    hide WalletsOf;
  }

  // ---- Which accounts a procedure visits ----

  /** The key at m/44'/coin'/account', with the coin of the network. */
  ghost function AccountKey(config: DiscoveryConfig, root: (nat, nat) -> Key): nat -> Key {
    (account: nat) => root(if config.isTestNet then 37310 else 137, account)
  }

  /** A reader that can serve every account. */
  ghost function AllAccounts(keyOf: nat -> Key): nat -> Option<Key> {
    (account: nat) => Some(keyOf(account))
  }

  ghost predicate Busy(world: World, config: DiscoveryConfig, key: Option<Key>) {
    key.Some? && Records(world, config, key.value) != []
  }

  /** `stop` is the first account that is not served or has no activity. */
  ghost predicate StopsAt(world: World, config: DiscoveryConfig, reader: nat -> Option<Key>, stop: nat) {
    && !Busy(world, config, reader(stop))
    && forall a: nat | a < stop :: Busy(world, config, reader(a))
  }

  /** The keys of the accounts before `n`, in order. */
  ghost function Served(reader: nat -> Option<Key>, n: nat): seq<Key> {
    if n == 0 then [] else Served(reader, n - 1) + if reader(n - 1).Some? then [reader(n - 1).value] else []
  }

  lemma NothingServed(world: World, config: DiscoveryConfig, reader: nat -> Option<Key>)
    ensures AllRecords(world, config, Served(reader, 0)) == []
  {
  }

  lemma OneMoreServed(world: World, config: DiscoveryConfig, reader: nat -> Option<Key>, n: nat)
    requires reader(n).Some?
    ensures AllRecords(world, config, Served(reader, n + 1))
      == AllRecords(world, config, Served(reader, n)) + Records(world, config, reader(n).value)
  {
    hide Records;
    assert Served(reader, n + 1)[..|Served(reader, n)|] == Served(reader, n);
  }

  // ---- The scans ----

  class SmartWalletDiscovery {
    var accounts: seq<DiscoveredAccount>

    constructor ()
      ensures accounts == []
    {
      accounts := [];
    }

    /** The innermost loop, which the source repeats in its three procedures. */
    static method ScanWallets(world: World, config: DiscoveryConfig, owner: Address, ghost bound: nat)
      returns (swAccounts: seq<Address>)
      requires forall w: nat | bound <= w :: !world.active(world.Wallet(config, owner, w))
      ensures swAccounts == WalletsOf(world, config, owner)
    {
      hide IdleWindow, Scanned, ScanEnd, ScanLength;
      ghost var act := WalletActivity(world, config, owner);
      swAccounts := [];
      var currentSWGap, walletIndex := 0, 0;
      while currentSWGap <= config.sWalletGap
        invariant currentSWGap == Gap(act, walletIndex)
        invariant forall k: nat | k < walletIndex :: Gap(act, k) <= config.sWalletGap
        invariant swAccounts == WalletsAt(world, config, owner, Hits(act, walletIndex))
        decreases Max(bound - walletIndex, 0), config.sWalletGap - currentSWGap
      {
        var currentSWAddress := world.Wallet(config, owner, walletIndex);
        if world.active(currentSWAddress) {
          swAccounts := swAccounts + [currentSWAddress];
          currentSWGap := 0;
        } else {
          currentSWGap := currentSWGap + 1;
        }
        walletIndex := walletIndex + 1;
      }
      ScanEndsAtFirstWideGap(act, config.sWalletGap, walletIndex);
    }

    /** The loop over the addresses of one account, also repeated in the three procedures. */
    method ScanAccount(world: World, config: DiscoveryConfig, key: Key, ghost bound: nat)
      returns (totalTrxCount: nat, totalSWTrxCount: nat)
      requires NeverZero(world) && KeyQuiet(world, config, key, bound)
      modifies this
      ensures accounts == old(accounts) + Records(world, config, key)
      ensures totalTrxCount == 0 && totalSWTrxCount == 0 <==> Records(world, config, key) == []
    {
      hide IdleWindow, Scanned, ScanEnd, ScanLength, WalletsOf, RecordsBelow, KeyQuiet;
      OneMoreIndex(world, config, key, 0);
      ghost var act := EoaActivity(world, config, key);
      totalTrxCount, totalSWTrxCount := 0, 0;
      var currentGap, index := 0, 0;
      while currentGap <= config.eoaGap
        invariant currentGap == Gap(act, index)
        invariant forall k: nat | k < index :: Gap(act, k) <= config.eoaGap
        invariant accounts == old(accounts) + RecordsBelow(world, config, key, index)
        invariant totalTrxCount == 0 && totalSWTrxCount == 0 <==> RecordsBelow(world, config, key, index) == []
        decreases Max(bound - index, 0), config.eoaGap - currentGap
      {
        if bound <= index {
          ActivityDiesOut(world, config, key, bound, index);
        }
        OneMoreIndex(world, config, key, index);
        var currentAddress := world.derive(key, index);
        var eoaAccount := ZERO_ADDRESS;
        if world.active(currentAddress) {
          eoaAccount := currentAddress;
          totalTrxCount := totalTrxCount + 1;
          currentGap := 0;
        } else {
          currentGap := currentGap + 1;
        }
        index := index + 1;
        QuietWallets(world, config, key, bound, currentAddress, index - 1);
        var swAccounts := ScanWallets(world, config, currentAddress, bound);
        if |swAccounts| > 0 {
          totalSWTrxCount := totalSWTrxCount + |swAccounts|;
          currentGap := 0;
        }
        if |swAccounts| > 0 && eoaAccount == ZERO_ADDRESS {
          eoaAccount := currentAddress;
        }
        if eoaAccount != ZERO_ADDRESS || |swAccounts| > 0 {
          accounts := accounts + [DiscoveredAccount(eoaAccount, swAccounts)];
        }
      }
      ScanEndsAtFirstWideGap(act, config.eoaGap, index);
    }

    /** Scan the accounts of a mnemonic's root key until one has no activity at all. */
    method DiscoverAccountsFromMnemonic(world: World, config: DiscoveryConfig, root: (nat, nat) -> Key,
        ghost bound: nat)
      returns (ghost stop: nat)
      requires NeverZero(world) && AccountsQuiet(world, config, AllAccounts(AccountKey(config, root)), bound)
      modifies this
      ensures StopsAt(world, config, AllAccounts(AccountKey(config, root)), stop)
      ensures accounts == old(accounts) + AllRecords(world, config, Served(AllAccounts(AccountKey(config, root)), stop))
    {
      hide Records, AllRecords, Served;
      ghost var reader := AllAccounts(AccountKey(config, root));
      NothingServed(world, config, reader);
      var ended, currentAccount := false, 0;
      while !ended
        invariant forall a: nat | a < currentAccount :: Busy(world, config, reader(a))
        invariant ended ==> !Busy(world, config, reader(currentAccount))
        invariant accounts == old(accounts) + AllRecords(world, config, Served(reader, currentAccount))
        decreases !ended, Max(bound - currentAccount, 0)
      {
        var key := root(if config.isTestNet then 37310 else 137, currentAccount);
        assert reader(currentAccount) == Some(key);
        if bound <= currentAccount {
          QuietAccountIsIdle(world, config, key);
        }
        var totalTrxCount, totalSWTrxCount :=
          ScanAccount(world, config, key, if currentAccount < bound then bound else 0);
        if totalTrxCount == 0 && totalSWTrxCount == 0 {
          ended := true;
        } else {
          OneMoreServed(world, config, reader, currentAccount);
          currentAccount := currentAccount + 1;
        }
      }
      stop := currentAccount;
    }

    /** Scan a list of account keys, whatever activity they have. */
    method DiscoverAccountsFromExtendedPublicKeys(world: World, config: DiscoveryConfig, extendedPublicKeys: seq<Key>,
        ghost bound: nat)
      requires NeverZero(world)
      requires forall key | key in extendedPublicKeys :: KeyQuiet(world, config, key, bound)
      modifies this
      ensures accounts == old(accounts) + AllRecords(world, config, extendedPublicKeys)
    {
      hide Records, KeyQuiet;
      for i := 0 to |extendedPublicKeys|
        invariant accounts == old(accounts) + AllRecords(world, config, extendedPublicKeys[..i])
      {
        var _, _ := ScanAccount(world, config, extendedPublicKeys[i], bound);
        assert extendedPublicKeys[..i + 1][..i] == extendedPublicKeys[..i];
      }
      assert extendedPublicKeys[..|extendedPublicKeys|] == extendedPublicKeys;
    }

    /** Scan the accounts a reader serves, until it serves none or one has no activity at all. */
    method DiscoverAccounts(world: World, config: DiscoveryConfig, accountReader: nat -> Option<Key>, ghost bound: nat)
      returns (ghost stop: nat)
      requires NeverZero(world) && AccountsQuiet(world, config, accountReader, bound)
      modifies this
      ensures StopsAt(world, config, accountReader, stop)
      ensures accounts == old(accounts) + AllRecords(world, config, Served(accountReader, stop))
    {
      hide Records, AllRecords, Served;
      NothingServed(world, config, accountReader);
      var ended, currentAccount := false, 0;
      while !ended
        invariant forall a: nat | a < currentAccount :: Busy(world, config, accountReader(a))
        invariant ended ==> !Busy(world, config, accountReader(currentAccount))
        invariant accounts == old(accounts) + AllRecords(world, config, Served(accountReader, currentAccount))
        decreases !ended, Max(bound - currentAccount, 0)
      {
        match accountReader(currentAccount)
        case None =>
          ended := true;
        case Some(key) =>
          if bound <= currentAccount {
            QuietAccountIsIdle(world, config, key);
          }
          var totalTrxCount, totalSWTrxCount :=
            ScanAccount(world, config, key, if currentAccount < bound then bound else 0);
          if totalTrxCount == 0 && totalSWTrxCount == 0 {
            ended := true;
          } else {
            OneMoreServed(world, config, accountReader, currentAccount);
            currentAccount := currentAccount + 1;
          }
      }
      stop := currentAccount;
    }
  }

  // ---- What the procedures compute, without counters ----

  /**
   * Address gap limit of BIP 44: the scan of a key records, in index order, exactly the active indices that no gap
   * window precedes, each with exactly the wallets that are active and that no wallet gap window precedes.
   */
  lemma RecordsAreExactlyTheReachedActive(world: World, config: DiscoveryConfig, key: Key, bound: nat)
    returns (indices: seq<nat>)
    requires KeyQuiet(world, config, key, bound)
    ensures Ascending(indices)
    ensures forall i: nat :: i in indices <==>
      Scanned(EoaActivity(world, config, key), config.eoaGap, i) && EoaActivity(world, config, key)(i)
    ensures Records(world, config, key) == seq(|indices|, k requires 0 <= k < |indices| =>
      var owner := world.derive(key, indices[k]);
      DiscoveredAccount(owner, WalletsOf(world, config, owner)))
    ensures forall other: seq<nat> ::
      Ascending(other) && (forall i: nat :: i in other <==> i in indices) ==> other == indices
  {
    hide Scanned, WalletsOf;
    var act := EoaActivity(world, config, key);
    forall i: nat | bound <= i ensures !act(i) {
      ActivityDiesOut(world, config, key, bound, i);
    }
    QuietScanEnds(act, config.eoaGap, bound);
    indices := Hits(act, ScanLength(act, config.eoaGap));
    HitsListsActive(act, ScanLength(act, config.eoaGap));
    forall other: seq<nat> | Ascending(other) && forall i: nat :: i in other <==> i in indices
      ensures other == indices
    {
      AscendingIsUnique(other, indices);
    }
  }

  /** The same of the wallets of one address. */
  lemma WalletsAreExactlyTheReachedActive(world: World, config: DiscoveryConfig, owner: Address, bound: nat)
    returns (indices: seq<nat>)
    requires forall w: nat | bound <= w :: !world.active(world.Wallet(config, owner, w))
    ensures Ascending(indices)
    ensures forall w: nat :: w in indices <==>
      Scanned(WalletActivity(world, config, owner), config.sWalletGap, w)
      && world.active(if config.isCustomWallet then world.customWallet(owner, w) else world.standardWallet(owner, w))
    ensures WalletsOf(world, config, owner) == seq(|indices|, k requires 0 <= k < |indices| =>
      if config.isCustomWallet then world.customWallet(owner, indices[k]) else world.standardWallet(owner, indices[k]))
  {
    hide Scanned;
    var act := WalletActivity(world, config, owner);
    QuietScanEnds(act, config.sWalletGap, bound);
    indices := Hits(act, ScanLength(act, config.sWalletGap));
    HitsListsActive(act, ScanLength(act, config.sWalletGap));
    forall w: nat
      ensures act(w) ==
        world.active(if config.isCustomWallet then world.customWallet(owner, w) else world.standardWallet(owner, w))
    {
      assert world.Wallet(config, owner, w)
        == if config.isCustomWallet then world.customWallet(owner, w) else world.standardWallet(owner, w);
    }
    assert forall w: nat :: w in indices <==> Scanned(act, config.sWalletGap, w) && act(w);
  }

  /** An index counts as active because of its address or because of a wallet that the wallet scan reaches. */
  lemma ActiveIffAddressOrReachedWallet(world: World, config: DiscoveryConfig, key: Key, bound: nat, i: nat)
    requires KeyQuiet(world, config, key, bound)
    ensures EoaActivity(world, config, key)(i) <==>
      var owner := world.derive(key, i);
      world.active(owner) || exists w: nat ::
        Scanned(WalletActivity(world, config, owner), config.sWalletGap, w)
        && world.active(world.Wallet(config, owner, w))
  {
    hide Scanned;
    var owner := world.derive(key, i);
    var indices := WalletsAreExactlyTheReachedActive(world, config, owner, bound);
    if WalletsOf(world, config, owner) != [] {
      assert indices[0] in indices;
    }
  }

  /** When activity dies out, the scan ends. */
  lemma QuietScanEnds(act: nat -> bool, limit: int, bound: nat)
    requires forall i: nat | bound <= i :: !act(i)
    ensures ScanEnd(act, limit, ScanLength(act, limit))
  {
    hide Scanned, ScanEnd, ScanLength;
    var n, gap := 0, 0;
    while gap <= limit
      invariant gap == Gap(act, n)
      invariant forall k: nat | k < n :: Gap(act, k) <= limit
      decreases Max(bound - n, 0), limit - gap
    {
      n := n + 1;
      gap := Gap(act, n);
    }
    ScanEndsAtFirstWideGap(act, limit, n);
  }

  lemma {:induction false} AscendingIsUnique(a: seq<nat>, b: seq<nat>)
    requires Ascending(a) && Ascending(b)
    requires forall i: nat :: i in a <==> i in b
    ensures a == b
    decreases |a|
  {
    assert a == [] || a[0] in b;
    assert b == [] || b[0] in a;
    if a != [] && b != [] {
      var m, n := |a| - 1, |b| - 1;
      assert a[m] in b && b[n] in a;
      forall i: nat ensures i in a[..m] <==> i in b[..n] {
        assert i in a[..m] <==> i in a && i != a[m];
        assert i in b[..n] <==> i in b && i != b[n];
      }
      AscendingIsUnique(a[..m], b[..n]);
    }
  }

  // ---- The three procedures agree ----

  ghost function FirstKeys(keyOf: nat -> Key, n: nat): seq<Key> {
    seq(n, a requires 0 <= a < n => keyOf(a))
  }

  lemma {:induction false} ServedKeys(reader: nat -> Option<Key>, keyOf: nat -> Key, n: nat)
    requires forall a: nat | a < n :: reader(a) == Some(keyOf(a))
    ensures Served(reader, n) == FirstKeys(keyOf, n)
  {
    if n != 0 {
      ServedKeys(reader, keyOf, n - 1);
    }
  }

  /**
   * Let the mnemonic scan stop at account `stop`. A scan with a reader of the same keys stops there too, or earlier at
   * an account that is not served, and it records what a scan of the list of the keys before its stop does. Listing the
   * first idle account as well adds nothing.
   */
  lemma ProceduresAgree(world: World, config: DiscoveryConfig, keyOf: nat -> Key, reader: nat -> Option<Key>,
      stop: nat, readerStop: nat)
    requires StopsAt(world, config, AllAccounts(keyOf), stop)
    requires forall a: nat | a <= stop && reader(a).Some? :: reader(a).value == keyOf(a)
    requires StopsAt(world, config, reader, readerStop)
    ensures readerStop <= stop && (readerStop < stop ==> reader(readerStop).None?)
    ensures Served(reader, readerStop) == FirstKeys(keyOf, readerStop)
    ensures Served(AllAccounts(keyOf), stop) == FirstKeys(keyOf, stop)
    ensures AllRecords(world, config, FirstKeys(keyOf, stop + 1)) == AllRecords(world, config, FirstKeys(keyOf, stop))
  {
    hide Records, Served;
    assert !Busy(world, config, Some(keyOf(stop)));
    if readerStop < stop {
      assert Busy(world, config, AllAccounts(keyOf)(readerStop));
    }
    ServedKeys(reader, keyOf, readerStop);
    ServedKeys(AllAccounts(keyOf), keyOf, stop);
    assert FirstKeys(keyOf, stop + 1)[..stop] == FirstKeys(keyOf, stop);
  }

  // ---- Finitely many active addresses are enough for termination ----

  /** Every derivation that lands in `live` has all its indices below `bound`. */
  ghost predicate Reaches(world: World, config: DiscoveryConfig, keyOf: nat -> Key, live: set<Address>, bound: nat) {
    && (forall a: nat, i: nat | world.derive(keyOf(a), i) in live :: a < bound && i < bound)
    && (forall a: nat, i: nat, w: nat | world.Wallet(config, world.derive(keyOf(a), i), w) in live ::
          a < bound && i < bound && w < bound)
  }

  ghost predicate DistinctDerivations(world: World, config: DiscoveryConfig, keyOf: nat -> Key) {
    && (forall a: nat, i: nat, b: nat, j: nat | world.derive(keyOf(a), i) == world.derive(keyOf(b), j) ::
          a == b && i == j)
    && (forall x, w: nat, y, v: nat | world.Wallet(config, x, w) == world.Wallet(config, y, v) :: x == y && w == v)
  }

  lemma {:induction false} FiniteSetsAreBounded(world: World, config: DiscoveryConfig, keyOf: nat -> Key,
      live: set<Address>) returns (bound: nat)
    requires DistinctDerivations(world, config, keyOf)
    ensures Reaches(world, config, keyOf, live, bound)
    decreases |live|
  {
    if live == {} {
      return 0;
    }
    var x :| x in live;
    bound := FiniteSetsAreBounded(world, config, keyOf, live - {x});
    if a: nat, i: nat :| world.derive(keyOf(a), i) == x {
      bound := bound + a + i + 1;
    }
    if a: nat, i: nat, w: nat :| world.Wallet(config, world.derive(keyOf(a), i), w) == x {
      bound := bound + a + i + w + 1;
    }
  }

  /** Finitely many active addresses, all derived addresses distinct: the activity of the accounts dies out. */
  lemma FiniteActivityDiesOut(world: World, config: DiscoveryConfig, keyOf: nat -> Key, live: set<Address>)
    returns (bound: nat)
    requires DistinctDerivations(world, config, keyOf)
    requires forall x | world.active(x) :: x in live
    ensures AccountsQuiet(world, config, AllAccounts(keyOf), bound)
  {
    bound := FiniteSetsAreBounded(world, config, keyOf, live);
  }
}
