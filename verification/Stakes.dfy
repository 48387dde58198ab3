/** The stake entry that the hub contract keeps for the manager (`RelayHub.sol`), and what changes it. */
module Stakes {
  import opened Events
  import opened ServerState

  /** A transaction that changes the entry, with the block it is in. Each emits an event of its own. */
  datatype StakeChange =
    | Add(blockNumber: nat, value: nat, owner: Address)
    | Unlock(blockNumber: nat, withdrawBlock: nat)
    | Withdraw(blockNumber: nat)
    | Penalize(blockNumber: nat)

  const UNSTAKED := StakeInfo(0, 0, 0)

  /** The server asks for the events of all changes but this: `StakePenalized` is not among the names it queries. */
  predicate Asked(c: StakeChange) {
    !c.Penalize?
  }

  /** What the contract demands. The zero address is nobody's, and stands for an entry without owner. */
  predicate Allowed(info: StakeInfo, c: StakeChange) {
    match c
    case Add(_, _, owner) => owner != 0 && (info.owner == 0 || info.owner == owner)
    case Unlock(block, withdrawBlock) => info.owner != 0 && info.withdrawBlock == 0 && withdrawBlock >= block
    case Withdraw(block) => 0 < info.withdrawBlock <= block
    case Penalize(_) => info.stake > 0
  }

  function Changed(info: StakeInfo, c: StakeChange): StakeInfo {
    match c
    case Add(_, value, owner) => info.(stake := info.stake + value, owner := owner)
    case Unlock(_, withdrawBlock) => info.(withdrawBlock := withdrawBlock)
    case Withdraw(_) => UNSTAKED
    case Penalize(_) => info.(stake := 0)
  }

  /** The entry after these changes: what `getStakeInfo` answers. */
  function StakeOf(changes: seq<StakeChange>): StakeInfo {
    if changes == [] then UNSTAKED
    else Changed(StakeOf(changes[..|changes| - 1]), changes[|changes| - 1])
  }

  predicate Lawful(changes: seq<StakeChange>) {
    changes == []
    || (Lawful(changes[..|changes| - 1]) && Allowed(StakeOf(changes[..|changes| - 1]), changes[|changes| - 1]))
  }

  /** How many events the query for stake events after `block` finds. */
  function AskedSince(changes: seq<StakeChange>, block: nat): (n: nat)
    ensures n == 0 <==> forall i | 0 <= i < |changes| && Asked(changes[i]) :: changes[i].blockNumber <= block
  {
    if changes == [] then 0
    else
      var last := changes[|changes| - 1];
      AskedSince(changes[..|changes| - 1], block) + if Asked(last) && last.blockNumber > block then 1 else 0
  }

  /** All changes that the server asks about are in blocks up to this one. */
  ghost predicate AllScanned(changes: seq<StakeChange>, block: nat) {
    forall i | 0 <= i < |changes| && Asked(changes[i]) :: changes[i].blockNumber <= block
  }

  /** The stake is there, and nobody is withdrawing it. */
  predicate Locked(info: StakeInfo) {
    info.stake != 0 && info.withdrawBlock == 0
  }
}
