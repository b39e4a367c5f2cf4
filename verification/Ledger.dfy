/**
 The contract's instance storage, one field per `DataKey` (src/types.rs), with the
 two pieces of host state the contract reads: the ledger clock and the token balances.

 The fields are grouped by the entry points that write them. A key whose only
 reader is `get(..).unwrap_or(false)` is a `bool`, false standing for absence.
 */
module Ledger {
  import opened Types

  const DEFAULT_WEIGHT_THRESHOLD: u64 := 300

  datatype Settings = Settings(
    initialized: bool,
    token: Option<Address>,
    lockThreshold: Option<i128>,
    weightThreshold: Option<u64>,
    vault: Option<Address>)

  datatype Breaker = Breaker(paused: bool, failures: u32)

  /** `flags` is `Guardian(Address)`: resigning stores false, removal deletes the key. */
  datatype Roster = Roster(flags: map<Address, bool>, listed: Vec<Address>)

  datatype Escrow = Escrow(locked: map<Address, i128>, balances: Balances)

  datatype Board = Board(
    active: map<u64, Task>,
    archived: map<u64, Task>,
    allTasks: Vec<u64>,
    voted: set<Ballot>,
    allVotes: Vec<Ballot>,
    streams: map<u64, RewardStream>,
    allStreams: Vec<u64>)
  {
    predicate Registered(id: u64) {
      id in active || id in archived
    }

    /** The record of a task, wherever it is stored. */
    function Record(id: u64): Task
      requires Registered(id)
    {
      if id in active then active[id] else archived[id]
    }
  }

  datatype State = State(
    self: Address,
    clock: u64,
    mutex: bool,
    settings: Settings,
    breaker: Breaker,
    roster: Roster,
    reputation: map<Address, u64>,
    escrow: Escrow,
    board: Board)
  {
    predicate IsGuardian(g: Address) {
      g in roster.flags && roster.flags[g]
    }

    function LockThreshold(): i128 {
      if settings.lockThreshold.Some? then settings.lockThreshold.value else 0
    }

    function WeightThreshold(): u64 {
      if settings.weightThreshold.Some? then settings.weightThreshold.value
      else DEFAULT_WEIGHT_THRESHOLD
    }

    function LockedBalance(g: Address): i128 {
      LockedIn(escrow.locked, g)
    }

    function Balance(token: Address, holder: Address): Amount {
      BalanceOf(escrow.balances, token, holder)
    }
  }

  /** The locked deposit booked for `g`; an absent key is none. */
  function LockedIn(locked: map<Address, i128>, g: Address): i128 {
    if g in locked then locked[g] else 0
  }

  function BalanceOf(b: Balances, token: Address, holder: Address): Amount {
    if (token, holder) in b then b[(token, holder)] else 0
  }

  /**
   A token transfer: none when it traps, because the amount is negative, not
   covered, or would take the recipient past the i128 maximum.
   The debit is booked before the credit, so a transfer to oneself changes nothing.
   */
  function Transfer(b: Balances, token: Address, from: Address, to: Address, amount: int): (r: Option<Balances>)
    ensures r.Some? <==>
            && 0 <= amount <= BalanceOf(b, token, from)
            && (from == to || BalanceOf(b, token, to) + amount <= I128_MAX)
    ensures r.Some? ==> forall t, h :: BalanceOf(r.value, t, h) ==
                                       BalanceOf(b, t, h)
                                       - (if t == token && h == from then amount else 0)
                                       + (if t == token && h == to then amount else 0)
  {
    if amount < 0 || BalanceOf(b, token, from) < amount then None
    else
      var debited := b[(token, from) := BalanceOf(b, token, from) - amount];
      if BalanceOf(debited, token, to) + amount > I128_MAX then None
      else Some(debited[(token, to) := BalanceOf(debited, token, to) + amount])
  }
}
