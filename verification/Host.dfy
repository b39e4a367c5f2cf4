/** The environment an invocation runs in: `env.storage().instance()`, the ledger clock, the tokens. */
module Host {
  import opened Types
  import opened Ledger

  class Env {
    const self: Address

    // ledger and token contracts
    var clock: u64
    var balances: Balances

    // instance storage, one field per DataKey
    var initialized: bool
    var token: Option<Address>
    var lockThreshold: Option<i128>
    var weightThreshold: Option<u64>
    var vaultAddress: Option<Address>
    var paused: bool
    var failureCount: u32
    var lock: bool
    var guardians: map<Address, bool>
    var allGuardians: Vec<Address>
    var reputation: map<Address, u64>
    var locked: map<Address, i128>
    var active: map<u64, Task>
    var archived: map<u64, Task>
    var allTasks: Vec<u64>
    var voted: set<Ballot>
    var allVotes: Vec<Ballot>
    var streams: map<u64, RewardStream>
    var allStreams: Vec<u64>

    /** A freshly deployed contract: nothing is stored yet. */
    constructor (self: Address, clock: u64, balances: Balances)
      ensures Abs() == Deployed(self, clock, balances)
    {
      this.self, this.clock, this.balances := self, clock, balances;
      initialized, token, lockThreshold := false, None, None;
      weightThreshold, vaultAddress := None, None;
      paused, failureCount, lock := false, 0, false;
      guardians, allGuardians, reputation, locked := map[], [], map[], map[];
      active, archived, allTasks := map[], map[], [];
      voted, allVotes := {}, [];
      streams, allStreams := map[], [];
    }

    function Abs(): State
      reads this
    {
      State(
        self, clock, lock,
        Settings(initialized, token, lockThreshold, weightThreshold, vaultAddress),
        Breaker(paused, failureCount),
        Roster(guardians, allGuardians),
        reputation,
        Escrow(locked, balances),
        Board(active, archived, allTasks, voted, allVotes, streams, allStreams))
    }

    /** The host's roll-back: puts everything back as it was captured. */
    method Restore(s: State)
      requires s.self == self
      modifies this
      ensures Abs() == s
    {
      RestoreSettings(s.settings, s.breaker);
      RestorePeople(s.roster, s.reputation, s.escrow);
      RestoreBoard(s.board);
      clock, lock := s.clock, s.mutex;
      assert Abs().settings == s.settings && Abs().breaker == s.breaker && Abs().board == s.board;
    }

    method RestoreSettings(t: Settings, b: Breaker)
      modifies `initialized, `token, `lockThreshold, `weightThreshold, `vaultAddress, `paused, `failureCount
      ensures Abs().settings == t && Abs().breaker == b
    {
      initialized, token, lockThreshold := t.initialized, t.token, t.lockThreshold;
      weightThreshold, vaultAddress := t.weightThreshold, t.vault;
      paused, failureCount := b.paused, b.failures;
      assert
        && initialized == t.initialized && token == t.token && lockThreshold == t.lockThreshold
        && weightThreshold == t.weightThreshold && vaultAddress == t.vault;
    }

    method RestorePeople(r: Roster, scores: map<Address, u64>, e: Escrow)
      modifies `guardians, `allGuardians, `reputation, `locked, `balances
      ensures Abs().roster == r && Abs().reputation == scores && Abs().escrow == e
    {
      guardians, allGuardians := r.flags, r.listed;
      reputation := scores;
      locked, balances := e.locked, e.balances;
    }

    method RestoreBoard(b: Board)
      modifies `active, `archived, `allTasks, `voted, `allVotes, `streams, `allStreams
      ensures Abs().board == b
    {
      active, archived, allTasks := b.active, b.archived, b.allTasks;
      voted, allVotes := b.voted, b.allVotes;
      streams, allStreams := b.streams, b.allStreams;
    }

    /** `token::Client::transfer`; false when the token contract traps. */
    method TransferTokens(token: Address, from: Address, to: Address, amount: i128) returns (moved: bool)
      modifies `balances
      ensures moved <==> Transfer(old(balances), token, from, to, amount).Some?
      ensures balances == if moved then Transfer(old(balances), token, from, to, amount).value else old(balances)
    {
      var after := Transfer(balances, token, from, to, amount);
      moved := after.Some?;
      if moved {
        balances := after.value;
      }
    }
  }

  function Deployed(self: Address, clock: u64, balances: Balances): State {
    State(
      self, clock, false,
      Settings(false, None, None, None, None),
      Breaker(false, 0),
      Roster(map[], []),
      map[],
      Escrow(map[], balances),
      Board(map[], map[], [], {}, [], map[], []))
  }
}
