/** Machine integers, addresses, records and error codes of the contract (src/types.rs). */
module Types {

  const U32_MAX: int := 0xFFFF_FFFF
  const U64_MAX: int := 0xFFFF_FFFF_FFFF_FFFF
  const I128_MAX: int := 0x7FFF_FFFF_FFFF_FFFF_FFFF_FFFF_FFFF_FFFF
  const I128_MIN: int := -I128_MAX - 1

  type u32 = x: int | 0 <= x <= U32_MAX
  type u64 = x: int | 0 <= x <= U64_MAX
  type i128 = x: int | I128_MIN <= x <= I128_MAX

  /** A token balance: an i128 that the token contract never lets go negative. */
  type Amount = x: int | 0 <= x <= I128_MAX

  /** The host's vector: its length is a u32. */
  type Vec<T> = s: seq<T> | |s| <= U32_MAX

  function Min(a: int, b: int): int {
    if a < b then a else b
  }

  datatype Option<+T> = None | Some(value: T)

  datatype Address = Address(id: nat)

  datatype Task = Task(
    id: u64,
    votes: u32,
    isDone: bool,
    resolvedAt: u64,
    accrued: u64,
    isCancelled: bool)

  datatype RewardStream = RewardStream(
    taskId: u64,
    contributor: Address,
    dripsContract: Address,
    active: bool)

  datatype ContractError =
    | NotAuthorized
    | DuplicateVote
    | TaskNotVerified
    | StreamAlreadyActive
    | AlreadyInitialized
    | NotInitialized
    | NoReputationScore
    | ZeroWeightVote
    | WeightOverflow
    | InsufficientLockedBalance
    | StillGuardian
    | NotGuardian
    | Locked
    | ContractPaused
    | EscrowUnavailable
    | TaskCancelled
    | TaskNotFound
    | TaskNotStale
    | TaskAlreadyArchived
    | BatchTooLarge

  /** How an invocation ends: normally, with a contract error, or with a host trap. */
  datatype Outcome = Ok | Err(error: ContractError) | Trap

  /** A vote on the record: who voted on which task. */
  type Ballot = (u64, Address)

  /** Token holdings, keyed by token contract and holder; an absent key is a zero balance. */
  type Balances = map<(Address, Address), Amount>

  ghost predicate NoDuplicates<T>(s: seq<T>) {
    forall i, j | 0 <= i < j < |s| :: s[i] != s[j]
  }
}
