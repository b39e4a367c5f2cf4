/**
 What each entry point does to the stored state, as one atomic transition:
 an invocation that ends with an error or a trap leaves the state as it was.
 The imperative modules are proved against these functions.
 */
module Contract {
  import opened Types
  import opened Ledger

  const FAILURE_THRESHOLD := 50
  const ARCHIVE_AFTER_SECONDS := 2_592_000
  const MAX_REGISTER_TASK_BATCH_SIZE := 32

  /**
   The vault's side of `release_funds`: the guarded entry points it calls back
   into, and whether it returns normally in the end.
   */
  datatype Vault = Vault(calls: seq<Callback>, succeeds: bool)

  datatype Callback =
    | VoteAgain(voter: Address, taskId: u64, vault: Vault)
    | RegisterAgain(taskId: u64)
    | CancelAgain(taskId: u64)

  datatype Call =
    | Initialize(token: Address, lockThreshold: i128)
    | TogglePause
    | Pause
    | Unpause
    | AddGuardian(guardian: Address)
    | RemoveGuardian(guardian: Address)
    | LockTokens(guardian: Address, amount: i128)
    | ResignGuardian(guardian: Address)
    | UnlockTokens(guardian: Address)
    | SetReputation(guardian: Address, score: u64)
    | SetWeightThreshold(threshold: u64)
    | SetVaultAddress(vaultAddress: Address)
    | RegisterTask(taskId: u64)
    | CancelTask(taskId: u64)
    | Vote(guardian: Address, taskId: u64, vault: Vault)
    | ArchiveTask(taskId: u64)
    | StartRewardStream(drips: Address, contributor: Address, taskId: u64, dripsReturns: bool)
    | RecordFailure
    | ResetCircuitBreaker

  /** What can happen next: an invocation, or something outside the contract. */
  datatype Step =
    | Invoke(call: Call)
    | Tick(seconds: nat)
    | Mint(token: Address, to: Address, minted: Amount)
    | Pay(token: Address, from: Address, to: Address, paid: i128)

  datatype Effect = Effect(state: State, outcome: Outcome)

  function Commit(s: State): Effect {
    Effect(s, Ok)
  }

  function Refuse(s: State, e: ContractError): Effect {
    Effect(s, Err(e))
  }

  function Abort(s: State): Effect {
    Effect(s, Trap)
  }

  // ----- set-up, pause and circuit breaker -----

  function InitializeEffect(s: State, token: Address, lockThreshold: i128): Effect {
    if s.settings.initialized then Refuse(s, AlreadyInitialized)
    else
      Commit(s.(
        settings := s.settings.(initialized := true, token := Some(token), lockThreshold := Some(lockThreshold)),
        breaker := s.breaker.(paused := false)))
  }

  function SetPaused(s: State, paused: bool): State {
    s.(breaker := s.breaker.(paused := paused))
  }

  function RecordFailureEffect(s: State): Effect {
    if s.breaker.failures == U32_MAX then Abort(s)
    else
      var count := s.breaker.failures + 1;
      Commit(s.(breaker := Breaker(s.breaker.paused || count > FAILURE_THRESHOLD, count)))
  }

  function ResetEffect(s: State): State {
    s.(breaker := Breaker(false, 0))
  }

  // ----- guardians -----

  /** `guardian::add_guardian`: the key is stored, and listed if it was not stored before. */
  function EnrolEffect(s: State, g: Address): Effect {
    if g !in s.roster.flags && |s.roster.listed| == U32_MAX then Abort(s)
    else
      Commit(s.(roster := Roster(
        s.roster.flags[g := true],
        if g in s.roster.flags then s.roster.listed else s.roster.listed + [g])))
  }

  /** `guardian::remove_guardian`: the key goes, the listing stays. */
  function StrikeEffect(s: State, g: Address): Effect {
    if g !in s.roster.flags then Abort(s)
    else Commit(s.(roster := s.roster.(flags := s.roster.flags - {g})))
  }

  function AddGuardianEffect(s: State, g: Address): Effect {
    if s.breaker.paused then Refuse(s, ContractPaused) else EnrolEffect(s, g)
  }

  function RemoveGuardianEffect(s: State, g: Address): Effect {
    if s.breaker.paused then Refuse(s, ContractPaused) else StrikeEffect(s, g)
  }

  function SetReputationEffect(s: State, g: Address, score: u64): Effect {
    if s.breaker.paused then Refuse(s, ContractPaused)
    else Commit(s.(reputation := s.reputation[g := score]))
  }

  // ----- token escrow -----

  function LockTokensEffect(s: State, g: Address, amount: i128): Effect {
    if s.settings.token.None? then Refuse(s, NotInitialized)
    else
      var moved := Transfer(s.escrow.balances, s.settings.token.value, g, s.self, amount);
      if moved.None? || s.LockedBalance(g) + amount > I128_MAX then Abort(s)
      else Commit(s.(escrow := Escrow(s.escrow.locked[g := s.LockedBalance(g) + amount], moved.value)))
  }

  /** Pays out a positive locked balance and zeroes it; none when the transfer traps. */
  function Payout(s: State, token: Address, g: Address): Option<Escrow> {
    if s.LockedBalance(g) <= 0 then Some(s.escrow)
    else
      var moved := Transfer(s.escrow.balances, token, s.self, g, s.LockedBalance(g));
      if moved.None? then None
      else Some(Escrow(s.escrow.locked[g := 0], moved.value))
  }

  function ResignGuardianEffect(s: State, g: Address): Effect {
    if s.settings.token.None? then Refuse(s, NotInitialized)
    else if !s.IsGuardian(g) then Refuse(s, NotGuardian)
    else
      var paid := Payout(s, s.settings.token.value, g);
      if paid.None? then Abort(s)
      else Commit(s.(roster := s.roster.(flags := s.roster.flags[g := false]), escrow := paid.value))
  }

  function UnlockTokensEffect(s: State, g: Address): Effect {
    if s.settings.token.None? then Refuse(s, NotInitialized)
    else if s.IsGuardian(g) then Refuse(s, StillGuardian)
    else
      var paid := Payout(s, s.settings.token.value, g);
      if paid.None? then Abort(s) else Commit(s.(escrow := paid.value))
  }

  // ----- task lifecycle -----

  function FreshTask(id: u64): Task {
    Task(id, 0, false, 0, 0, false)
  }

  /** No id of the batch is registered yet, and none occurs twice in it. */
  predicate Unregistered(active: map<u64, Task>, archived: map<u64, Task>, ids: seq<u64>) {
    && (forall i | 0 <= i < |ids| :: ids[i] !in active && ids[i] !in archived)
    && (forall i, j | 0 <= i < j < |ids| :: ids[i] != ids[j])
  }

  /** A batch is registered as a whole or not at all. */
  function RegisterTasksEffect(s: State, ids: Vec<u64>): Effect {
    if |ids| > MAX_REGISTER_TASK_BATCH_SIZE then Refuse(s, BatchTooLarge)
    else if s.mutex then Refuse(s, Locked)
    else if !Unregistered(s.board.active, s.board.archived, ids) then Refuse(s, NotAuthorized)
    else if |s.board.allTasks| + |ids| > U32_MAX then Abort(s)
    else
      Commit(s.(board := s.board.(
        active := s.board.active + (map id | id in ids :: FreshTask(id)),
        allTasks := s.board.allTasks + ids)))
  }

  function RegisterTaskEffect(s: State, id: u64): Effect {
    if s.breaker.paused then Refuse(s, ContractPaused) else RegisterTasksEffect(s, [id])
  }

  /** `task::cancel_task`: the record is written back under the id it carries. */
  function MarkCancelledEffect(s: State, id: u64): Effect {
    if s.mutex then Refuse(s, Locked)
    else if id !in s.board.active then Refuse(s, NotAuthorized)
    else
      var t := s.board.active[id].(isCancelled := true);
      Commit(s.(board := s.board.(active := s.board.active[t.id := t])))
  }

  function CancelTaskEffect(s: State, id: u64): Effect {
    if s.breaker.paused then Refuse(s, ContractPaused) else MarkCancelledEffect(s, id)
  }

  /** The `archive_task` of src/storage.rs, which the entry point reaches with an active task. */
  function MoveToArchiveEffect(s: State, id: u64): Effect {
    if id in s.board.archived then Refuse(s, TaskAlreadyArchived)
    else if id !in s.board.active then Refuse(s, TaskNotFound)
    else
      var t := s.board.active[id];
      if !t.isDone || t.resolvedAt == 0 then Refuse(s, TaskNotVerified)
      else if s.clock <= t.resolvedAt + ARCHIVE_AFTER_SECONDS then Refuse(s, TaskNotStale)
      else
        Commit(s.(board := s.board.(
          active := s.board.active - {id},
          archived := s.board.archived[id := t])))
  }

  function ArchiveTaskEffect(s: State, id: u64): Effect {
    if s.breaker.paused then Refuse(s, ContractPaused)
    else if id !in s.board.active then Refuse(s, TaskNotFound)
    else MoveToArchiveEffect(s, id)
  }

  // ----- voting -----

  /** The outcome of the checks that come before the tally. */
  function VoterCheck(s: State, g: Address, id: u64): Outcome {
    if s.breaker.paused then Err(ContractPaused)
    else if s.mutex then Err(Locked)
    else if !s.IsGuardian(g) then Err(NotAuthorized)
    else if s.settings.token.None? then Err(NotInitialized)
    else if s.LockedBalance(g) <= s.LockThreshold() then Err(InsufficientLockedBalance)
    else if (id, g) in s.board.voted then Err(DuplicateVote)
    else if g !in s.reputation then Err(NoReputationScore)
    else Ok
  }

  /** The outcome of the tally itself: weight, task and counter checks. */
  function TallyCheck(s: State, g: Address, id: u64): Outcome
    requires g in s.reputation
  {
    if s.reputation[g] == 0 then Err(ZeroWeightVote)
    else if id !in s.board.active then Err(NotAuthorized)
    else if s.board.active[id].isCancelled then Err(TaskCancelled)
    else if s.board.active[id].accrued + s.reputation[g] > U64_MAX then Err(WeightOverflow)
    else if s.board.active[id].votes == U32_MAX then Trap
    else Ok
  }

  /** A record after one more vote of weight `w`, under a threshold in force at time `now`. */
  function Tallied(t: Task, w: u64, threshold: u64, now: u64): Task
    requires t.accrued + w <= U64_MAX && t.votes < U32_MAX
  {
    var meets := t.accrued + w >= threshold;
    t.(accrued := t.accrued + w,
       votes := t.votes + 1,
       isDone := t.isDone || meets,
       resolvedAt := if meets then now else t.resolvedAt)
  }

  /** The board once `g`'s vote on `id` is recorded and `t` is the task's record. */
  function WithVote(b: Board, g: Address, id: u64, t: Task): Board
    requires |b.allVotes| < U32_MAX
  {
    b.(active := b.active[id := t], voted := b.voted + {(id, g)}, allVotes := b.allVotes + [(id, g)])
  }

  /** The vote is admitted and counted, meets the threshold, and there is a vault to call. */
  predicate CallsVault(s: State, g: Address, id: u64) {
    && VoterCheck(s, g, id).Ok?
    && TallyCheck(s, g, id).Ok?
    && s.board.active[id].accrued + s.reputation[g] >= s.WeightThreshold()
    && s.settings.vault.Some?
  }

  function VoteEffect(s: State, g: Address, id: u64, vaultSucceeds: bool): Effect {
    var early := VoterCheck(s, g, id);
    if early != Ok then Effect(s, early)
    else
      var late := TallyCheck(s, g, id);
      if late != Ok then Effect(s, late)
      else
        var t := Tallied(s.board.active[id], s.reputation[g], s.WeightThreshold(), s.clock);
        if CallsVault(s, g, id) && !vaultSucceeds then Refuse(s, EscrowUnavailable)
        else if |s.board.allVotes| == U32_MAX then Abort(s)
        else Commit(s.(board := WithVote(s.board, g, id, t)))
  }

  // ----- reward streams -----

  function StartStreamEffect(s: State, drips: Address, contributor: Address, id: u64, dripsReturns: bool): Effect {
    if id !in s.board.active then Refuse(s, NotAuthorized)
    else if s.board.active[id].isCancelled then Refuse(s, TaskCancelled)
    else if !s.board.active[id].isDone then Refuse(s, TaskNotVerified)
    else if id in s.board.streams then Refuse(s, StreamAlreadyActive)
    else if !dripsReturns || |s.board.allStreams| == U32_MAX then Abort(s)
    else
      Commit(s.(board := s.board.(
        streams := s.board.streams[id := RewardStream(id, contributor, drips, true)],
        allStreams := s.board.allStreams + [id])))
  }

  // ----- one step -----

  function Perform(s: State, c: Call): Effect {
    match c
    case Initialize(token, lockThreshold) => InitializeEffect(s, token, lockThreshold)
    case TogglePause => Commit(SetPaused(s, !s.breaker.paused))
    case Pause => Commit(SetPaused(s, true))
    case Unpause => Commit(SetPaused(s, false))
    case AddGuardian(g) => AddGuardianEffect(s, g)
    case RemoveGuardian(g) => RemoveGuardianEffect(s, g)
    case LockTokens(g, amount) => LockTokensEffect(s, g, amount)
    case ResignGuardian(g) => ResignGuardianEffect(s, g)
    case UnlockTokens(g) => UnlockTokensEffect(s, g)
    case SetReputation(g, score) => SetReputationEffect(s, g, score)
    case SetWeightThreshold(threshold) => Commit(s.(settings := s.settings.(weightThreshold := Some(threshold))))
    case SetVaultAddress(v) => Commit(s.(settings := s.settings.(vault := Some(v))))
    case RegisterTask(id) => RegisterTaskEffect(s, id)
    case CancelTask(id) => CancelTaskEffect(s, id)
    case Vote(g, id, vault) => VoteEffect(s, g, id, vault.succeeds)
    case ArchiveTask(id) => ArchiveTaskEffect(s, id)
    case StartRewardStream(drips, contributor, id, dripsReturns) =>
      if s.breaker.paused then Refuse(s, ContractPaused)
      else StartStreamEffect(s, drips, contributor, id, dripsReturns)
    case RecordFailure => RecordFailureEffect(s)
    case ResetCircuitBreaker => Commit(ResetEffect(s))
  }

  /**
   One step of the ledger. Outside the contract, time never goes back, tokens are
   minted and paid by holders other than the contract, whose balance moves only
   when the contract itself asks for a transfer.
   */
  function Apply(s: State, step: Step): Effect {
    match step
    case Invoke(call) => Perform(s, call)
    case Tick(seconds) =>
      if s.clock + seconds > U64_MAX then Abort(s) else Commit(s.(clock := s.clock + seconds))
    case Mint(token, to, minted) =>
      if s.Balance(token, to) + minted > I128_MAX then Abort(s)
      else
        Commit(s.(escrow := s.escrow.(
          balances := s.escrow.balances[(token, to) := s.Balance(token, to) + minted])))
    case Pay(token, from, to, paid) =>
      if from == s.self then Abort(s)
      else
        var moved := Transfer(s.escrow.balances, token, from, to, paid);
        if moved.None? then Abort(s) else Commit(s.(escrow := s.escrow.(balances := moved.value)))
  }
}
