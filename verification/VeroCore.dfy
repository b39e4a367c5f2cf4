/**
 The contract's entry points (src/lib.rs), each written in the order the contract executes it:
 storage is updated in place, and an exit with an error or a trap may leave
 writes behind. `Execute` is the host around them: it undoes such writes.
 */
module VeroCore {
  import opened Types
  import opened Ledger
  import opened Contract
  import opened Host
  import CircuitBreaker
  import Drips
  import Guardian
  import Reentrancy
  import Storage
  import Tasks

  method Initialize(env: Env, token: Address, lockThreshold: i128) returns (r: Outcome)
    modifies env`initialized, env`token, env`lockThreshold, env`paused
    ensures Effect(env.Abs(), r) == InitializeEffect(old(env.Abs()), token, lockThreshold)
  {
    if env.initialized {
      return Err(AlreadyInitialized);
    }
    env.initialized := true;
    env.token := Some(token);
    env.lockThreshold := Some(lockThreshold);
    env.paused := false;
    r := Ok;
  }

  method TogglePause(env: Env)
    modifies env`paused
    ensures env.Abs() == SetPaused(old(env.Abs()), !old(env.paused))
  {
    var current := env.paused;
    env.paused := !current;
  }

  method AddGuardian(env: Env, g: Address) returns (r: Outcome)
    modifies env`guardians, env`allGuardians
    ensures Effect(env.Abs(), r) == AddGuardianEffect(old(env.Abs()), g)
  {
    r := CircuitBreaker.RequireNotPaused(env);
    if r != Ok {
      return;
    }
    r := Guardian.Add(env, g);
  }

  method RemoveGuardian(env: Env, g: Address) returns (r: Outcome)
    modifies env`guardians
    ensures Effect(env.Abs(), r) == RemoveGuardianEffect(old(env.Abs()), g)
  {
    r := CircuitBreaker.RequireNotPaused(env);
    if r != Ok {
      return;
    }
    r := Guardian.Remove(env, g);
  }

  // ----- token escrow -----

  /** The transfer comes first; a trap in the addition after it leaves the tokens moved. */
  method LockTokens(env: Env, g: Address, amount: i128) returns (r: Outcome)
    modifies env`balances, env`locked
    ensures r == LockTokensEffect(old(env.Abs()), g, amount).outcome
    ensures !r.Trap? ==> env.Abs() == LockTokensEffect(old(env.Abs()), g, amount).state
  {
    if env.token.None? {
      return Err(NotInitialized);
    }
    var moved := env.TransferTokens(env.token.value, g, env.self, amount);
    if !moved {
      return Trap;
    }
    var current: i128 := if g in env.locked then env.locked[g] else 0;
    if current + amount > I128_MAX {
      return Trap;
    }
    env.locked := env.locked[g := current + amount];
    r := Ok;
  }

  /** The pay-out that `resign_guardian` and `unlock_tokens` share word for word. */
  method PayOut(env: Env, token: Address, g: Address) returns (paid: bool)
    modifies env`balances, env`locked
    ensures paid <==> Payout(old(env.Abs()), token, g).Some?
    ensures paid ==> env.Abs().escrow == Payout(old(env.Abs()), token, g).value
  {
    var lockedBalance: i128 := if g in env.locked then env.locked[g] else 0;
    if lockedBalance > 0 {
      var moved := env.TransferTokens(token, env.self, g, lockedBalance);
      if !moved {
        return false;
      }
      env.locked := env.locked[g := 0];
    }
    paid := true;
  }

  /** The guardian flag is cleared before the transfer, so a trap leaves it cleared. */
  method ResignGuardian(env: Env, g: Address) returns (r: Outcome)
    modifies env`guardians, env`balances, env`locked
    ensures r == ResignGuardianEffect(old(env.Abs()), g).outcome
    ensures !r.Trap? ==> env.Abs() == ResignGuardianEffect(old(env.Abs()), g).state
  {
    if env.token.None? {
      return Err(NotInitialized);
    }
    var isGuardian := Guardian.IsGuardian(env, g);
    if !isGuardian {
      return Err(NotGuardian);
    }
    env.guardians := env.guardians[g := false];
    var paid := PayOut(env, env.token.value, g);
    if !paid {
      return Trap;
    }
    r := Ok;
  }

  method UnlockTokens(env: Env, g: Address) returns (r: Outcome)
    modifies env`balances, env`locked
    ensures r == UnlockTokensEffect(old(env.Abs()), g).outcome
    ensures !r.Trap? ==> env.Abs() == UnlockTokensEffect(old(env.Abs()), g).state
  {
    if env.token.None? {
      return Err(NotInitialized);
    }
    var isGuardian := Guardian.IsGuardian(env, g);
    if isGuardian {
      return Err(StillGuardian);
    }
    var paid := PayOut(env, env.token.value, g);
    if !paid {
      return Trap;
    }
    r := Ok;
  }

  method SetReputation(env: Env, g: Address, score: u64) returns (r: Outcome)
    modifies env`reputation
    ensures Effect(env.Abs(), r) == SetReputationEffect(old(env.Abs()), g, score)
  {
    r := CircuitBreaker.RequireNotPaused(env);
    if r != Ok {
      return;
    }
    env.reputation := env.reputation[g := score];
  }

  // ----- task lifecycle -----

  method RegisterTask(env: Env, id: u64) returns (r: Outcome)
    modifies env`active, env`allTasks, env`lock
    ensures r == RegisterTaskEffect(old(env.Abs()), id).outcome
    ensures r.Ok? ==> env.Abs() == RegisterTaskEffect(old(env.Abs()), id).state
    ensures old(env.lock) ==> !r.Ok? && env.Abs() == old(env.Abs())
    ensures !old(env.lock) && !r.Trap? ==> !env.lock
  {
    r := CircuitBreaker.RequireNotPaused(env);
    if r != Ok {
      return;
    }
    r := Tasks.RegisterTasks(env, [id]);
  }

  method CancelTask(env: Env, id: u64) returns (r: Outcome)
    modifies env`active, env`lock
    ensures Effect(env.Abs(), r) == CancelTaskEffect(old(env.Abs()), id)
    ensures env.lock == old(env.lock)
  {
    r := CircuitBreaker.RequireNotPaused(env);
    if r != Ok {
      return;
    }
    r := Tasks.CancelTask(env, id);
  }

  method ArchiveTask(env: Env, id: u64) returns (r: Outcome)
    modifies env`active, env`archived
    ensures Effect(env.Abs(), r) == ArchiveTaskEffect(old(env.Abs()), id)
  {
    r := CircuitBreaker.RequireNotPaused(env);
    if r != Ok {
      return;
    }
    if id !in env.active {
      return Err(TaskNotFound);
    }
    r := Storage.ArchiveTask(env, id);
  }

  method StartRewardStream(env: Env, drips: Address, contributor: Address, id: u64, dripsReturns: bool)
    returns (r: Outcome)
    modifies env`streams, env`allStreams
    ensures Effect(env.Abs(), r) ==
            Perform(old(env.Abs()), Call.StartRewardStream(drips, contributor, id, dripsReturns))
  {
    r := CircuitBreaker.RequireNotPaused(env);
    if r != Ok {
      return;
    }
    r := Drips.StartDripsStream(env, drips, contributor, id, dripsReturns);
  }

  // ----- voting -----

  /**
   The checks of `vote` from the mutex to the reputation score. On a refusal the
   mutex has been given back, unless it was refused because someone else holds it.
   */
  method AdmitVoter(env: Env, g: Address, id: u64) returns (r: Outcome)
    modifies env`lock
    ensures r == VoterCheck(old(env.Abs()), g, id)
    ensures env.lock == (old(env.lock) || r.Ok?)
  {
    r := CircuitBreaker.RequireNotPaused(env);
    if r != Ok {
      return;
    }
    r := Reentrancy.AcquireLock(env);
    if r != Ok {
      return;
    }
    var isGuardian := Guardian.IsGuardian(env, g);
    if !isGuardian {
      Reentrancy.Unlock(env);
      return Err(NotAuthorized);
    }
    if env.token.None? {
      Reentrancy.Unlock(env);
      return Err(NotInitialized);
    }
    var threshold: i128 := if env.lockThreshold.Some? then env.lockThreshold.value else 0;
    var lockedBalance: i128 := if g in env.locked then env.locked[g] else 0;
    if lockedBalance <= threshold {
      Reentrancy.Unlock(env);
      return Err(InsufficientLockedBalance);
    }
    if (id, g) in env.voted {
      Reentrancy.Unlock(env);
      return Err(DuplicateVote);
    }
    if g !in env.reputation {
      Reentrancy.Unlock(env);
      return Err(NoReputationScore);
    }
    r := Ok;
  }

  /**
   The tally of `vote`, on the copy of the record it has read: nothing is written
   back yet. On a refusal the mutex has been given back.
   */
  method TallyVote(env: Env, g: Address, id: u64) returns (r: Outcome, t: Task)
    requires env.lock && g in env.reputation
    modifies env`lock
    ensures r == TallyCheck(old(env.Abs()), g, id)
    ensures r.Ok? ==> env.lock && t.id == env.active[id].id
    ensures r.Ok? ==> t == Tallied(env.active[id], env.reputation[g], env.Abs().WeightThreshold(), env.clock)
    ensures r.Err? ==> !env.lock
  {
    var weight := env.reputation[g];
    t := FreshTask(id);
    if weight == 0 {
      Reentrancy.Unlock(env);
      return Err(ZeroWeightVote), t;
    }
    if id !in env.active {
      Reentrancy.Unlock(env);
      return Err(NotAuthorized), t;
    }
    t := env.active[id];
    if t.isCancelled {
      Reentrancy.Unlock(env);
      return Err(TaskCancelled), t;
    }
    if t.accrued + weight > U64_MAX {
      Reentrancy.Unlock(env);
      return Err(WeightOverflow), t;
    }
    t := t.(accrued := t.accrued + weight);
    if t.votes == U32_MAX {
      return Trap, t;
    }
    t := t.(votes := t.votes + 1);
    var weightThreshold := if env.weightThreshold.Some? then env.weightThreshold.value else DEFAULT_WEIGHT_THRESHOLD;
    if t.accrued >= weightThreshold {
      t := t.(isDone := true);
      t := t.(resolvedAt := env.clock);
    }
    r := Ok;
  }

  /** The writes that end `vote`: the index, the vote key, the record, the mutex. */
  method RecordVote(env: Env, g: Address, id: u64, t: Task) returns (r: Outcome)
    modifies env`allVotes, env`voted, env`active, env`lock
    ensures r == if |old(env.allVotes)| == U32_MAX then Trap else Ok
    ensures r.Ok? ==> env.Abs() == old(env.Abs()).(mutex := false, board := WithVote(old(env.Abs()).board, g, id, t))
  {
    if |env.allVotes| == U32_MAX {
      return Trap;
    }
    env.allVotes := env.allVotes + [(id, g)];
    env.voted := env.voted + {(id, g)};
    env.active := env.active[id := t];
    Reentrancy.Unlock(env);
    r := Ok;
  }

  /**
   `vote`. The record is read before the vault is called and written back after,
   and the vault may call back into the contract in between; `answers` are the
   results of those calls. None of them gets past the mutex, so what is written
   back is the record as it was read plus exactly this vote.
   */
  method Vote(env: Env, g: Address, id: u64, vault: Vault) returns (r: Outcome, answers: seq<Outcome>)
    modifies env
    decreases vault, 3
    ensures r == VoteEffect(old(env.Abs()), g, id, vault.succeeds).outcome
    ensures r.Ok? ==> env.Abs() == VoteEffect(old(env.Abs()), g, id, vault.succeeds).state
    ensures |answers| == if CallsVault(old(env.Abs()), g, id) then |vault.calls| else 0
    ensures forall a | a in answers :: a == Err(Locked)
    ensures old(env.lock) ==> !r.Ok? && env.Abs() == old(env.Abs())
    ensures !old(env.lock) && !r.Trap? ==> !env.lock
  {
    answers := [];
    r := AdmitVoter(env, g, id);
    if r != Ok {
      return;
    }
    var t;
    r, t := TallyVote(env, g, id);
    if r != Ok {
      return;
    }
    r, answers := FinishVote(env, g, id, t, vault);
  }

  /** The end of `vote`: the vault call, if the tally resolves the task, and the writes. */
  method FinishVote(env: Env, g: Address, id: u64, t: Task, vault: Vault)
    returns (r: Outcome, answers: seq<Outcome>)
    requires env.lock && !env.paused
    modifies env
    decreases vault, 2
    ensures
      var s := old(env.Abs());
      var calls := t.accrued >= s.WeightThreshold() && s.settings.vault.Some?;
      && r == (if calls && !vault.succeeds then Err(EscrowUnavailable)
               else if |s.board.allVotes| == U32_MAX then Trap
               else Ok)
      && (r.Ok? ==> env.Abs() == s.(mutex := false, board := WithVote(s.board, g, id, t)))
      && |answers| == (if calls then |vault.calls| else 0)
    ensures forall a | a in answers :: a == Err(Locked)
    ensures !r.Trap? ==> !env.lock
  {
    answers := [];
    var weightThreshold := if env.weightThreshold.Some? then env.weightThreshold.value else DEFAULT_WEIGHT_THRESHOLD;
    if t.accrued >= weightThreshold && env.vaultAddress.Some? {
      answers := ReleaseFunds(env, vault);
      if !vault.succeeds {
        Reentrancy.Unlock(env);
        return Err(EscrowUnavailable), answers;
      }
    }
    r := RecordVote(env, g, id, t);
  }

  /** The vault's `release_funds`: it calls back into the contract as often as it likes. */
  method ReleaseFunds(env: Env, vault: Vault) returns (answers: seq<Outcome>)
    requires env.lock && !env.paused
    modifies env
    decreases vault, 1
    ensures env.Abs() == old(env.Abs())
    ensures |answers| == |vault.calls|
    ensures forall a | a in answers :: a == Err(Locked)
  {
    answers := [];
    for i := 0 to |vault.calls|
      invariant |answers| == i
      invariant env.Abs() == old(env.Abs())
      invariant forall a | a in answers :: a == Err(Locked)
    {
      var a := CallBack(env, vault.calls[i]);
      answers := answers + [a];
    }
  }

  method CallBack(env: Env, c: Callback) returns (r: Outcome)
    requires env.lock && !env.paused
    modifies env
    decreases c, 0
    ensures env.Abs() == old(env.Abs())
    ensures r == Err(Locked)
  {
    match c {
      case VoteAgain(voter, id, inner) =>
        var answers;
        r, answers := Vote(env, voter, id, inner);
      case RegisterAgain(id) =>
        r := RegisterTask(env, id);
      case CancelAgain(id) =>
        r := CancelTask(env, id);
    }
  }

  // ----- the host around an invocation -----

  method Pause(env: Env)
    modifies env`paused
    ensures env.Abs() == SetPaused(old(env.Abs()), true)
  {
    env.paused := true;
  }

  method Unpause(env: Env)
    modifies env`paused
    ensures env.Abs() == SetPaused(old(env.Abs()), false)
  {
    env.paused := false;
  }

  predicate IsControl(c: Call) {
    || c.Initialize? || c.TogglePause? || c.Pause? || c.Unpause?
    || c.SetWeightThreshold? || c.SetVaultAddress? || c.RecordFailure? || c.ResetCircuitBreaker?
  }

  method DispatchControl(env: Env, c: Call) returns (r: Outcome)
    requires IsControl(c)
    modifies env
    ensures Effect(env.Abs(), r) == Perform(old(env.Abs()), c)
  {
    r := Ok;
    match c {
      case Initialize(token, lockThreshold) => r := Initialize(env, token, lockThreshold);
      case TogglePause => TogglePause(env);
      case Pause => Pause(env);
      case Unpause => Unpause(env);
      case SetWeightThreshold(threshold) => env.weightThreshold := Some(threshold);
      case SetVaultAddress(v) => env.vaultAddress := Some(v);
      case RecordFailure => r := CircuitBreaker.Record(env);
      case ResetCircuitBreaker => CircuitBreaker.Reset(env);
    }
  }

  method Dispatch(env: Env, c: Call) returns (r: Outcome)
    modifies env
    ensures r == Perform(old(env.Abs()), c).outcome
    ensures r.Ok? ==> env.Abs() == Perform(old(env.Abs()), c).state
  {
    if IsControl(c) {
      r := DispatchControl(env, c);
      return;
    }
    match c {
      case AddGuardian(g) => r := AddGuardian(env, g);
      case RemoveGuardian(g) => r := RemoveGuardian(env, g);
      case LockTokens(g, amount) => r := LockTokens(env, g, amount);
      case ResignGuardian(g) => r := ResignGuardian(env, g);
      case UnlockTokens(g) => r := UnlockTokens(env, g);
      case SetReputation(g, score) => r := SetReputation(env, g, score);
      case RegisterTask(id) => r := RegisterTask(env, id);
      case CancelTask(id) => r := CancelTask(env, id);
      case Vote(g, id, vault) =>
        var answers;
        r, answers := Vote(env, g, id, vault);
      case ArchiveTask(id) => r := ArchiveTask(env, id);
      case StartRewardStream(drips, contributor, id, dripsReturns) =>
        r := StartRewardStream(env, drips, contributor, id, dripsReturns);
    }
  }

  /** One invocation: either it ends normally, or the host puts the state back. */
  method Execute(env: Env, c: Call) returns (r: Outcome)
    modifies env
    ensures Effect(env.Abs(), r) == Perform(old(env.Abs()), c)
  {
    var before := env.Abs();
    r := Dispatch(env, c);
    if r != Ok {
      env.Restore(before);
      RefusedPerform(before, c);
    }
  }

  /** An invocation that does not end normally has no effect. */
  lemma RefusedPerform(s: State, c: Call)
    ensures Perform(s, c).outcome != Ok ==> Perform(s, c).state == s
  {
  }
}
