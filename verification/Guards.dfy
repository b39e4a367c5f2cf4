/** The mutex of src/reentrancy.rs. */
module Reentrancy {
  import opened Types
  import opened Host

  method AcquireLock(env: Env) returns (r: Outcome)
    modifies env`lock
    ensures r == if old(env.lock) then Err(Locked) else Ok
    ensures env.lock
  {
    if env.lock {
      return Err(Locked);
    }
    env.lock := true;
    r := Ok;
  }

  method Unlock(env: Env)
    modifies env`lock
    ensures !env.lock
  {
    env.lock := false;
  }
}

/** The pause flag and the failure counter of src/circuit_breaker.rs. */
module CircuitBreaker {
  import opened Types
  import opened Contract
  import opened Host

  method RequireNotPaused(env: Env) returns (r: Outcome)
    ensures r == if env.paused then Err(ContractPaused) else Ok
  {
    if env.paused {
      return Err(ContractPaused);
    }
    r := Ok;
  }

  method Record(env: Env) returns (r: Outcome)
    modifies env`failureCount, env`paused
    ensures Effect(env.Abs(), r) == RecordFailureEffect(old(env.Abs()))
  {
    if env.failureCount == U32_MAX {
      return Trap;
    }
    var count: u32 := env.failureCount + 1;
    env.failureCount := count;
    if count > FAILURE_THRESHOLD && !env.paused {
      env.paused := true;
    }
    r := Ok;
  }

  method Reset(env: Env)
    modifies env`failureCount, env`paused
    ensures env.Abs() == ResetEffect(old(env.Abs()))
  {
    env.failureCount := 0;
    env.paused := false;
  }
}

/** The guardian registry of src/guardian.rs. */
module Guardian {
  import opened Types
  import opened Contract
  import opened Host

  method Add(env: Env, g: Address) returns (r: Outcome)
    modifies env`guardians, env`allGuardians
    ensures Effect(env.Abs(), r) == EnrolEffect(old(env.Abs()), g)
  {
    if g !in env.guardians {
      if |env.allGuardians| == U32_MAX {
        return Trap;
      }
      env.allGuardians := env.allGuardians + [g];
    }
    env.guardians := env.guardians[g := true];
    r := Ok;
  }

  method Remove(env: Env, g: Address) returns (r: Outcome)
    modifies env`guardians
    ensures Effect(env.Abs(), r) == StrikeEffect(old(env.Abs()), g)
  {
    if g !in env.guardians {
      return Trap;
    }
    env.guardians := env.guardians - {g};
    r := Ok;
  }

  method IsGuardian(env: Env, g: Address) returns (b: bool)
    ensures b == env.Abs().IsGuardian(g)
  {
    b := if g in env.guardians then env.guardians[g] else false;
  }
}
