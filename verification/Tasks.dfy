/** Active and archived task records, src/storage.rs. */
module Storage {
  import opened Types
  import opened Contract
  import opened Host

  /** Writes a record under its own id. */
  method SetActiveTask(env: Env, t: Task)
    modifies env`active
    ensures env.active == old(env.active)[t.id := t]
  {
    env.active := env.active[t.id := t];
  }

  /** Rust's `u64::saturating_sub`. */
  function SaturatingSub(a: u64, b: u64): (r: u64) {
    if a < b then 0 else a - b
  }

  method ArchiveTask(env: Env, id: u64) returns (r: Outcome)
    modifies env`active, env`archived
    ensures Effect(env.Abs(), r) == MoveToArchiveEffect(old(env.Abs()), id)
  {
    if id in env.archived {
      return Err(TaskAlreadyArchived);
    }
    if id !in env.active {
      return Err(TaskNotFound);
    }
    var t := env.active[id];
    if !t.isDone || t.resolvedAt == 0 {
      return Err(TaskNotVerified);
    }
    var age := SaturatingSub(env.clock, t.resolvedAt);
    if age <= ARCHIVE_AFTER_SECONDS {
      return Err(TaskNotStale);
    }
    env.archived := env.archived[id := t];
    env.active := env.active - {id};
    r := Ok;
  }
}

/** Registration and cancellation, src/task.rs. */
module Tasks {
  import opened Types
  import opened Contract
  import opened Host
  import Reentrancy
  import Storage

  /** The active tasks after the ids have been written. */
  ghost function Written(before: map<u64, Task>, ids: seq<u64>): map<u64, Task> {
    before + (map id | id in ids :: FreshTask(id))
  }

  lemma WrittenNext(before: map<u64, Task>, ids: seq<u64>, i: nat)
    requires i < |ids|
    ensures Written(before, ids[..i + 1]) == Written(before, ids[..i])[ids[i] := FreshTask(ids[i])]
  {
  }

  /** An id is taken if it was registered before the batch, or earlier in the batch. */
  lemma NextFits(before: map<u64, Task>, archived: map<u64, Task>, ids: seq<u64>, i: nat)
    requires i < |ids| && Unregistered(before, archived, ids[..i])
    ensures Unregistered(before, archived, ids[..i + 1]) <==>
            ids[i] !in Written(before, ids[..i]) && ids[i] !in archived
    ensures !Unregistered(before, archived, ids[..i + 1]) ==> !Unregistered(before, archived, ids)
  {
  }

  /**
   The batch loop. Writes each record as it goes and stops at the first id that is
   taken, which may come after others that were already written: an error leaves a
   partial batch behind for the host to roll back.
   */
  method WriteRecords(env: Env, ids: Vec<u64>) returns (all: bool)
    modifies env`active
    ensures all <==> Unregistered(old(env.active), env.archived, ids)
    ensures all ==> env.active == Written(old(env.active), ids)
  {
    ghost var before := env.active;
    for i := 0 to |ids|
      invariant env.active == Written(before, ids[..i])
      invariant Unregistered(before, env.archived, ids[..i])
    {
      NextFits(before, env.archived, ids, i);
      WrittenNext(before, ids, i);
      if ids[i] in env.active || ids[i] in env.archived {
        return false;
      }
      Storage.SetActiveTask(env, FreshTask(ids[i]));
    }
    assert ids[..|ids|] == ids;
    all := true;
  }

  /** Whoever took the mutex gives it back on every exit that is not a trap. */
  method RegisterTasks(env: Env, ids: Vec<u64>) returns (r: Outcome)
    modifies env`active, env`allTasks, env`lock
    ensures r == RegisterTasksEffect(old(env.Abs()), ids).outcome
    ensures r.Ok? ==> env.Abs() == RegisterTasksEffect(old(env.Abs()), ids).state
    ensures old(env.lock) ==> !r.Ok? && env.Abs() == old(env.Abs())
    ensures !old(env.lock) && !r.Trap? ==> !env.lock
  {
    if |ids| > MAX_REGISTER_TASK_BATCH_SIZE {
      return Err(BatchTooLarge);
    }
    r := Reentrancy.AcquireLock(env);
    if r != Ok {
      return;
    }
    var allTasks := env.allTasks;
    var all := WriteRecords(env, ids);
    if !all {
      Reentrancy.Unlock(env);
      return Err(NotAuthorized);
    }
    if |allTasks| + |ids| > U32_MAX {
      return Trap;
    }
    env.allTasks := allTasks + ids;
    Reentrancy.Unlock(env);
    r := Ok;
  }

  method CancelTask(env: Env, id: u64) returns (r: Outcome)
    modifies env`active, env`lock
    ensures Effect(env.Abs(), r) == MarkCancelledEffect(old(env.Abs()), id)
    ensures env.lock == old(env.lock)
  {
    r := Reentrancy.AcquireLock(env);
    if r != Ok {
      return;
    }
    if id !in env.active {
      Reentrancy.Unlock(env);
      return Err(NotAuthorized);
    }
    var t := env.active[id];
    t := t.(isCancelled := true);
    Storage.SetActiveTask(env, t);
    Reentrancy.Unlock(env);
    r := Ok;
  }
}

/** Reward streams, src/drips.rs. */
module Drips {
  import opened Types
  import opened Contract
  import opened Host

  method StartDripsStream(env: Env, drips: Address, contributor: Address, id: u64, dripsReturns: bool)
    returns (r: Outcome)
    modifies env`streams, env`allStreams
    ensures Effect(env.Abs(), r) == StartStreamEffect(old(env.Abs()), drips, contributor, id, dripsReturns)
  {
    if id !in env.active {
      return Err(NotAuthorized);
    }
    var t := env.active[id];
    if t.isCancelled {
      return Err(TaskCancelled);
    }
    if !t.isDone {
      return Err(TaskNotVerified);
    }
    if id in env.streams {
      return Err(StreamAlreadyActive);
    }
    if !dripsReturns {
      return Trap;
    }
    if |env.allStreams| == U32_MAX {
      return Trap;
    }
    env.allStreams := env.allStreams + [id];
    env.streams := env.streams[id := RewardStream(id, contributor, drips, true)];
    r := Ok;
  }
}
