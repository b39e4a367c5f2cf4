/** The append-only indexes agree with the keyed storage, in every reachable state. */
module Indexes {
  import opened Types
  import opened Ledger
  import opened Contract
  import opened Frames
  import opened Runs

  /** `AllTasks` lists the active and the archived ids, each once; records sit under their own id. */
  ghost predicate TaskIndex(b: Board) {
    && NoDuplicates(b.allTasks)
    && b.active.Keys !! b.archived.Keys
    && (forall id :: id in b.allTasks <==> b.Registered(id))
    && (forall id | id in b.active :: b.active[id].id == id)
    && (forall id | id in b.archived :: b.archived[id].id == id)
  }

  /** `AllVotes` lists the `Voted` keys, each once, all on registered tasks. */
  ghost predicate VoteIndex(b: Board) {
    && NoDuplicates(b.allVotes)
    && (forall v :: v in b.allVotes <==> v in b.voted)
    && (forall v | v in b.voted :: b.Registered(v.0))
  }

  /** `AllRewardStreams` lists the stream keys, each once; each pays for a task that is done. */
  ghost predicate StreamIndex(b: Board) {
    && NoDuplicates(b.allStreams)
    && (forall id :: id in b.allStreams <==> id in b.streams)
    && (forall id | id in b.streams :: b.streams[id].taskId == id)
    && (forall id | id in b.streams :: b.Registered(id) && b.Record(id).isDone)
  }

  /** `AllGuardians` lists an address once for each removal of it, and once more while its key is stored. */
  ghost predicate GuardianIndex(w: World) {
    multiset(w.now.roster.listed) == w.past.removals + multiset(w.now.roster.flags.Keys)
  }

  ghost predicate BoardIndexed(b: Board) {
    TaskIndex(b) && VoteIndex(b) && StreamIndex(b)
  }

  ghost predicate Indexed(w: World) {
    && BoardIndexed(w.now.board)
    && GuardianIndex(w)
    && !w.now.mutex
  }

  // ----- one step -----

  lemma NoDuplicatesConcat<T>(a: seq<T>, b: seq<T>)
    requires NoDuplicates(a) && NoDuplicates(b)
    requires forall x | x in b :: x !in a
    ensures NoDuplicates(a + b)
  {
    forall i, j | 0 <= i < j < |a + b| ensures (a + b)[i] != (a + b)[j] {
      if i < |a| <= j {
        assert (a + b)[j] in b;
      }
    }
  }

  /** A batch of any size and content keeps the task index: it goes in whole or not at all. */
  lemma BatchKeepsTaskIndex(s: State, ids: Vec<u64>)
    requires TaskIndex(s.board)
    ensures TaskIndex(RegisterTasksEffect(s, ids).state.board)
    ensures RegisterTasksEffect(s, ids).outcome.Ok? ==>
              RegisterTasksEffect(s, ids).state.board.allTasks == s.board.allTasks + ids
    ensures RegisterTasksEffect(s, ids).outcome.Ok? ==>
              forall id :: id in RegisterTasksEffect(s, ids).state.board.active <==> id in s.board.active || id in ids
    ensures !RegisterTasksEffect(s, ids).outcome.Ok? ==> RegisterTasksEffect(s, ids).state == s
  {
    if RegisterTasksEffect(s, ids).outcome.Ok? {
      NoDuplicatesConcat(s.board.allTasks, ids);
    }
  }

  /** No id of a batch has been registered, and none repeats, exactly when the list stays free of duplicates. */
  lemma FreshIffUnregistered(b: Board, ids: seq<u64>)
    requires TaskIndex(b)
    ensures Unregistered(b.active, b.archived, ids) <==> NoDuplicates(b.allTasks + ids)
  {
    var listed := b.allTasks + ids;
    if Unregistered(b.active, b.archived, ids) {
      NoDuplicatesConcat(b.allTasks, ids);
    }
    if NoDuplicates(listed) {
      forall i | 0 <= i < |ids| ensures !b.Registered(ids[i]) {
        forall k | 0 <= k < |b.allTasks| ensures b.allTasks[k] != ids[i] {
          assert listed[k] != listed[|b.allTasks| + i];
        }
      }
      forall i, j | 0 <= i < j < |ids| ensures ids[i] != ids[j] {
        assert listed[|b.allTasks| + i] != listed[|b.allTasks| + j];
      }
    }
  }

  /** A batch goes in exactly when it is small, repeats no id and names no id ever listed before. */
  lemma BatchAccepted(s: State, ids: Vec<u64>)
    requires TaskIndex(s.board) && !s.mutex
    requires |s.board.allTasks| + |ids| <= U32_MAX
    ensures RegisterTasksEffect(s, ids).outcome.Ok? <==>
            |ids| <= 32 && NoDuplicates(s.board.allTasks + ids)
  {
    FreshIffUnregistered(s.board, ids);
  }

  lemma RegisterKeepsBoard(s: State, id: u64)
    requires BoardIndexed(s.board)
    ensures BoardIndexed(RegisterTaskEffect(s, id).state.board)
  {
    BatchKeepsTaskIndex(s, [id]);
  }

  lemma CancelKeepsBoard(s: State, id: u64)
    requires BoardIndexed(s.board)
    ensures BoardIndexed(CancelTaskEffect(s, id).state.board)
  {
  }

  lemma VoteKeepsBoard(s: State, g: Address, id: u64, vaultSucceeds: bool)
    requires BoardIndexed(s.board)
    ensures BoardIndexed(VoteEffect(s, g, id, vaultSucceeds).state.board)
  {
    if (id, g) !in s.board.voted {
      NoDuplicatesConcat(s.board.allVotes, [(id, g)]);
    }
  }

  lemma ArchiveKeepsBoard(s: State, id: u64)
    requires BoardIndexed(s.board)
    ensures BoardIndexed(ArchiveTaskEffect(s, id).state.board)
  {
  }

  lemma StartKeepsBoard(s: State, drips: Address, contributor: Address, id: u64, dripsReturns: bool)
    requires BoardIndexed(s.board)
    ensures BoardIndexed(StartStreamEffect(s, drips, contributor, id, dripsReturns).state.board)
  {
  }

  lemma StepKeepsBoard(s: State, step: Step)
    requires BoardIndexed(s.board)
    ensures BoardIndexed(Apply(s, step).state.board)
  {
    if !WritesBoard(step) {
      OthersKeepBoard(s, step);
    } else {
      match step.call
      case RegisterTask(id) => RegisterKeepsBoard(s, id);
      case CancelTask(id) => CancelKeepsBoard(s, id);
      case Vote(g, id, vault) => VoteKeepsBoard(s, g, id, vault.succeeds);
      case ArchiveTask(id) => ArchiveKeepsBoard(s, id);
      case StartRewardStream(drips, contributor, id, dripsReturns) =>
        StartKeepsBoard(s, drips, contributor, id, dripsReturns);
    }
  }

  lemma AddKeepsGuardianIndex(w: World, g: Address)
    requires GuardianIndex(w)
    ensures GuardianIndex(Next(w, Invoke(AddGuardian(g))))
  {
  }

  lemma RemoveKeepsGuardianIndex(w: World, g: Address)
    requires GuardianIndex(w)
    ensures GuardianIndex(Next(w, Invoke(RemoveGuardian(g))))
  {
  }

  lemma ResignKeepsGuardianIndex(w: World, g: Address)
    requires GuardianIndex(w)
    ensures GuardianIndex(Next(w, Invoke(ResignGuardian(g))))
  {
  }

  lemma OthersKeepGuardianIndex(w: World, step: Step)
    requires GuardianIndex(w) && !WritesRoster(step)
    ensures GuardianIndex(Next(w, step))
  {
    OthersKeepRoster(w.now, step);
  }

  lemma StepKeepsGuardianIndex(w: World, step: Step)
    requires GuardianIndex(w)
    ensures GuardianIndex(Next(w, step))
  {
    if !WritesRoster(step) {
      OthersKeepGuardianIndex(w, step);
    } else {
      match step.call
      case AddGuardian(g) => AddKeepsGuardianIndex(w, g);
      case RemoveGuardian(g) => RemoveKeepsGuardianIndex(w, g);
      case ResignGuardian(g) => ResignKeepsGuardianIndex(w, g);
    }
  }

  lemma StepFreesMutex(s: State, step: Step)
    requires !s.mutex
    ensures !Apply(s, step).state.mutex
  {
  }

  lemma StepKeepsIndexed(w: World, step: Step)
    requires Indexed(w)
    ensures Indexed(Next(w, step))
  {
    StepKeepsBoard(w.now, step);
    StepKeepsGuardianIndex(w, step);
    StepFreesMutex(w.now, step);
  }

  // ----- whole runs -----

  lemma {:induction false} RunKeepsIndexed(w: World, steps: seq<Step>)
    requires Indexed(w)
    ensures Indexed(Run(w, steps))
  {
    if steps != [] {
      RunKeepsIndexed(w, steps[..|steps| - 1]);
      StepKeepsIndexed(Run(w, steps[..|steps| - 1]), steps[|steps| - 1]);
    }
  }

  /** All four indexes agree with the keys, and the mutex is free, after every run from deployment. */
  lemma ReachableIndexed(self: Address, clock: u64, balances: Balances, steps: seq<Step>)
    ensures Indexed(Run(Genesis(self, clock, balances), steps))
  {
    RunKeepsIndexed(Genesis(self, clock, balances), steps);
  }
}
