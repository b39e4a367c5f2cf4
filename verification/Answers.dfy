/**
 What each call answers, error by error, in terms of what is stored and what was voted.
 A call answers one thing only, so every answer not named for it never occurs.
 */
module Answers {
  import opened Types
  import opened Ledger
  import opened Contract
  import opened Indexes
  import opened Accounting
  import opened Resolution
  import opened Runs
  import opened Snapshots
  import opened Traces

  function Answer(s: State, c: Call): Outcome {
    Apply(s, Invoke(c)).outcome
  }

  // ----- voting -----

  /** The voter may vote at all: a guardian with more at stake than the lock threshold. */
  predicate Staked(s: State, g: Address) {
    && !s.breaker.paused && !s.mutex
    && g in s.roster.flags && s.roster.flags[g]
    && s.settings.token.Some?
    && s.LockedBalance(g) > if s.settings.lockThreshold.Some? then s.settings.lockThreshold.value else 0
  }

  /** And has not voted on the task, and has a weight. */
  predicate Weighs(s: State, g: Address, id: u64) {
    Staked(s, g) && (id, g) !in s.board.voted && g in s.reputation && s.reputation[g] > 0
  }

  /** And the task is open and its weight stays within a u64. */
  predicate Counts(s: State, g: Address, id: u64) {
    && Weighs(s, g, id) && id in s.board.active && !s.board.active[id].isCancelled
    && s.board.active[id].accrued + s.reputation[g] <= 0xFFFF_FFFF_FFFF_FFFF
  }

  /** The vault is called and fails. */
  predicate VaultFails(s: State, g: Address, id: u64, vault: Vault) {
    && Counts(s, g, id) && s.board.active[id].votes < 0xFFFF_FFFF
    && s.board.active[id].accrued + s.reputation[g] >= s.WeightThreshold()
    && s.settings.vault.Some? && !vault.succeeds
  }

  /** The answers that turn on the voter. */
  ghost predicate VoterAnswers(s: State, g: Address, id: u64, r: Outcome) {
    var idle := !s.breaker.paused && !s.mutex;
    var guardian := g in s.roster.flags && s.roster.flags[g];
    && (r == Err(ContractPaused) <==> s.breaker.paused)
    && (r == Err(Locked) <==> !s.breaker.paused && s.mutex)
    && (r == Err(NotAuthorized) <==> (idle && !guardian) || (Weighs(s, g, id) && id !in s.board.active))
    && (r == Err(NotInitialized) <==> idle && guardian && s.settings.token.None?)
    && (r == Err(InsufficientLockedBalance) <==> idle && guardian && s.settings.token.Some? && !Staked(s, g))
    && (r == Err(DuplicateVote) <==> Staked(s, g) && (id, g) in s.board.voted)
    && (r == Err(NoReputationScore) <==> Staked(s, g) && (id, g) !in s.board.voted && g !in s.reputation)
    && (r == Err(ZeroWeightVote) <==>
        Staked(s, g) && (id, g) !in s.board.voted && g in s.reputation && s.reputation[g] == 0)
  }

  /** The answers that turn on the task, its counters and the vault. */
  ghost predicate TallyAnswers(s: State, g: Address, id: u64, vault: Vault, r: Outcome) {
    && (r == Err(TaskCancelled) <==> Weighs(s, g, id) && id in s.board.active && s.board.active[id].isCancelled)
    && (r == Err(WeightOverflow) <==>
        && Weighs(s, g, id) && id in s.board.active && !s.board.active[id].isCancelled
        && s.board.active[id].accrued + s.reputation[g] > 0xFFFF_FFFF_FFFF_FFFF)
    && (r == Err(EscrowUnavailable) <==> VaultFails(s, g, id, vault))
    && (r == Trap <==>
        && Counts(s, g, id) && !VaultFails(s, g, id, vault)
        && (s.board.active[id].votes == 0xFFFF_FFFF || |s.board.allVotes| == 0xFFFF_FFFF))
  }

  /** Whatever the state, also one in which the mutex is held. */
  lemma VoteAnswers(s: State, g: Address, id: u64, vault: Vault)
    ensures VoterAnswers(s, g, id, Answer(s, Call.Vote(g, id, vault)))
    ensures TallyAnswers(s, g, id, vault, Answer(s, Call.Vote(g, id, vault)))
  {
  }

  ghost predicate Logged(log: seq<Cast>, g: Address, id: u64) {
    exists i | 0 <= i < |log| :: log[i].task == id && log[i].guardian == g
  }

  /**
   The voter with a stake is told of a duplicate exactly when a vote of its own on the task
   is in the log, and of an overflow exactly when the weights of all votes on the task, and
   its own, add up to 2^64 or more. It never meets a held mutex.
   */
  ghost predicate VoteToldByLog(w: World, g: Address, id: u64, vault: Vault) {
    var s, log, r := w.now, w.past.log, Answer(w.now, Call.Vote(g, id, vault));
    && (r == Err(DuplicateVote) <==> Staked(s, g) && Logged(log, g, id))
    && (r == Err(NoReputationScore) <==> Staked(s, g) && !Logged(log, g, id) && g !in s.reputation)
    && (r == Err(WeightOverflow) <==>
        && Weighs(s, g, id) && id in s.board.active && !s.board.active[id].isCancelled
        && WeightOf(log, id) + s.reputation[g] >= 0x1_0000_0000_0000_0000)
    && r != Err(Locked)
  }

  /** In every reachable state. */
  lemma LoggedVoteAnswers(
      self: Address, clock: u64, balances: Balances, steps: seq<Step>, g: Address, id: u64, vault: Vault)
    ensures VoteToldByLog(Run(Genesis(self, clock, balances), steps), g, id, vault)
  {
    ReachableAccounted(self, clock, balances, steps);
    var w := Run(Genesis(self, clock, balances), steps);
    AccountedVoteAnswers(w, g, id, vault);
  }

  lemma AccountedVoteAnswers(w: World, g: Address, id: u64, vault: Vault)
    requires Accounted(w)
    ensures VoteToldByLog(w, g, id, vault)
  {
    VoteAnswers(w.now, g, id, vault);
    VotedIffLogged(w.now.board, w.past.log, g, id);
    assert id in w.now.board.active ==> AccountsFor(w.past.log, id, w.now.board.Record(id));
  }

  // ----- tasks -----

  /** `register_task` in any state with consistent indexes. */
  lemma RegisterAnswers(s: State, id: u64)
    requires TaskIndex(s.board)
    ensures
      var r := Answer(s, Call.RegisterTask(id));
      var idle := !s.breaker.paused && !s.mutex;
      && (r == Err(ContractPaused) <==> s.breaker.paused)
      && (r == Err(Locked) <==> !s.breaker.paused && s.mutex)
      && (r == Err(NotAuthorized) <==> idle && id in s.board.allTasks)
      && (r == Trap <==> idle && id !in s.board.allTasks && |s.board.allTasks| == 0xFFFF_FFFF)
      && (r == Ok <==> idle && id !in s.board.allTasks && |s.board.allTasks| < 0xFFFF_FFFF)
  {
    assert [id][0] == id;
  }

  /** A batch, whatever is paused: size first, then the mutex, then the ids, then the room. */
  lemma BatchAnswers(s: State, ids: Vec<u64>)
    requires TaskIndex(s.board)
    ensures
      var r := RegisterTasksEffect(s, ids).outcome;
      var unseen := NoDuplicates(s.board.allTasks + ids);
      && (r == Err(BatchTooLarge) <==> |ids| > 32)
      && (r == Err(Locked) <==> |ids| <= 32 && s.mutex)
      && (r == Err(NotAuthorized) <==> |ids| <= 32 && !s.mutex && !unseen)
      && (r == Trap <==> |ids| <= 32 && !s.mutex && unseen && |s.board.allTasks| + |ids| > 0xFFFF_FFFF)
  {
    FreshIffUnregistered(s.board, ids);
  }

  /** `cancel_task` takes any active task, resolved or cancelled before or not. */
  lemma CancelAnswers(s: State, id: u64)
    ensures
      var r := Answer(s, Call.CancelTask(id));
      var idle := !s.breaker.paused && !s.mutex;
      && (r == Err(ContractPaused) <==> s.breaker.paused)
      && (r == Err(Locked) <==> !s.breaker.paused && s.mutex)
      && (r == Err(NotAuthorized) <==> idle && id !in s.board.active)
      && (r == Ok <==> idle && id in s.board.active)
  {
  }

  /** The calls accepted so far that decide about a task: registered, and not archived since. */
  ghost predicate Open(g: World, steps: seq<Step>, id: u64) {
    Happened(g, steps, Call.RegisterTask(id)) && !Happened(g, steps, Call.ArchiveTask(id))
  }

  /**
   Over a whole run, in terms of the calls accepted before: an id can be registered once,
   and a task cancelled from then until it is archived, whatever its votes.
   */
  lemma TaskAnswers(self: Address, clock: u64, balances: Balances, steps: seq<Step>, id: u64)
    ensures
      var g := Genesis(self, clock, balances);
      var s := Run(g, steps).now;
      var registered := Happened(g, steps, Call.RegisterTask(id));
      && Answer(s, Call.RegisterTask(id)) ==
           (if s.breaker.paused then Err(ContractPaused)
            else if registered then Err(NotAuthorized)
            else if |s.board.allTasks| == 0xFFFF_FFFF then Trap else Ok)
      && Answer(s, Call.CancelTask(id)) ==
           (if s.breaker.paused then Err(ContractPaused)
            else if Open(g, steps, id) then Ok else Err(NotAuthorized))
  {
    ReachableIndexed(self, clock, balances, steps);
    TasksTold(self, clock, balances, steps, id);
    var s := Run(Genesis(self, clock, balances), steps).now;
    RegisterAnswers(s, id);
    CancelAnswers(s, id);
  }

  /** The task has a vote after time 0 that met the threshold. */
  ghost predicate ResolvedLate(log: seq<Cast>, id: u64) {
    exists k | 0 <= k < |log| :: MeetsFor(log, k, id) && log[k].Time() > 0
  }

  /** Some vote that met the threshold is not past the age for archiving. */
  ghost predicate MetRecently(log: seq<Cast>, id: u64, clock: u64) {
    exists k | 0 <= k < |log| :: MeetsFor(log, k, id) && clock - log[k].Time() <= 2_592_000
  }

  /** What `archive_task` answers, by the votes on the task. */
  ghost predicate ArchiveToldByLog(w: World, id: u64) {
    var s, log, r := w.now, w.past.log, Answer(w.now, Call.ArchiveTask(id));
    && (r == Err(ContractPaused) <==> s.breaker.paused)
    && (r == Err(TaskNotFound) <==> !s.breaker.paused && id !in s.board.active)
    && (r == Err(TaskNotVerified) <==> !s.breaker.paused && id in s.board.active && !ResolvedLate(log, id))
    && (r == Err(TaskNotStale) <==>
        && !s.breaker.paused && id in s.board.active && ResolvedLate(log, id) && MetRecently(log, id, s.clock))
    && !r.Trap?
  }

  /** In every reachable state. */
  lemma ArchiveAnswers(self: Address, clock: u64, balances: Balances, steps: seq<Step>, id: u64)
    ensures ArchiveToldByLog(Run(Genesis(self, clock, balances), steps), id)
  {
    ReachableAccounted(self, clock, balances, steps);
    AccountedArchiveAnswers(Run(Genesis(self, clock, balances), steps), id);
  }

  /** The move behind `archive_task`, in any state, consistent or not. */
  lemma MoveAnswers(s: State, id: u64)
    ensures
      var r := MoveToArchiveEffect(s, id).outcome;
      var found := id !in s.board.archived && id in s.board.active;
      var verified := found && s.board.active[id].isDone && s.board.active[id].resolvedAt > 0;
      && (r == Err(TaskAlreadyArchived) <==> id in s.board.archived)
      && (r == Err(TaskNotFound) <==> !s.board.Registered(id))
      && (r == Err(TaskNotVerified) <==> found && !verified)
      && (r == Err(TaskNotStale) <==> verified && s.clock - s.board.active[id].resolvedAt <= 2_592_000)
      && !r.Trap?
  {
  }

  lemma ArchiveAnswered(s: State, id: u64)
    requires TaskIndex(s.board)
    ensures
      var r := Answer(s, Call.ArchiveTask(id));
      && (r == Err(ContractPaused) <==> s.breaker.paused)
      && (r == Err(TaskNotFound) <==> !s.breaker.paused && id !in s.board.active)
      && (r == Err(TaskNotVerified) <==>
          && !s.breaker.paused && id in s.board.active
          && (!s.board.active[id].isDone || s.board.active[id].resolvedAt == 0))
      && (r == Err(TaskNotStale) <==>
          && !s.breaker.paused && id in s.board.active
          && s.board.active[id].isDone && s.board.active[id].resolvedAt != 0
          && s.clock - s.board.active[id].resolvedAt <= 2_592_000)
      && !r.Trap?
  {
  }

  /** No vote that met the threshold is later than the recorded time. */
  lemma ResolvedAtIsLatest(log: seq<Cast>, id: u64, clock: u64)
    requires Chronological(log, clock) && Resolved(log, id)
    ensures exists k | 0 <= k < |log| :: MeetsFor(log, k, id) && log[k].Time() == ResolvedAt(log, id)
    ensures forall k | 0 <= k < |log| && MeetsFor(log, k, id) :: log[k].Time() <= ResolvedAt(log, id)
  {
    var k := FindLastMeeting(log, id);
  }

  lemma TimesMet(log: seq<Cast>, id: u64, clock: u64)
    requires Chronological(log, clock)
    ensures ResolvedLate(log, id) <==> Resolved(log, id) && ResolvedAt(log, id) > 0
    ensures Resolved(log, id) ==> (MetRecently(log, id, clock) <==> clock - ResolvedAt(log, id) <= 2_592_000)
  {
    if Resolved(log, id) {
      ResolvedAtIsLatest(log, id, clock);
    }
  }

  lemma AccountedArchiveAnswers(w: World, id: u64)
    requires Accounted(w)
    ensures ArchiveToldByLog(w, id)
  {
    ArchiveAnswered(w.now, id);
    if id in w.now.board.active {
      assert AccountsFor(w.past.log, id, w.now.board.Record(id));
      TimesMet(w.past.log, id, w.now.clock);
    }
  }

  // ----- reward streams -----

  /** `start_reward_stream`, with resolution told by the votes. */
  lemma StreamAnswers(
      self: Address, clock: u64, balances: Balances, steps: seq<Step>,
      drips: Address, contributor: Address, id: u64, dripsReturns: bool)
    ensures
      var w := Run(Genesis(self, clock, balances), steps);
      var s, r := w.now, Answer(w.now, Call.StartRewardStream(drips, contributor, id, dripsReturns));
      var open := !s.breaker.paused && id in s.board.active && !s.board.active[id].isCancelled;
      && (r == Err(ContractPaused) <==> s.breaker.paused)
      && (r == Err(NotAuthorized) <==> !s.breaker.paused && id !in s.board.active)
      && (r == Err(TaskCancelled) <==>
          !s.breaker.paused && id in s.board.active && s.board.active[id].isCancelled)
      && (r == Err(TaskNotVerified) <==> open && !Resolved(w.past.log, id))
      && (r == Err(StreamAlreadyActive) <==> open && Resolved(w.past.log, id) && id in s.board.streams)
      && (r == Trap <==> open && Resolved(w.past.log, id) && id !in s.board.streams && !dripsReturns)
  {
    ReachableAccounted(self, clock, balances, steps);
    var w := Run(Genesis(self, clock, balances), steps);
    StreamAnswered(w.now, drips, contributor, id, dripsReturns);
    if id in w.now.board.active {
      assert AccountsFor(w.past.log, id, w.now.board.Record(id));
      if id !in w.now.board.streams {
        StreamsFewerThanTasks(w.now.board, id);
      }
    }
  }

  lemma StreamAnswered(s: State, drips: Address, contributor: Address, id: u64, dripsReturns: bool)
    ensures
      var r := Answer(s, Call.StartRewardStream(drips, contributor, id, dripsReturns));
      var open := !s.breaker.paused && id in s.board.active && !s.board.active[id].isCancelled;
      && (r == Err(ContractPaused) <==> s.breaker.paused)
      && (r == Err(NotAuthorized) <==> !s.breaker.paused && id !in s.board.active)
      && (r == Err(TaskCancelled) <==>
          !s.breaker.paused && id in s.board.active && s.board.active[id].isCancelled)
      && (r == Err(TaskNotVerified) <==> open && !s.board.active[id].isDone)
      && (r == Err(StreamAlreadyActive) <==> open && s.board.active[id].isDone && id in s.board.streams)
      && (r == Trap <==>
          && open && s.board.active[id].isDone && id !in s.board.streams
          && (!dripsReturns || |s.board.allStreams| == 0xFFFF_FFFF))
  {
  }

  // ----- guardians -----

  /** In a reachable state an address has its key stored exactly if it is listed more often than it was removed. */
  ghost predicate Keyed(w: World, g: Address) {
    multiset(w.now.roster.listed)[g] > w.past.removals[g]
  }

  /**
   `add_guardian`, `remove_guardian` and `set_reputation` in a reachable state. Anyone can be
   added back, after a removal or a resignation, and an addition makes a guardian.
   */
  lemma GuardianAnswers(self: Address, clock: u64, balances: Balances, steps: seq<Step>, g: Address, score: u64)
    ensures
      var w := Run(Genesis(self, clock, balances), steps);
      var s := w.now;
      && Answer(s, Call.AddGuardian(g)) ==
           (if s.breaker.paused then Err(ContractPaused)
            else if !Keyed(w, g) && |s.roster.listed| == 0xFFFF_FFFF then Trap else Ok)
      && (Answer(s, Call.AddGuardian(g)) == Ok ==> Apply(s, Invoke(Call.AddGuardian(g))).state.IsGuardian(g))
      && Answer(s, Call.RemoveGuardian(g)) ==
           (if s.breaker.paused then Err(ContractPaused) else if !Keyed(w, g) then Trap else Ok)
      && Answer(s, Call.SetReputation(g, score)) == (if s.breaker.paused then Err(ContractPaused) else Ok)
  {
    Controls.GuardiansCounted(self, clock, balances, steps, g);
    var s := Run(Genesis(self, clock, balances), steps).now;
    RosterAnswers(s, g);
    ScoreAnswers(s, g, score);
  }

  lemma RosterAnswers(s: State, g: Address)
    ensures
      var add, remove := Answer(s, Call.AddGuardian(g)), Answer(s, Call.RemoveGuardian(g));
      && (add == Err(ContractPaused) <==> s.breaker.paused)
      && (add == Ok <==> !s.breaker.paused && (g in s.roster.flags || |s.roster.listed| < 0xFFFF_FFFF))
      && (add.Ok? || add.Trap? || add == Err(ContractPaused))
      && (add == Ok ==> Apply(s, Invoke(Call.AddGuardian(g))).state.IsGuardian(g))
      && (remove == Err(ContractPaused) <==> s.breaker.paused)
      && (remove == Ok <==> !s.breaker.paused && g in s.roster.flags)
      && (remove.Ok? || remove.Trap? || remove == Err(ContractPaused))
  {
  }

  lemma ScoreAnswers(s: State, g: Address, score: u64)
    ensures Answer(s, Call.SetReputation(g, score)) == if s.breaker.paused then Err(ContractPaused) else Ok
  {
  }

  // ----- escrow -----

  /** The pay-out of `g` can be made: there is nothing to pay, or it is covered and `g` can hold it. */
  predicate CanPayOut(s: State, g: Address) {
    && s.settings.token.Some?
    && var deposit, token := s.LockedBalance(g), s.settings.token.value;
       deposit <= 0 || (deposit <= s.Balance(token, s.self)
                        && (g == s.self || s.Balance(token, g) + deposit <= I128_MAX))
  }

  /** The calls that move tokens, in any state, covered or not. */
  lemma EscrowAnswers(s: State, g: Address, amount: i128)
    ensures
      var lock := Answer(s, Call.LockTokens(g, amount));
      && (lock == Err(NotInitialized) <==> s.settings.token.None?)
      && (lock == Ok <==>
          && s.settings.token.Some?
          && 0 <= amount <= s.Balance(s.settings.token.value, g)
          && (g == s.self || s.Balance(s.settings.token.value, s.self) + amount <= I128_MAX)
          && s.LockedBalance(g) + amount <= I128_MAX)
      && (lock.Ok? || lock.Trap? || lock == Err(NotInitialized))
  {
  }

  lemma ExitAnswers(s: State, g: Address)
    ensures
      var resign, unlock := Answer(s, Call.ResignGuardian(g)), Answer(s, Call.UnlockTokens(g));
      var guardian := g in s.roster.flags && s.roster.flags[g];
      && (resign == Err(NotInitialized) <==> s.settings.token.None?)
      && (resign == Err(NotGuardian) <==> s.settings.token.Some? && !guardian)
      && (resign == Ok <==> guardian && CanPayOut(s, g))
      && (resign == Trap <==> s.settings.token.Some? && guardian && !CanPayOut(s, g))
      && (unlock == Err(NotInitialized) <==> s.settings.token.None?)
      && (unlock == Err(StillGuardian) <==> s.settings.token.Some? && guardian)
      && (unlock == Ok <==> !guardian && CanPayOut(s, g))
      && (unlock == Trap <==> s.settings.token.Some? && !guardian && !CanPayOut(s, g))
  {
  }

  // ----- settings and breaker -----

  /**
   Over a whole run: `initialize` is accepted once, a failure is reported unless 2^32 - 1
   have been since the last reset, and no other control is ever refused.
   */
  lemma ControlAnswers(self: Address, clock: u64, balances: Balances, steps: seq<Step>, c: Call)
    requires
      || c.Initialize? || c.TogglePause? || c.Pause? || c.Unpause? || c.SetWeightThreshold?
      || c.SetVaultAddress? || c.RecordFailure? || c.ResetCircuitBreaker?
    ensures
      Answer(Run(Genesis(self, clock, balances), steps).now, c) ==
      if c.Initialize? && FirstWhere(steps, Initialises).Some? then Err(AlreadyInitialized)
      else if c.RecordFailure? && Controls.FailuresSinceReset(steps) >= 0xFFFF_FFFF then Trap
      else Ok
  {
    SettingsTold(self, clock, balances, steps);
    Controls.FailuresCounted(self, clock, balances, steps);
    ControlAnswered(Run(Genesis(self, clock, balances), steps).now, c);
  }

  lemma ControlAnswered(s: State, c: Call)
    requires
      || c.Initialize? || c.TogglePause? || c.Pause? || c.Unpause? || c.SetWeightThreshold?
      || c.SetVaultAddress? || c.RecordFailure? || c.ResetCircuitBreaker?
    ensures
      Answer(s, c) ==
      if c.Initialize? && s.settings.initialized then Err(AlreadyInitialized)
      else if c.RecordFailure? && s.breaker.failures == 0xFFFF_FFFF then Trap
      else Ok
  {
  }

  // ----- the threshold in force -----

  /** The threshold last set, 300 as long as none is. */
  function ThresholdBy(steps: seq<Step>): nat {
    var last := LastWhere(steps, SetsThreshold);
    if last.Some? then last.value.call.threshold else 300
  }

  lemma ThresholdTold(self: Address, clock: u64, balances: Balances, steps: seq<Step>)
    ensures Run(Genesis(self, clock, balances), steps).now.WeightThreshold() == ThresholdBy(steps)
  {
    SettingsTold(self, clock, balances, steps);
  }

  /** What every page of a snapshot says beside its lists, by the calls made: nothing else decides it. */
  lemma HeaderTold(self: Address, clock: u64, balances: Balances, steps: seq<Step>, offset: u32, limit: u32)
    ensures
      var p := SnapshotAt(Run(Genesis(self, clock, balances), steps).now, offset, limit);
      var vault := LastWhere(steps, SetsVault);
      && (exists k | 0 <= k <= |steps| :: SettledAt(steps, k) && (p.paused <==> PausedSince(steps, k)))
      && p.failureCount == Min(Controls.FailuresSinceReset(steps), 0xFFFF_FFFF)
      && p.weightThreshold == ThresholdBy(steps)
      && p.vaultAddress == (if vault.Some? then Some(vault.value.call.vaultAddress) else None)
      && p.admin.None? && p.dripsAddress.None?
  {
    PauseTold(self, clock, balances, steps);
    Controls.FailuresCounted(self, clock, balances, steps);
    ThresholdTold(self, clock, balances, steps);
    SettingsTold(self, clock, balances, steps);
  }

  /** `c` was cast in the run's k-th step, in the state the run was in before it. */
  ghost predicate CastAt(g: World, steps: seq<Step>, k: int, c: Cast) {
    && 0 <= k < |steps| && IsVote(steps[k])
    && steps[k].call.taskId == c.task && steps[k].call.guardian == c.guardian
    && c.before == Run(g, steps[..k]).now
  }

  lemma CastAtLater(g: World, steps: seq<Step>, k: int, c: Cast)
    requires steps != [] && CastAt(g, steps[..|steps| - 1], k, c)
    ensures CastAt(g, steps, k, c)
  {
    assert steps[..|steps| - 1][..k] == steps[..k];
  }

  /** Every vote in the log is one the run made, in the state it was made in. */
  lemma {:induction false} FindCast(g: World, steps: seq<Step>, i: nat) returns (k: nat)
    requires g.past.log == [] && i < |Run(g, steps).past.log|
    ensures CastAt(g, steps, k, Run(g, steps).past.log[i])
  {
    var n := |steps| - 1;
    var log := Run(g, steps[..n]).past.log;
    if i < |log| {
      k := FindCast(g, steps[..n], i);
      CastAtLater(g, steps, k, log[i]);
    } else {
      k := n;
    }
  }

  /** So each vote was measured against the threshold last set before it, or 300. */
  lemma VotedUnderThreshold(self: Address, clock: u64, balances: Balances, steps: seq<Step>, i: nat) returns (k: nat)
    requires i < |Run(Genesis(self, clock, balances), steps).past.log|
    ensures CastAt(Genesis(self, clock, balances), steps, k, Run(Genesis(self, clock, balances), steps).past.log[i])
    ensures Run(Genesis(self, clock, balances), steps).past.log[i].Threshold() == ThresholdBy(steps[..k])
  {
    k := FindCast(Genesis(self, clock, balances), steps, i);
    ThresholdTold(self, clock, balances, steps[..k]);
  }

  lemma {:induction false} NeverSet(steps: seq<Step>)
    requires forall j | 0 <= j < |steps| :: !SetsThreshold(steps[j])
    ensures ThresholdBy(steps) == 300
  {
    if steps != [] {
      NeverSet(steps[..|steps| - 1]);
    }
  }

  /** In a run that sets no threshold a task is done exactly when its votes weigh 300 or more. */
  lemma ResolvedByDefault(self: Address, clock: u64, balances: Balances, steps: seq<Step>, id: u64)
    requires forall j | 0 <= j < |steps| :: !SetsThreshold(steps[j])
    requires Run(Genesis(self, clock, balances), steps).now.board.Registered(id)
    ensures
      var w := Run(Genesis(self, clock, balances), steps);
      w.now.board.Record(id).isDone <==> WeightOf(w.past.log, id) >= 300
  {
    var w := Run(Genesis(self, clock, balances), steps);
    forall i | 0 <= i < |w.past.log| ensures w.past.log[i].Threshold() == 300 {
      var k := VotedUnderThreshold(self, clock, balances, steps, i);
      NeverSet(steps[..k]);
    }
    ReachableAccounted(self, clock, balances, steps);
    FixedThresholdTally(w, id, 300);
    NoWeightWithoutVotes(w.past.log, id);
    assert AccountsFor(w.past.log, id, w.now.board.Record(id));
  }

  lemma {:induction false} NoWeightWithoutVotes(log: seq<Cast>, id: u64)
    ensures WeightOf(log, id) > 0 ==> CountOf(log, id) > 0
  {
    if log != [] {
      NoWeightWithoutVotes(log[..|log| - 1], id);
    }
  }
}
