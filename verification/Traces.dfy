/** The stored state is what the calls accepted so far say it is, read off the run alone. */
module Traces {
  import opened Types
  import opened Ledger
  import opened Contract
  import opened Frames
  import opened Indexes
  import opened Runs
  import Controls

  /** The call was made and accepted at some point of the run. */
  predicate Happened(w: World, steps: seq<Step>, c: Call) {
    steps != [] &&
    (Happened(w, steps[..|steps| - 1], c) || Accepted(Run(w, steps[..|steps| - 1]).now, steps[|steps| - 1], c))
  }

  predicate Accepted(s: State, step: Step, c: Call) {
    step == Invoke(c) && Apply(s, step).outcome.Ok?
  }

  // ----- tasks -----

  /** How one step changes what the board says about a task. */
  ghost predicate TaskMoves(s: State, step: Step, id: u64) {
    var b := Apply(s, step).state.board;
    && (b.Registered(id) <==> s.board.Registered(id) || Accepted(s, step, RegisterTask(id)))
    && (id in b.archived <==> id in s.board.archived || Accepted(s, step, ArchiveTask(id)))
    && (b.Registered(id) ==>
          (b.Record(id).isCancelled <==>
           (s.board.Registered(id) && s.board.Record(id).isCancelled) || Accepted(s, step, CancelTask(id))))
  }

  lemma RegisterMoves(s: State, called: u64, id: u64)
    requires TaskIndex(s.board)
    ensures TaskMoves(s, Invoke(RegisterTask(called)), id)
  {
    assert [called][0] == called;
  }

  lemma CancelMoves(s: State, called: u64, id: u64)
    requires TaskIndex(s.board)
    ensures TaskMoves(s, Invoke(CancelTask(called)), id)
  {
  }

  lemma VoteMoves(s: State, g: Address, called: u64, vault: Vault, id: u64)
    requires TaskIndex(s.board)
    ensures TaskMoves(s, Invoke(Vote(g, called, vault)), id)
  {
  }

  lemma ArchiveMoves(s: State, called: u64, id: u64)
    requires TaskIndex(s.board)
    ensures TaskMoves(s, Invoke(ArchiveTask(called)), id)
  {
  }

  lemma OtherMoves(s: State, step: Step, id: u64)
    requires TaskIndex(s.board)
    requires !WritesBoard(step) || (step.Invoke? && step.call.StartRewardStream?)
    ensures TaskMoves(s, step, id)
  {
    if !WritesBoard(step) {
      OthersKeepBoard(s, step);
    }
  }

  lemma StepMoves(s: State, step: Step, id: u64)
    requires TaskIndex(s.board)
    ensures TaskMoves(s, step, id)
  {
    if !WritesBoard(step) {
      OtherMoves(s, step, id);
    } else {
      match step.call
      case RegisterTask(called) => RegisterMoves(s, called, id);
      case CancelTask(called) => CancelMoves(s, called, id);
      case Vote(g, called, vault) => VoteMoves(s, g, called, vault, id);
      case ArchiveTask(called) => ArchiveMoves(s, called, id);
      case _ => OtherMoves(s, step, id);
    }
  }

  ghost predicate TaskTold(g: World, steps: seq<Step>, id: u64) {
    var b := Run(g, steps).now.board;
    && (b.Registered(id) <==> Happened(g, steps, RegisterTask(id)))
    && (id in b.archived <==> Happened(g, steps, ArchiveTask(id)))
    && (b.Registered(id) ==> (b.Record(id).isCancelled <==> Happened(g, steps, CancelTask(id))))
    && (!b.Registered(id) ==> !Happened(g, steps, CancelTask(id)))
  }

  lemma StepTells(g: World, steps: seq<Step>, id: u64)
    requires steps != [] && TaskTold(g, steps[..|steps| - 1], id)
    requires TaskMoves(Run(g, steps[..|steps| - 1]).now, steps[|steps| - 1], id)
    requires Accepted(Run(g, steps[..|steps| - 1]).now, steps[|steps| - 1], CancelTask(id)) ==>
               Run(g, steps[..|steps| - 1]).now.board.Registered(id)
    ensures TaskTold(g, steps, id)
  {
  }

  lemma CancelNeedsTask(s: State, step: Step, id: u64)
    ensures Accepted(s, step, CancelTask(id)) ==> s.board.Registered(id)
  {
  }

  /**
   A task is registered, archived, or cancelled exactly when a call to that effect was
   accepted at some point of the run.
   */
  lemma {:induction false} TasksTold(self: Address, clock: u64, balances: Balances, steps: seq<Step>, id: u64)
    ensures TaskTold(Genesis(self, clock, balances), steps, id)
  {
    var g := Genesis(self, clock, balances);
    if steps != [] {
      var n := |steps| - 1;
      TasksTold(self, clock, balances, steps[..n], id);
      ReachableIndexed(self, clock, balances, steps[..n]);
      StepMoves(Run(g, steps[..n]).now, steps[n], id);
      CancelNeedsTask(Run(g, steps[..n]).now, steps[n], id);
      StepTells(g, steps, id);
    }
  }

  lemma CancelledRefusesVotes(s: State, g: Address, called: u64, vault: Vault, id: u64)
    requires s.board.Registered(id) && s.board.Record(id).isCancelled
    ensures Apply(s, Invoke(Vote(g, called, vault))).state.board.Registered(id)
    ensures Apply(s, Invoke(Vote(g, called, vault))).state.board.Record(id) == s.board.Record(id)
  {
  }

  lemma CancelledStep(s: State, step: Step, id: u64)
    requires TaskIndex(s.board) && s.board.Registered(id) && s.board.Record(id).isCancelled
    ensures Apply(s, step).state.board.Registered(id)
    ensures Apply(s, step).state.board.Record(id) == s.board.Record(id)
  {
    if !WritesBoard(step) {
      OthersKeepBoard(s, step);
    } else if step.call.Vote? {
      CancelledRefusesVotes(s, step.call.guardian, step.call.taskId, step.call.vault, id);
    }
  }

  /** A cancelled task's record stands still for good: no vote counts on it any more. */
  lemma {:induction false} CancelledStandsStill(w: World, steps: seq<Step>, id: u64)
    requires Indexed(w) && w.now.board.Registered(id) && w.now.board.Record(id).isCancelled
    ensures Run(w, steps).now.board.Registered(id)
    ensures Run(w, steps).now.board.Record(id) == w.now.board.Record(id)
  {
    if steps != [] {
      var n := |steps| - 1;
      CancelledStandsStill(w, steps[..n], id);
      RunKeepsIndexed(w, steps[..n]);
      CancelledStep(Run(w, steps[..n]).now, steps[n], id);
    }
  }

  // ----- reward streams -----

  predicate Pays(b: Board, id: u64, drips: Address, contributor: Address) {
    id in b.streams && b.streams[id] == RewardStream(id, contributor, drips, true)
  }

  lemma PaysMoves(s: State, step: Step, id: u64, drips: Address, contributor: Address)
    ensures Pays(Apply(s, step).state.board, id, drips, contributor) <==>
            || Pays(s.board, id, drips, contributor)
            || Accepted(s, step, Call.StartRewardStream(drips, contributor, id, true))
  {
    if !WritesBoard(step) {
      OthersKeepBoard(s, step);
    }
  }

  /** A stream to a contributor is on record exactly when it was once started, and then for good. */
  lemma {:induction false} StreamsTold(
      self: Address, clock: u64, balances: Balances, steps: seq<Step>, id: u64, drips: Address, contributor: Address)
    ensures Pays(Run(Genesis(self, clock, balances), steps).now.board, id, drips, contributor) <==>
            Happened(Genesis(self, clock, balances), steps, Call.StartRewardStream(drips, contributor, id, true))
  {
    if steps != [] {
      var n := |steps| - 1;
      StreamsTold(self, clock, balances, steps[..n], id, drips, contributor);
      PaysMoves(Run(Genesis(self, clock, balances), steps[..n]).now, steps[n], id, drips, contributor);
    }
  }

  // ----- guardians and reputations -----

  /** Whether the last accepted call about `a` made it a guardian. */
  predicate LastAdded(w: World, steps: seq<Step>, a: Address) {
    steps != [] &&
    var before := Run(w, steps[..|steps| - 1]).now;
    var step := steps[|steps| - 1];
    if Accepted(before, step, AddGuardian(a)) then true
    else if Accepted(before, step, RemoveGuardian(a)) || Accepted(before, step, ResignGuardian(a)) then false
    else LastAdded(w, steps[..|steps| - 1], a)
  }

  lemma StandingMoves(s: State, step: Step, a: Address)
    ensures Apply(s, step).state.IsGuardian(a) <==>
            Accepted(s, step, AddGuardian(a)) ||
            (s.IsGuardian(a) && !Accepted(s, step, RemoveGuardian(a)) && !Accepted(s, step, ResignGuardian(a)))
  {
    if !WritesRoster(step) {
      OthersKeepRoster(s, step);
    }
  }

  /** An address is a guardian exactly when the last accepted call about it was its addition. */
  lemma {:induction false} GuardiansTold(self: Address, clock: u64, balances: Balances, steps: seq<Step>, a: Address)
    ensures Run(Genesis(self, clock, balances), steps).now.IsGuardian(a) <==>
            LastAdded(Genesis(self, clock, balances), steps, a)
  {
    if steps != [] {
      GuardiansTold(self, clock, balances, steps[..|steps| - 1], a);
      StandingMoves(Run(Genesis(self, clock, balances), steps[..|steps| - 1]).now, steps[|steps| - 1], a);
    }
  }

  /** The score last given to `a` by an accepted call, if any. */
  function LastScore(w: World, steps: seq<Step>, a: Address): Option<u64> {
    if steps == [] then None
    else
      var step := steps[|steps| - 1];
      if && step.Invoke? && step.call.SetReputation? && step.call.guardian == a
         && Apply(Run(w, steps[..|steps| - 1]).now, step).outcome.Ok?
      then Some(step.call.score)
      else LastScore(w, steps[..|steps| - 1], a)
  }

  function Score(s: State, a: Address): Option<u64> {
    if a in s.reputation then Some(s.reputation[a]) else None
  }

  lemma ScoreMoves(s: State, step: Step, a: Address)
    ensures Score(Apply(s, step).state, a) ==
            if step.Invoke? && step.call.SetReputation? && step.call.guardian == a && Apply(s, step).outcome.Ok?
            then Some(step.call.score) else Score(s, a)
  {
  }

  /** Everybody's reputation is the score last set for them; nobody else's score, no earlier one. */
  lemma {:induction false} ReputationsTold(self: Address, clock: u64, balances: Balances, steps: seq<Step>, a: Address)
    ensures Score(Run(Genesis(self, clock, balances), steps).now, a) ==
            LastScore(Genesis(self, clock, balances), steps, a)
  {
    if steps != [] {
      ReputationsTold(self, clock, balances, steps[..|steps| - 1], a);
      ScoreMoves(Run(Genesis(self, clock, balances), steps[..|steps| - 1]).now, steps[|steps| - 1], a);
    }
  }

  // ----- time -----

  /** The seconds that have passed, as far as the ledger's clock could count them. */
  function Elapsed(w: World, steps: seq<Step>): nat {
    if steps == [] then 0
    else
      var step := steps[|steps| - 1];
      var before := Run(w, steps[..|steps| - 1]).now;
      Elapsed(w, steps[..|steps| - 1])
      + if step.Tick? && before.clock + step.seconds <= 0xFFFF_FFFF_FFFF_FFFF then step.seconds else 0
  }

  lemma ClockMoves(s: State, step: Step)
    ensures Apply(s, step).state.clock ==
            s.clock + if step.Tick? && s.clock + step.seconds <= 0xFFFF_FFFF_FFFF_FFFF then step.seconds else 0
  {
  }

  /** Time passes between invocations and never within one. */
  lemma {:induction false} ClockTold(self: Address, clock: u64, balances: Balances, steps: seq<Step>)
    ensures Run(Genesis(self, clock, balances), steps).now.clock ==
            clock + Elapsed(Genesis(self, clock, balances), steps)
  {
    if steps != [] {
      ClockTold(self, clock, balances, steps[..|steps| - 1]);
      ClockMoves(Run(Genesis(self, clock, balances), steps[..|steps| - 1]).now, steps[|steps| - 1]);
    }
  }

  // ----- deposits -----

  /** What `g` has locked in accepted calls since the last accepted call that paid it out. */
  function LockedSinceExit(w: World, steps: seq<Step>, g: Address): int {
    if steps == [] then 0
    else
      var before := Run(w, steps[..|steps| - 1]).now;
      var step := steps[|steps| - 1];
      if Accepted(before, step, ResignGuardian(g)) || Accepted(before, step, UnlockTokens(g)) then 0
      else LockedSinceExit(w, steps[..|steps| - 1], g) + Deposit(before, step, g)
  }

  function Deposit(s: State, step: Step, g: Address): int {
    if && step.Invoke? && step.call.LockTokens? && step.call.guardian == g
       && Apply(s, step).outcome.Ok?
    then step.call.amount else 0
  }

  /** How one step changes the deposit of `g`. */
  ghost predicate DepositMoved(s: State, step: Step, g: Address) {
    && Deposit(s, step, g) >= 0
    && Apply(s, step).state.LockedBalance(g) ==
       if Accepted(s, step, ResignGuardian(g)) || Accepted(s, step, UnlockTokens(g)) then 0
       else s.LockedBalance(g) + Deposit(s, step, g)
  }

  lemma LockMoves(s: State, called: Address, amount: i128, g: Address)
    requires s.LockedBalance(g) >= 0
    ensures DepositMoved(s, Invoke(LockTokens(called, amount)), g)
  {
  }

  lemma ExitMoves(s: State, called: Address, g: Address)
    requires s.LockedBalance(g) >= 0
    ensures DepositMoved(s, Invoke(ResignGuardian(called)), g)
    ensures DepositMoved(s, Invoke(UnlockTokens(called)), g)
  {
  }

  lemma DepositMoves(s: State, step: Step, g: Address)
    requires s.LockedBalance(g) >= 0
    ensures DepositMoved(s, step, g)
  {
    if !WritesEscrow(step) {
      OthersKeepEscrow(s, step);
    } else if step.Invoke? {
      match step.call
      case LockTokens(called, amount) => LockMoves(s, called, amount, g);
      case ResignGuardian(called) => ExitMoves(s, called, g);
      case UnlockTokens(called) => ExitMoves(s, called, g);
    }
  }

  /** Everybody's locked balance is the sum of what they locked since they last left, and never negative. */
  lemma {:induction false} DepositsTold(self: Address, clock: u64, balances: Balances, steps: seq<Step>, g: Address)
    ensures Run(Genesis(self, clock, balances), steps).now.LockedBalance(g) ==
            LockedSinceExit(Genesis(self, clock, balances), steps, g) >= 0
  {
    if steps != [] {
      var n := |steps| - 1;
      DepositsTold(self, clock, balances, steps[..n], g);
      DepositMoves(Run(Genesis(self, clock, balances), steps[..n]).now, steps[n], g);
    }
  }

  // ----- settings -----

  predicate Initialises(step: Step) {
    step.Invoke? && step.call.Initialize?
  }

  predicate SetsThreshold(step: Step) {
    step.Invoke? && step.call.SetWeightThreshold?
  }

  predicate SetsVault(step: Step) {
    step.Invoke? && step.call.SetVaultAddress?
  }

  function FirstWhere(steps: seq<Step>, p: Step -> bool): (r: Option<Step>)
    ensures r.Some? ==> p(r.value)
  {
    if steps == [] then None
    else if p(steps[0]) then Some(steps[0])
    else FirstWhere(steps[1..], p)
  }

  function LastWhere(steps: seq<Step>, p: Step -> bool): (r: Option<Step>)
    ensures r.Some? ==> p(r.value)
  {
    if steps == [] then None
    else if p(steps[|steps| - 1]) then Some(steps[|steps| - 1])
    else LastWhere(steps[..|steps| - 1], p)
  }

  lemma {:induction false} FirstAppended(steps: seq<Step>, step: Step, p: Step -> bool)
    ensures FirstWhere(steps + [step], p) ==
            if FirstWhere(steps, p).Some? then FirstWhere(steps, p)
            else if p(step) then Some(step) else None
  {
    if steps != [] {
      FirstAppended(steps[1..], step, p);
      assert (steps + [step])[1..] == steps[1..] + [step];
    }
  }

  /**
   Token and lock threshold are those of the first `initialize` of the run, if there is one,
   weight threshold and vault those of the last call that set them.
   */
  ghost predicate SetBy(now: Settings, steps: seq<Step>) {
    var first := FirstWhere(steps, Initialises);
    var threshold := LastWhere(steps, SetsThreshold);
    var vault := LastWhere(steps, SetsVault);
    && now.initialized == first.Some?
    && now.token == (if first.Some? then Some(first.value.call.token) else None)
    && now.lockThreshold == (if first.Some? then Some(first.value.call.lockThreshold) else None)
    && now.weightThreshold == (if threshold.Some? then Some(threshold.value.call.threshold) else None)
    && now.vault == (if vault.Some? then Some(vault.value.call.vaultAddress) else None)
  }

  lemma InitialisationMoves(s: State, step: Step)
    ensures
      var t := Apply(s, step).state.settings;
      var first := Initialises(step) && !s.settings.initialized;
      && t.initialized == (s.settings.initialized || first)
      && t.token == (if first then Some(step.call.token) else s.settings.token)
      && t.lockThreshold == (if first then Some(step.call.lockThreshold) else s.settings.lockThreshold)
  {
  }

  lemma ThresholdMoves(s: State, step: Step)
    ensures Apply(s, step).state.settings.weightThreshold ==
            if SetsThreshold(step) then Some(step.call.threshold) else s.settings.weightThreshold
  {
  }

  lemma VaultMoves(s: State, step: Step)
    ensures Apply(s, step).state.settings.vault ==
            if SetsVault(step) then Some(step.call.vaultAddress) else s.settings.vault
  {
  }

  lemma SettingsMove(s: State, steps: seq<Step>)
    requires steps != [] && SetBy(s.settings, steps[..|steps| - 1])
    ensures SetBy(Apply(s, steps[|steps| - 1]).state.settings, steps)
  {
    var n := |steps| - 1;
    assert steps == steps[..n] + [steps[n]];
    FirstAppended(steps[..n], steps[n], Initialises);
    InitialisationMoves(s, steps[n]);
    ThresholdMoves(s, steps[n]);
    VaultMoves(s, steps[n]);
  }

  /** No state, not even a pause, keeps a setting from being made; no second initialisation ever counts. */
  lemma {:induction false} SettingsTold(self: Address, clock: u64, balances: Balances, steps: seq<Step>)
    ensures SetBy(Run(Genesis(self, clock, balances), steps).now.settings, steps)
  {
    if steps != [] {
      SettingsTold(self, clock, balances, steps[..|steps| - 1]);
      SettingsMove(Run(Genesis(self, clock, balances), steps[..|steps| - 1]).now, steps);
    }
  }

  // ----- the pause flag -----

  /**
   What the k-th step makes of the pause flag whatever it was before, none if it does not
   settle it. Of all initialisations only the first settles it, of all reported failures
   those above 50 since the last reset.
   */
  function Settles(steps: seq<Step>, k: nat): Option<bool>
    requires k < |steps|
  {
    match steps[k]
    case Invoke(Pause) => Some(true)
    case Invoke(Unpause) => Some(false)
    case Invoke(ResetCircuitBreaker) => Some(false)
    case Invoke(Initialize(_, _)) => if FirstWhere(steps[..k], Initialises).None? then Some(false) else None
    case Invoke(RecordFailure) =>
      if 50 < Controls.FailuresSinceReset(steps[..k + 1]) <= 0xFFFF_FFFF then Some(true) else None
    case _ => None
  }

  function Toggles(steps: seq<Step>): nat {
    if steps == [] then 0
    else Toggles(steps[..|steps| - 1]) + if steps[|steps| - 1] == Invoke(TogglePause) then 1 else 0
  }

  /** The last step before `k` settled the flag (there is none before 0), and no step from `k` on does. */
  predicate SettledAt(steps: seq<Step>, k: nat)
    requires k <= |steps|
  {
    && (k > 0 ==> Settles(steps, k - 1).Some?)
    && (forall j | k <= j < |steps| :: Settles(steps, j).None?)
  }

  /** There is always one such `k`: search back from `n`. */
  lemma {:induction false} FindSettled(steps: seq<Step>, n: nat) returns (k: nat)
    requires n <= |steps| && forall j | n <= j < |steps| :: Settles(steps, j).None?
    ensures k <= n && SettledAt(steps, k)
  {
    if n == 0 || Settles(steps, n - 1).Some? {
      k := n;
    } else {
      k := FindSettled(steps, n - 1);
    }
  }

  lemma SettlesInPrefix(steps: seq<Step>, n: nat, k: nat)
    requires k < n <= |steps|
    ensures Settles(steps[..n], k) == Settles(steps, k)
  {
    assert steps[..n][..k] == steps[..k];
    assert steps[..n][..k + 1] == steps[..k + 1];
  }

  lemma PauseMoves(s: State, steps: seq<Step>)
    requires steps != [] && SetBy(s.settings, steps[..|steps| - 1])
    requires s.breaker.failures == Min(Controls.FailuresSinceReset(steps[..|steps| - 1]), U32_MAX)
    ensures
      var settled := Settles(steps, |steps| - 1);
      Apply(s, steps[|steps| - 1]).state.breaker.paused ==
      if settled.Some? then settled.value else s.breaker.paused != (steps[|steps| - 1] == Invoke(TogglePause))
  {
    assert steps[..|steps|] == steps;
  }

  lemma PauseStep(self: Address, clock: u64, balances: Balances, steps: seq<Step>)
    requires steps != []
    ensures
      var settled := Settles(steps, |steps| - 1);
      Run(Genesis(self, clock, balances), steps).now.breaker.paused ==
      if settled.Some? then settled.value
      else Run(Genesis(self, clock, balances), steps[..|steps| - 1]).now.breaker.paused
           != (steps[|steps| - 1] == Invoke(TogglePause))
  {
    var n := |steps| - 1;
    SettingsTold(self, clock, balances, steps[..n]);
    Controls.FailuresCounted(self, clock, balances, steps[..n]);
    PauseMoves(Run(Genesis(self, clock, balances), steps[..n]).now, steps);
  }

  lemma SettledInPrefix(steps: seq<Step>, k: nat)
    requires k < |steps| && SettledAt(steps, k)
    ensures SettledAt(steps[..|steps| - 1], k)
    ensures k > 0 ==> Settles(steps[..|steps| - 1], k - 1) == Settles(steps, k - 1)
  {
    var n := |steps| - 1;
    forall j | k <= j < n ensures Settles(steps[..n], j).None? {
      SettlesInPrefix(steps, n, j);
    }
    if k > 0 {
      SettlesInPrefix(steps, n, k - 1);
    }
  }

  /** The value the flag was last settled at before `k`, turned over once for each toggle since. */
  predicate PausedSince(steps: seq<Step>, k: nat)
    requires k <= |steps| && SettledAt(steps, k)
  {
    (k > 0 && Settles(steps, k - 1).value) != (Toggles(steps[k..]) % 2 == 1)
  }

  lemma PausedSinceStep(steps: seq<Step>, k: nat)
    requires k < |steps| && SettledAt(steps, k) && SettledAt(steps[..|steps| - 1], k)
    requires k > 0 ==> Settles(steps[..|steps| - 1], k - 1) == Settles(steps, k - 1)
    ensures PausedSince(steps, k) <==>
            PausedSince(steps[..|steps| - 1], k) != (steps[|steps| - 1] == Invoke(TogglePause))
  {
    assert steps[k..][..|steps| - 1 - k] == steps[..|steps| - 1][k..];
  }

  lemma JustSettled(self: Address, clock: u64, balances: Balances, steps: seq<Step>)
    requires SettledAt(steps, |steps|)
    ensures Run(Genesis(self, clock, balances), steps).now.breaker.paused <==> PausedSince(steps, |steps|)
  {
    assert steps[|steps|..] == [];
    if steps != [] {
      PauseStep(self, clock, balances, steps);
    }
  }

  lemma {:induction false} PausedAsSettled(self: Address, clock: u64, balances: Balances, steps: seq<Step>, k: nat)
    requires k <= |steps| && SettledAt(steps, k)
    ensures Run(Genesis(self, clock, balances), steps).now.breaker.paused <==> PausedSince(steps, k)
  {
    if k == |steps| {
      JustSettled(self, clock, balances, steps);
    } else {
      PauseStep(self, clock, balances, steps);
      SettledInPrefix(steps, k);
      PausedAsSettled(self, clock, balances, steps[..|steps| - 1], k);
      PausedSinceStep(steps, k);
    }
  }

  /** The pause flag, by the one step of the run that settled it last, if any did. */
  lemma PauseTold(self: Address, clock: u64, balances: Balances, steps: seq<Step>)
    ensures
      var paused := Run(Genesis(self, clock, balances), steps).now.breaker.paused;
      exists k | 0 <= k <= |steps| :: SettledAt(steps, k) && (paused <==> PausedSince(steps, k))
  {
    var k := FindSettled(steps, |steps|);
    PausedAsSettled(self, clock, balances, steps, k);
  }
}
