/** What the pause flag, the failure counter and the weight threshold guarantee over runs. */
module Controls {
  import opened Types
  import opened Ledger
  import opened Contract
  import opened Frames
  import opened Indexes
  import opened Accounting
  import opened Runs
  import Consensus

  // ----- pause -----

  /** The calls that look at the pause flag before anything else. */
  predicate PauseGated(c: Call) {
    || c.AddGuardian? || c.RemoveGuardian? || c.SetReputation?
    || c.RegisterTask? || c.CancelTask? || c.Vote? || c.ArchiveTask? || c.StartRewardStream?
  }

  /** What a pause holds still: everything on the board, reputations, the list of guardians. */
  ghost predicate Frozen(s: State, t: State) {
    && t.board == s.board
    && t.reputation == s.reputation
    && t.roster.listed == s.roster.listed
    && t.roster.flags.Keys == s.roster.flags.Keys
    && (forall g | t.IsGuardian(g) :: s.IsGuardian(g))
  }

  lemma PausedStep(s: State, step: Step)
    requires s.breaker.paused
    ensures Frozen(s, Apply(s, step).state)
    ensures step.Invoke? && PauseGated(step.call) ==> Apply(s, step) == Refuse(s, ContractPaused)
  {
    if !WritesRoster(step) {
      OthersKeepRoster(s, step);
    }
    PausedBoard(s, step);
  }

  lemma PausedBoard(s: State, step: Step)
    requires s.breaker.paused
    ensures Apply(s, step).state.board == s.board
    ensures Apply(s, step).state.reputation == s.reputation
    ensures step.Invoke? && PauseGated(step.call) ==> Apply(s, step) == Refuse(s, ContractPaused)
  {
    if !WritesBoard(step) {
      OthersKeepBoard(s, step);
    }
  }

  /** The flag is set whenever one of the steps begins. */
  predicate PausedThroughout(w: World, steps: seq<Step>) {
    steps != [] ==>
      && PausedThroughout(w, steps[..|steps| - 1])
      && Run(w, steps[..|steps| - 1]).now.breaker.paused
  }

  /** Over any stretch that stays paused the record stands still and guardians can only leave. */
  lemma {:induction false} PauseFreezes(w: World, steps: seq<Step>)
    requires PausedThroughout(w, steps)
    ensures Frozen(w.now, Run(w, steps).now)
  {
    if steps != [] {
      PauseFreezes(w, steps[..|steps| - 1]);
      PausedStep(Run(w, steps[..|steps| - 1]).now, steps[|steps| - 1]);
    }
  }

  // ----- circuit breaker -----

  /** The failures reported since the last reset, read off the steps alone. */
  function FailuresSinceReset(steps: seq<Step>): nat {
    if steps == [] then 0
    else
      var before := FailuresSinceReset(steps[..|steps| - 1]);
      match steps[|steps| - 1]
      case Invoke(RecordFailure) => before + 1
      case Invoke(ResetCircuitBreaker) => 0
      case _ => before
  }

  lemma StepCountsFailures(s: State, step: Step)
    ensures Apply(s, step).state.breaker.failures ==
            if step == Invoke(RecordFailure) then Min(s.breaker.failures + 1, U32_MAX)
            else if step == Invoke(ResetCircuitBreaker) then 0
            else s.breaker.failures
  {
  }

  /** `FailureCount` is the number of failures since the last reset, up to the counter's limit. */
  lemma {:induction false} FailuresCounted(self: Address, clock: u64, balances: Balances, steps: seq<Step>)
    ensures Run(Genesis(self, clock, balances), steps).now.breaker.failures ==
            Min(FailuresSinceReset(steps), 0xFFFF_FFFF)
  {
    if steps != [] {
      var n := |steps| - 1;
      FailuresCounted(self, clock, balances, steps[..n]);
      StepCountsFailures(Run(Genesis(self, clock, balances), steps[..n]).now, steps[n]);
    }
  }

  lemma RecordedFailure(s: State)
    ensures Apply(s, Invoke(RecordFailure)).state.breaker.paused <==>
            s.breaker.paused || FAILURE_THRESHOLD <= s.breaker.failures < U32_MAX
  {
  }

  /**
   Right after the n-th failure since the last reset the contract is paused exactly when
   it was paused before, or n is above 50. (At a full counter the report traps and
   changes nothing.)
   */
  lemma BreakerTrips(self: Address, clock: u64, balances: Balances, steps: seq<Step>)
    ensures
      var before := Run(Genesis(self, clock, balances), steps);
      var after := Run(Genesis(self, clock, balances), steps + [Invoke(RecordFailure)]);
      var n := FailuresSinceReset(steps) + 1;
      after.now.breaker.paused <==> before.now.breaker.paused || 50 < n <= 0xFFFF_FFFF
  {
    var g := Genesis(self, clock, balances);
    var more := steps + [Invoke(RecordFailure)];
    assert more[..|more| - 1] == steps;
    FailuresCounted(self, clock, balances, steps);
    RecordedFailure(Run(g, steps).now);
  }

  // ----- guardians -----

  /**
   `AllGuardians` holds an address once per successful removal and once more while its
   key is stored; so it lists every current guardian, and repeats an address exactly when
   it was removed and added again or removed twice.
   */
  lemma GuardiansCounted(self: Address, clock: u64, balances: Balances, steps: seq<Step>, g: Address)
    ensures
      var w := Run(Genesis(self, clock, balances), steps);
      && multiset(w.now.roster.listed)[g] ==
           w.past.removals[g] + (if g in w.now.roster.flags then 1 else 0)
      && (w.now.IsGuardian(g) ==> g in w.now.roster.listed)
  {
    ReachableIndexed(self, clock, balances, steps);
    var w := Run(Genesis(self, clock, balances), steps);
    assert multiset(w.now.roster.listed)[g] ==
           (w.past.removals + multiset(w.now.roster.flags.Keys))[g];
    assert g in multiset(w.now.roster.listed) <==> g in w.now.roster.listed;
  }

  // ----- threshold -----

  /** `resolution_invariant_holds` for every task, against the threshold now in force. */
  ghost predicate ThresholdRespected(s: State) {
    forall id | s.board.Registered(id) ::
      Consensus.ResolutionInvariantHolds(View(s.board.Record(id)), s.WeightThreshold())
  }

  /** Every task the log says is resolved is one with a record, which is done at the weight in the log. */
  lemma ResolvedOnRecord(w: World, id: u64)
    requires Accounted(w) && Resolved(w.past.log, id)
    ensures w.now.board.Registered(id)
    ensures w.now.board.Record(id).isDone && w.now.board.Record(id).accrued == WeightOf(w.past.log, id)
  {
    var k :| 0 <= k < |w.past.log| && MeetsFor(w.past.log, k, id);
    assert w.now.board.allVotes[k] in w.now.board.voted;
    assert AccountsFor(w.past.log, id, w.now.board.Record(id));
  }

  /** The threshold is one that every resolved task has the votes for. */
  ghost predicate Supported(log: seq<Cast>, threshold: u64) {
    forall id: u64 | Resolved(log, id) :: threshold <= WeightOf(log, id)
  }

  /** The records respect a threshold exactly when the votes cast support it. */
  lemma RespectedIffSupported(w: World)
    requires Accounted(w)
    ensures ThresholdRespected(w.now) <==> Supported(w.past.log, w.now.WeightThreshold())
  {
    var log := w.past.log;
    if ThresholdRespected(w.now) {
      forall id: u64 | Resolved(log, id) ensures w.now.WeightThreshold() <= WeightOf(log, id) {
        ResolvedOnRecord(w, id);
        assert Consensus.ResolutionInvariantHolds(View(w.now.board.Record(id)), w.now.WeightThreshold());
      }
    }
    if Supported(log, w.now.WeightThreshold()) {
      forall id | w.now.board.Registered(id)
        ensures Consensus.ResolutionInvariantHolds(View(w.now.board.Record(id)), w.now.WeightThreshold())
      {
        assert AccountsFor(log, id, w.now.board.Record(id));
      }
    }
  }

  /** The step is not the setting of a threshold that some resolved task has not the votes for. */
  ghost predicate SettingFits(w: World, step: Step) {
    step.Invoke? && step.call.SetWeightThreshold? ==> Supported(w.past.log, step.call.threshold)
  }

  lemma SettingTakesEffect(w: World, threshold: u64)
    ensures Next(w, Invoke(SetWeightThreshold(threshold))).now.WeightThreshold() == threshold
    ensures Next(w, Invoke(SetWeightThreshold(threshold))).past.log == w.past.log
  {
  }

  lemma RespectedAfterSetting(w: World, threshold: u64)
    requires Accounted(w)
    ensures ThresholdRespected(Next(w, Invoke(SetWeightThreshold(threshold))).now) <==>
            Supported(w.past.log, threshold)
  {
    SettingTakesEffect(w, threshold);
    StepKeepsAccounts(w, Invoke(SetWeightThreshold(threshold)));
    RespectedIffSupported(Next(w, Invoke(SetWeightThreshold(threshold))));
  }

  lemma CallsKeepThreshold(s: State, step: Step)
    requires !(step.Invoke? && step.call.SetWeightThreshold?)
    ensures Apply(s, step).state.WeightThreshold() == s.WeightThreshold()
  {
  }

  lemma BoardRespectsThreshold(s: State, step: Step, id: u64)
    requires TaskIndex(s.board) && ThresholdRespected(s) && WritesBoard(step)
    requires Apply(s, step).state.board.Registered(id)
    ensures Consensus.ResolutionInvariantHolds(View(Apply(s, step).state.board.Record(id)), s.WeightThreshold())
  {
    if s.board.Registered(id) {
      assert Consensus.ResolutionInvariantHolds(View(s.board.Record(id)), s.WeightThreshold());
    }
  }

  lemma OthersRespectThreshold(s: State, step: Step)
    requires TaskIndex(s.board) && ThresholdRespected(s) && !(step.Invoke? && step.call.SetWeightThreshold?)
    ensures ThresholdRespected(Apply(s, step).state)
  {
    var t := Apply(s, step).state;
    CallsKeepThreshold(s, step);
    if !WritesBoard(step) {
      OthersKeepBoard(s, step);
    } else {
      forall id | t.board.Registered(id)
        ensures Consensus.ResolutionInvariantHolds(View(t.board.Record(id)), t.WeightThreshold())
      {
        BoardRespectsThreshold(s, step, id);
      }
    }
  }

  /** One step keeps the threshold respected exactly when it fits. */
  lemma StepRespectsThreshold(w: World, step: Step)
    requires Accounted(w) && ThresholdRespected(w.now)
    ensures ThresholdRespected(Next(w, step).now) <==> SettingFits(w, step)
  {
    if step.Invoke? && step.call.SetWeightThreshold? {
      RespectedAfterSetting(w, step.call.threshold);
    } else {
      OthersRespectThreshold(w.now, step);
    }
  }

  /** At every moment of the run no task is done below the threshold then in force. */
  ghost predicate RespectedThroughout(w: World, steps: seq<Step>) {
    ThresholdRespected(Run(w, steps).now) && (steps != [] ==> RespectedThroughout(w, steps[..|steps| - 1]))
  }

  /** Every setting made in the run is supported by the votes cast until then. */
  ghost predicate SettingsFit(w: World, steps: seq<Step>) {
    steps != [] ==>
      && SettingsFit(w, steps[..|steps| - 1])
      && SettingFits(Run(w, steps[..|steps| - 1]), steps[|steps| - 1])
  }

  /**
   The resolution invariant holds at every moment of a run exactly when every threshold set
   in it is within the weight of every task resolved until then.
   */
  lemma {:induction false} RespectedExactly(self: Address, clock: u64, balances: Balances, steps: seq<Step>)
    ensures RespectedThroughout(Genesis(self, clock, balances), steps) <==>
            SettingsFit(Genesis(self, clock, balances), steps)
  {
    var g := Genesis(self, clock, balances);
    if steps != [] {
      var n := |steps| - 1;
      RespectedExactly(self, clock, balances, steps[..n]);
      ReachableAccounted(self, clock, balances, steps[..n]);
      if SettingsFit(g, steps[..n]) {
        StepRespectsThreshold(Run(g, steps[..n]), steps[n]);
      }
    }
  }

  /** The step does not put the threshold above where it is. */
  predicate DoesNotRaise(s: State, step: Step) {
    step.Invoke? && step.call.SetWeightThreshold? ==> step.call.threshold <= s.WeightThreshold()
  }

  predicate NeverRaised(w: World, steps: seq<Step>) {
    steps != [] ==>
      && NeverRaised(w, steps[..|steps| - 1])
      && DoesNotRaise(Run(w, steps[..|steps| - 1]).now, steps[|steps| - 1])
  }

  /** If the threshold never rises during a run, no task is ever done below the threshold in force. */
  lemma {:induction false} ThresholdRespectedUnlessRaised(
      self: Address, clock: u64, balances: Balances, steps: seq<Step>)
    requires NeverRaised(Genesis(self, clock, balances), steps)
    ensures RespectedThroughout(Genesis(self, clock, balances), steps)
  {
    var g := Genesis(self, clock, balances);
    if steps != [] {
      var n := |steps| - 1;
      ThresholdRespectedUnlessRaised(self, clock, balances, steps[..n]);
      ReachableAccounted(self, clock, balances, steps[..n]);
      RespectedIffSupported(Run(g, steps[..n]));
      StepRespectsThreshold(Run(g, steps[..n]), steps[n]);
    }
  }

  /** A contract with no tasks but `id` and a guardian `g` of score 1, ready to vote under threshold 1. */
  function Opened(self: Address, token: Address, g: Address, id: u64): State {
    var ready := Perform(Genesis(self, 0, map[]).now, Initialize(token, -1)).state;
    var manned := Perform(Perform(ready, AddGuardian(g)).state, SetReputation(g, 1)).state;
    Perform(Perform(manned, RegisterTask(id)).state, SetWeightThreshold(1)).state
  }

  lemma OpenedForOne(self: Address, token: Address, g: Address, id: u64)
    ensures
      var s := Opened(self, token, g, id);
      && VoterCheck(s, g, id).Ok? && s.reputation == map[g := 1]
      && s.board == Board(map[id := FreshTask(id)], map[], [id], {}, [], map[], [])
      && s.WeightThreshold() == 1 && s.settings.vault.None? && s.clock == 0
  {
    assert [id][0] == id;
  }

  /**
   A rise can break it: with threshold 1 a single vote of weight 1 resolves a task, which
   threshold 2 then leaves done below the threshold in force.
   */
  lemma RaiseBreaksThreshold(self: Address, token: Address, g: Address, id: u64, vault: Vault)
    ensures
      var resolved := Perform(Opened(self, token, g, id), Vote(g, id, vault)).state;
      ThresholdRespected(resolved) && !ThresholdRespected(Perform(resolved, SetWeightThreshold(2)).state)
  {
    OpenedForOne(self, token, g, id);
    var resolved := Perform(Opened(self, token, g, id), Vote(g, id, vault)).state;
    assert resolved.board.active[id] == Task(id, 1, true, 0, 1, false);
    var raised := Perform(resolved, SetWeightThreshold(2)).state;
    assert raised.board.Registered(id) && raised.board.Record(id).accrued < raised.WeightThreshold();
  }
}
