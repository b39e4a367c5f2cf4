/** What the accounting of votes means: bounds, resolution, archiving and the consensus module. */
module Resolution {
  import opened Types
  import opened Ledger
  import opened Contract
  import opened Runs
  import opened Indexes
  import opened Lifecycle
  import opened Accounting
  import Consensus

  // ----- bounds -----

  lemma {:induction false} CountAtMostWeight(log: seq<Cast>, id: u64)
    requires forall i | 0 <= i < |log| :: log[i].Weight() > 0
    ensures CountOf(log, id) <= WeightOf(log, id)
  {
    if log != [] {
      CountAtMostWeight(log[..|log| - 1], id);
    }
  }

  /** In every reachable state, whatever reputations have become since the votes were cast. */
  lemma VotesNeverExceedWeight(self: Address, clock: u64, balances: Balances, steps: seq<Step>, id: u64)
    requires Run(Genesis(self, clock, balances), steps).now.board.Registered(id)
    ensures
      var w := Run(Genesis(self, clock, balances), steps);
      var t := w.now.board.Record(id);
      && t.accrued == WeightOf(w.past.log, id)
      && t.votes == CountOf(w.past.log, id) <= t.accrued <= 0xFFFF_FFFF_FFFF_FFFF
  {
    ReachableAccounted(self, clock, balances, steps);
    CountAtMostWeight(Run(Genesis(self, clock, balances), steps).past.log, id);
  }

  /**
   One vote per task and guardian: `AllVotes` is the log of accepted votes entry by entry,
   repeats nothing and lists exactly the `Voted` keys; and when each vote was cast its
   guardian was one, held more than the lock threshold and had a nonzero score, and its
   task was active.
   */
  lemma OneVotePerPair(self: Address, clock: u64, balances: Balances, steps: seq<Step>)
    ensures
      var w := Run(Genesis(self, clock, balances), steps);
      && NoDuplicates(w.now.board.allVotes)
      && (forall v :: v in w.now.board.voted <==> v in w.now.board.allVotes)
      && |w.past.log| == |w.now.board.allVotes|
      && (forall i | 0 <= i < |w.past.log| ::
            w.now.board.allVotes[i] == (w.past.log[i].task, w.past.log[i].guardian) && Eligible(w.past.log[i]))
  {
    ReachableAccounted(self, clock, balances, steps);
  }

  lemma {:induction false} CountAtMostLength(log: seq<Cast>, id: u64)
    ensures CountOf(log, id) <= |log|
  {
    if log != [] {
      CountAtMostLength(log[..|log| - 1], id);
    }
  }

  lemma VoteOutcome(s: State, g: Address, id: u64, vault: Vault)
    ensures Apply(s, Invoke(Vote(g, id, vault))).outcome.Ok? <==>
            && Eligible(Cast(id, g, s))
            && !s.mutex && s.settings.token.Some? && (id, g) !in s.board.voted
            && s.board.active[id].accrued + s.reputation[g] <= U64_MAX
            && s.board.active[id].votes < U32_MAX && |s.board.allVotes| < U32_MAX
            && (s.board.active[id].accrued + s.reputation[g] >= s.WeightThreshold() && s.settings.vault.Some?
                ==> vault.succeeds)
  {
  }

  /** What an observer of the log needs to know to tell that a vote will be accepted. */
  ghost predicate Acceptable(w: World, g: Address, id: u64, vault: Vault) {
    var log := w.past.log;
    var c := Cast(id, g, w.now);
    && Eligible(c)
    && w.now.settings.token.Some?
    && (forall i | 0 <= i < |log| :: log[i].task != id || log[i].guardian != g)
    && |log| < 0xFFFF_FFFF
    && WeightOf(log, id) + c.Weight() <= 0xFFFF_FFFF_FFFF_FFFF
    && (WeightOf(log, id) + c.Weight() >= c.Threshold() && w.now.settings.vault.Some? ==> vault.succeeds)
  }

  /**
   In a reachable state a vote is accepted exactly when it is eligible, is the guardian's
   first on the task, fits with the weights already cast, and the vault, if this vote
   calls it, returns. The task's own vote counter never decides: the log is full before it.
   */
  lemma VoteAcceptedExactly(
      self: Address, clock: u64, balances: Balances, steps: seq<Step>, g: Address, id: u64, vault: Vault)
    ensures
      var w := Run(Genesis(self, clock, balances), steps);
      Apply(w.now, Invoke(Vote(g, id, vault))).outcome.Ok? <==> Acceptable(w, g, id, vault)
  {
    ReachableAccounted(self, clock, balances, steps);
    AccountedAcceptance(Run(Genesis(self, clock, balances), steps), g, id, vault);
  }

  lemma AccountedAcceptance(w: World, g: Address, id: u64, vault: Vault)
    requires Accounted(w)
    ensures Apply(w.now, Invoke(Vote(g, id, vault))).outcome.Ok? <==> Acceptable(w, g, id, vault)
  {
    VoteOutcome(w.now, g, id, vault);
    VotedIffLogged(w.now.board, w.past.log, g, id);
    CountAtMostLength(w.past.log, id);
    assert id in w.now.board.active ==> AccountsFor(w.past.log, id, w.now.board.Record(id));
  }

  lemma VotedIffLogged(b: Board, log: seq<Cast>, g: Address, id: u64)
    requires Mirrors(b, log) && VoteIndex(b)
    ensures (id, g) in b.voted <==> exists i | 0 <= i < |log| :: log[i].task == id && log[i].guardian == g
  {
    if (id, g) in b.voted {
      var i :| 0 <= i < |b.allVotes| && b.allVotes[i] == (id, g);
      assert log[i].task == id && log[i].guardian == g;
    }
    if i :| 0 <= i < |log| && log[i].task == id && log[i].guardian == g {
      assert b.allVotes[i] in b.allVotes;
    }
  }

  // ----- resolution under a moving threshold -----

  /** `k` is the last vote on the task that met the threshold in force. */
  ghost predicate LastMeeting(log: seq<Cast>, k: nat, id: u64)
    requires k < |log|
  {
    MeetsFor(log, k, id) && forall j | k < j < |log| :: !MeetsFor(log, j, id)
  }

  lemma MeetsInPrefix(log: seq<Cast>, n: nat, k: nat, id: u64)
    requires k < n <= |log|
    ensures MeetsFor(log[..n], k, id) <==> MeetsFor(log, k, id)
  {
    assert log[..n][..k + 1] == log[..k + 1];
  }

  lemma ResolvedBefore(log: seq<Cast>, id: u64)
    requires log != [] && !MeetsFor(log, |log| - 1, id)
    ensures Resolved(log, id) <==> Resolved(log[..|log| - 1], id)
  {
    var n := |log| - 1;
    assert log == log[..n] + [log[n]];
    AppendedResolved(log[..n], log[n], id);
  }

  /** Finds the vote whose time is recorded. */
  lemma {:induction false} FindLastMeeting(log: seq<Cast>, id: u64) returns (k: nat)
    requires Resolved(log, id)
    ensures k < |log| && LastMeeting(log, k, id) && ResolvedAt(log, id) == log[k].Time()
  {
    var n := |log| - 1;
    k := n;
    if !MeetsFor(log, n, id) {
      ResolvedBefore(log, id);
      k := FindLastMeeting(log[..n], id);
      LastInPrefix(log, n, k, id);
    }
  }

  lemma {:induction false} UnresolvedAtZero(log: seq<Cast>, id: u64)
    requires !Resolved(log, id)
    ensures ResolvedAt(log, id) == 0
  {
    if log != [] {
      assert !MeetsFor(log, |log| - 1, id);
      ResolvedBefore(log, id);
      UnresolvedAtZero(log[..|log| - 1], id);
    }
  }

  lemma ResolvedAtIsLast(log: seq<Cast>, id: u64)
    ensures Resolved(log, id) ==>
              exists k | 0 <= k < |log| :: LastMeeting(log, k, id) && ResolvedAt(log, id) == log[k].Time()
    ensures !Resolved(log, id) ==> ResolvedAt(log, id) == 0
  {
    if Resolved(log, id) {
      var k := FindLastMeeting(log, id);
    } else {
      UnresolvedAtZero(log, id);
    }
  }

  lemma LastInPrefix(log: seq<Cast>, n: nat, k: nat, id: u64)
    requires n + 1 == |log| && k < n && !MeetsFor(log, n, id)
    requires LastMeeting(log[..n], k, id)
    ensures LastMeeting(log, k, id)
  {
    MeetsInPrefix(log, n, k, id);
    forall j | k < j < |log| ensures !MeetsFor(log, j, id) {
      if j < n {
        MeetsInPrefix(log, n, j, id);
        assert !MeetsFor(log[..n], j, id);
      }
    }
  }

  /**
   A task is done exactly when one of its votes brought its weight to the threshold in
   force at that vote, and `resolved_at` is the time of the last such vote.
   */
  lemma ResolutionExplained(self: Address, clock: u64, balances: Balances, steps: seq<Step>, id: u64)
    requires Run(Genesis(self, clock, balances), steps).now.board.Registered(id)
    ensures
      var w := Run(Genesis(self, clock, balances), steps);
      var t := w.now.board.Record(id);
      && (t.isDone <==> exists k | 0 <= k < |w.past.log| :: MeetsFor(w.past.log, k, id))
      && (t.isDone ==>
            exists k | 0 <= k < |w.past.log| ::
              LastMeeting(w.past.log, k, id) && t.resolvedAt == w.past.log[k].Time())
      && (!t.isDone ==> t.resolvedAt == 0)
  {
    ReachableAccounted(self, clock, balances, steps);
    ResolvedAtIsLast(Run(Genesis(self, clock, balances), steps).past.log, id);
  }

  /** Resolution survives whatever comes after: threshold changes, cancellation, archiving. */
  lemma ResolutionIsFinal(w: World, steps: seq<Step>, id: u64)
    requires Indexed(w) && w.now.board.Registered(id) && w.now.board.Record(id).isDone
    ensures Run(w, steps).now.board.Registered(id) && Run(w, steps).now.board.Record(id).isDone
  {
    RunGrows(w, steps);
    assert RecordGrows(w.now.board.Record(id), Run(w, steps).now.board.Record(id));
  }

  // ----- archiving -----

  /**
   When a task may be archived, in terms of its votes alone: some vote after time 0
   resolved it, and every vote that met the threshold is more than 30 days old.
   */
  ghost predicate Stale(log: seq<Cast>, id: u64, clock: u64) {
    && (exists k | 0 <= k < |log| :: MeetsFor(log, k, id) && log[k].Time() > 0)
    && (forall k | 0 <= k < |log| :: MeetsFor(log, k, id) ==> clock - log[k].Time() > 2_592_000)
  }

  lemma StaleIffLastIs(log: seq<Cast>, id: u64, clock: u64)
    requires Chronological(log, clock)
    ensures Stale(log, id, clock) <==>
            Resolved(log, id) && ResolvedAt(log, id) != 0 && clock - ResolvedAt(log, id) > 2_592_000
  {
    if !Resolved(log, id) {
      UnresolvedAtZero(log, id);
    } else {
      var k := FindLastMeeting(log, id);
      forall j | 0 <= j < |log| && MeetsFor(log, j, id) ensures log[j].Time() <= log[k].Time() {
      }
    }
  }

  lemma ArchiveOutcome(s: State, id: u64)
    ensures Apply(s, Invoke(ArchiveTask(id))).outcome.Ok? <==>
            && !s.breaker.paused
            && id in s.board.active && id !in s.board.archived
            && s.board.active[id].isDone && s.board.active[id].resolvedAt != 0
            && s.clock - s.board.active[id].resolvedAt > ARCHIVE_AFTER_SECONDS
  {
  }

  /** `archive_task` accepts, in a reachable state, exactly the active tasks that are stale. */
  lemma ArchivedExactlyWhenStale(self: Address, clock: u64, balances: Balances, steps: seq<Step>, id: u64)
    ensures
      var w := Run(Genesis(self, clock, balances), steps);
      Apply(w.now, Invoke(ArchiveTask(id))).outcome.Ok? <==>
      !w.now.breaker.paused && id in w.now.board.active && Stale(w.past.log, id, w.now.clock)
  {
    ReachableAccounted(self, clock, balances, steps);
    var w := Run(Genesis(self, clock, balances), steps);
    ArchiveOutcome(w.now, id);
    if id in w.now.board.active {
      assert AccountsFor(w.past.log, id, w.now.board.Record(id));
      StaleIffLastIs(w.past.log, id, w.now.clock);
    }
  }

  // ----- reward streams -----

  lemma {:induction false} ShorterList<T>(some: seq<T>, all: seq<T>, x: T)
    requires NoDuplicates(some) && (forall y | y in some :: y in all)
    requires x in all && x !in some
    ensures |some| < |all|
  {
    if some != [] {
      var n := |some| - 1;
      assert some[n] in all;
      var i :| 0 <= i < |all| && all[i] == some[n];
      var rest := all[..i] + all[i + 1..];
      forall y | y in some[..n] + [x] ensures y in rest {
        assert y in all;
        var j :| 0 <= j < |all| && all[j] == y;
        assert y != all[i];
        assert rest[if j < i then j else j - 1] == y;
      }
      ShorterList(some[..n], rest, x);
    }
  }

  /** The list of streams never fills up while there is a task left to start one for. */
  lemma StreamsFewerThanTasks(b: Board, id: u64)
    requires BoardIndexed(b) && b.Registered(id) && id !in b.streams
    ensures |b.allStreams| < |b.allTasks|
  {
    ShorterList(b.allStreams, b.allTasks, id);
  }

  lemma StreamOutcome(s: State, drips: Address, contributor: Address, id: u64, dripsReturns: bool)
    ensures Apply(s, Invoke(Call.StartRewardStream(drips, contributor, id, dripsReturns))).outcome.Ok? <==>
            && !s.breaker.paused
            && id in s.board.active && !s.board.active[id].isCancelled && s.board.active[id].isDone
            && id !in s.board.streams && dripsReturns && |s.board.allStreams| < U32_MAX
  {
  }

  /**
   In a reachable state `start_reward_stream` accepts, while not paused, exactly an active
   task that is not cancelled, that its votes have resolved and that has no stream yet, if
   Drips returns. The length of the stream list never decides.
   */
  lemma StreamAcceptedExactly(
      self: Address, clock: u64, balances: Balances, steps: seq<Step>,
      drips: Address, contributor: Address, id: u64, dripsReturns: bool)
    ensures
      var w := Run(Genesis(self, clock, balances), steps);
      Apply(w.now, Invoke(Call.StartRewardStream(drips, contributor, id, dripsReturns))).outcome.Ok? <==>
      && !w.now.breaker.paused
      && id in w.now.board.active && !w.now.board.active[id].isCancelled
      && Resolved(w.past.log, id)
      && id !in w.now.board.streams
      && dripsReturns
  {
    ReachableAccounted(self, clock, balances, steps);
    var w := Run(Genesis(self, clock, balances), steps);
    StreamOutcome(w.now, drips, contributor, id, dripsReturns);
    if id in w.now.board.active {
      assert AccountsFor(w.past.log, id, w.now.board.Record(id));
      if id !in w.now.board.streams {
        StreamsFewerThanTasks(w.now.board, id);
      }
    }
  }

  // ----- the consensus module -----

  /**
   `vote`, past its admission checks, against `apply_vote` on the same record, weight
   and threshold: the two reject a zero weight and an overflow on the same inputs, and
   an accepted vote leaves the same tally. They part only at a full vote counter, where
   the contract traps and the module saturates.
   */
  lemma VoteRefinesConsensus(s: State, g: Address, id: u64, vault: Vault)
    requires VoterCheck(s, g, id).Ok? && id in s.board.active && !s.board.active[id].isCancelled
    ensures
      var t := s.board.active[id];
      var (tally, verdict) := Consensus.ApplyVote(View(t), s.reputation[g], s.WeightThreshold());
      var e := Apply(s, Invoke(Vote(g, id, vault)));
      && (e.outcome == Err(ZeroWeightVote) <==> verdict.ZeroWeight?)
      && (e.outcome == Err(WeightOverflow) <==> verdict.WeightOverflow?)
      && (e.outcome.Ok? ==> verdict.Accepted? && id in e.state.board.active && View(e.state.board.active[id]) == tally)
      && (verdict.Accepted? && t.votes == U32_MAX ==> e.outcome.Trap? && tally.votes == U32_MAX)
      && (verdict.Accepted? && t.votes < U32_MAX && vault.succeeds && |s.board.allVotes| < U32_MAX ==> e.outcome.Ok?)
  {
  }

  /** Over a whole run: every record is what the consensus module makes of the task's votes. */
  lemma RecordsReplay(self: Address, clock: u64, balances: Balances, steps: seq<Step>, id: u64)
    requires Run(Genesis(self, clock, balances), steps).now.board.Registered(id)
    ensures
      var w := Run(Genesis(self, clock, balances), steps);
      View(w.now.board.Record(id)) == Replay(w.past.log, id)
  {
    ReachableAccounted(self, clock, balances, steps);
  }

  /** The weights of the votes on one task, in the order they were cast. */
  function WeightsFor(log: seq<Cast>, id: u64): seq<u64> {
    if log == [] then []
    else
      var before := WeightsFor(log[..|log| - 1], id);
      if log[|log| - 1].task == id then before + [log[|log| - 1].Weight()] else before
  }

  ghost predicate FixedThreshold(log: seq<Cast>, id: u64, threshold: u64) {
    forall i | 0 <= i < |log| && log[i].task == id :: log[i].Threshold() == threshold
  }

  lemma {:induction false} ReplayIsFold(log: seq<Cast>, id: u64, threshold: u64)
    requires FixedThreshold(log, id, threshold)
    ensures Replay(log, id) == Consensus.Fold(WeightsFor(log, id), threshold).0
  {
    if log != [] {
      ReplayIsFold(log[..|log| - 1], id, threshold);
      var ws := WeightsFor(log, id);
      if log[|log| - 1].task == id {
        assert ws[..|ws| - 1] == WeightsFor(log[..|log| - 1], id);
      }
    }
  }

  lemma {:induction false} WeightsSum(log: seq<Cast>, id: u64)
    requires forall i | 0 <= i < |log| :: log[i].Weight() > 0
    ensures Consensus.Sum(WeightsFor(log, id)) == WeightOf(log, id)
    ensures Consensus.AllPositive(WeightsFor(log, id))
  {
    if log != [] {
      WeightsSum(log[..|log| - 1], id);
      var ws := WeightsFor(log, id);
      if log[|log| - 1].task == id {
        assert ws[..|ws| - 1] == WeightsFor(log[..|log| - 1], id);
      }
    }
  }

  /**
   Two tasks, in two reachable states of whatever deployments, that received the same
   weights in whatever order under one fixed threshold have the same tally: done exactly
   when there was a vote and the weights reach the threshold.
   */
  lemma OrderOfVotesIrrelevant(v: World, w: World, i: u64, j: u64, threshold: u64)
    requires Accounted(v) && Accounted(w) && v.now.board.Registered(i) && w.now.board.Registered(j)
    requires FixedThreshold(v.past.log, i, threshold) && FixedThreshold(w.past.log, j, threshold)
    requires multiset(WeightsFor(v.past.log, i)) == multiset(WeightsFor(w.past.log, j))
    ensures View(v.now.board.Record(i)) == View(w.now.board.Record(j))
    ensures var t := w.now.board.Record(j); t.isDone <==> t.votes > 0 && t.accrued >= threshold
  {
    FixedThresholdTally(v, i, threshold);
    FixedThresholdTally(w, j, threshold);
    Consensus.FoldPermuted(WeightsFor(v.past.log, i), WeightsFor(w.past.log, j), threshold);
  }

  lemma FixedThresholdTally(w: World, id: u64, threshold: u64)
    requires Accounted(w) && w.now.board.Registered(id) && FixedThreshold(w.past.log, id, threshold)
    ensures
      var fold := Consensus.Fold(WeightsFor(w.past.log, id), threshold);
      var t := w.now.board.Record(id);
      fold.1 && fold.0 == View(t) && (t.isDone <==> t.votes > 0 && t.accrued >= threshold)
  {
    assert AccountsFor(w.past.log, id, w.now.board.Record(id));
    ReplayIsFold(w.past.log, id, threshold);
    WeightsSum(w.past.log, id);
    Consensus.FoldAccepts(WeightsFor(w.past.log, id), threshold);
  }
}
