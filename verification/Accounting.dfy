/**
 Every task record is accounted for by the votes cast on the task, at the weights and
 thresholds in force when they were cast, whatever happened to reputations and to the
 threshold since.
 */
module Accounting {
  import opened Types
  import opened Ledger
  import opened Contract
  import opened Frames
  import opened Indexes
  import opened Runs
  import Consensus

  // ----- what the log says about one task -----

  function WeightOf(log: seq<Cast>, id: u64): nat {
    if log == [] then 0
    else
      var last := log[|log| - 1];
      WeightOf(log[..|log| - 1], id) + if last.task == id then last.Weight() else 0
  }

  function CountOf(log: seq<Cast>, id: u64): nat {
    if log == [] then 0
    else CountOf(log[..|log| - 1], id) + if log[|log| - 1].task == id then 1 else 0
  }

  /** The k-th vote met the threshold: with it, its task's weight reached the threshold in force. */
  predicate Meets(log: seq<Cast>, k: nat)
    requires k < |log|
  {
    WeightOf(log[..k + 1], log[k].task) >= log[k].Threshold()
  }

  predicate MeetsFor(log: seq<Cast>, k: nat, id: u64)
    requires k < |log|
  {
    log[k].task == id && Meets(log, k)
  }

  ghost predicate Resolved(log: seq<Cast>, id: u64) {
    exists k | 0 <= k < |log| :: MeetsFor(log, k, id)
  }

  /** The time of the last vote on the task that met the threshold, 0 if there is none. */
  function ResolvedAt(log: seq<Cast>, id: u64): nat {
    if log == [] then 0
    else if MeetsFor(log, |log| - 1, id) then log[|log| - 1].Time()
    else ResolvedAt(log[..|log| - 1], id)
  }

  /** The pure consensus module run over the task's votes, each under its own threshold. */
  function Replay(log: seq<Cast>, id: u64): Consensus.Tally {
    if log == [] then Consensus.FRESH
    else
      var t := Replay(log[..|log| - 1], id);
      var last := log[|log| - 1];
      if last.task == id then Consensus.ApplyVote(t, last.Weight(), last.Threshold()).0 else t
  }

  /** The part of a record that src/consensus.rs speaks about. */
  function View(t: Task): Consensus.Tally {
    Consensus.Tally(t.accrued, t.votes, t.isDone)
  }

  ghost predicate AccountsFor(log: seq<Cast>, id: u64, t: Task) {
    && t.accrued == WeightOf(log, id)
    && t.votes == CountOf(log, id)
    && (t.isDone <==> Resolved(log, id))
    && t.resolvedAt == ResolvedAt(log, id)
    && View(t) == Replay(log, id)
  }

  /** A vote that `vote` may accept, judged by the state it was cast in. */
  ghost predicate Eligible(c: Cast) {
    && c.before.IsGuardian(c.guardian)
    && c.before.LockedBalance(c.guardian) > c.before.LockThreshold()
    && c.Weight() > 0
    && c.task in c.before.board.active
    && !c.before.board.active[c.task].isCancelled
    && !c.before.breaker.paused
  }

  ghost predicate Mirrors(b: Board, log: seq<Cast>) {
    && |log| == |b.allVotes|
    && (forall i | 0 <= i < |log| :: b.allVotes[i] == (log[i].task, log[i].guardian))
  }

  ghost predicate Chronological(log: seq<Cast>, clock: u64) {
    && (forall i, j | 0 <= i < j < |log| :: log[i].Time() <= log[j].Time())
    && (forall i | 0 <= i < |log| :: log[i].Time() <= clock)
  }

  ghost predicate Balanced(b: Board, log: seq<Cast>) {
    forall id | b.Registered(id) :: AccountsFor(log, id, b.Record(id))
  }

  ghost predicate Accounted(w: World) {
    && Indexed(w)
    && Mirrors(w.now.board, w.past.log)
    && Balanced(w.now.board, w.past.log)
    && Chronological(w.past.log, w.now.clock)
    && (forall i | 0 <= i < |w.past.log| :: Eligible(w.past.log[i]))
  }

  // ----- one more vote -----

  lemma AppendedPrefix(log: seq<Cast>, c: Cast, k: nat)
    requires k < |log|
    ensures Meets(log + [c], k) == Meets(log, k)
  {
    assert (log + [c])[..k + 1] == log[..k + 1];
  }

  /** Exactly the last vote's weight comes on top, and it resolves by the weight then reached. */
  lemma Appended(log: seq<Cast>, c: Cast, id: u64)
    ensures WeightOf(log + [c], id) == WeightOf(log, id) + (if c.task == id then c.Weight() else 0)
    ensures CountOf(log + [c], id) == CountOf(log, id) + (if c.task == id then 1 else 0)
    ensures Resolved(log + [c], id) <==>
            Resolved(log, id) || (c.task == id && WeightOf(log, id) + c.Weight() >= c.Threshold())
    ensures ResolvedAt(log + [c], id) ==
            if c.task == id && WeightOf(log, id) + c.Weight() >= c.Threshold() then c.Time() else ResolvedAt(log, id)
    ensures Replay(log + [c], id) ==
            if c.task == id then Consensus.ApplyVote(Replay(log, id), c.Weight(), c.Threshold()).0 else Replay(log, id)
  {
    var more := log + [c];
    assert more[..|log|] == log;
    assert more[..|log| + 1] == more;
    AppendedResolved(log, c, id);
  }

  lemma AppendedResolved(log: seq<Cast>, c: Cast, id: u64)
    ensures Resolved(log + [c], id) <==> Resolved(log, id) || MeetsFor(log + [c], |log|, id)
  {
    var more := log + [c];
    if Resolved(log, id) {
      var k :| 0 <= k < |log| && MeetsFor(log, k, id);
      AppendedPrefix(log, c, k);
      assert MeetsFor(more, k, id);
    }
    if Resolved(more, id) {
      var k :| 0 <= k < |more| && MeetsFor(more, k, id);
      if k < |log| {
        AppendedPrefix(log, c, k);
        assert MeetsFor(log, k, id);
      }
    }
  }

  /** A task nobody voted on is a fresh record. */
  lemma {:induction false} NoVotesYet(log: seq<Cast>, id: u64)
    requires forall i | 0 <= i < |log| :: log[i].task != id
    ensures AccountsFor(log, id, FreshTask(id))
  {
    if log != [] {
      NoVotesYet(log[..|log| - 1], id);
    }
  }

  // ----- one step -----

  lemma RegisterKeepsBalance(s: State, id: u64, log: seq<Cast>)
    requires VoteIndex(s.board) && Mirrors(s.board, log) && Balanced(s.board, log)
    ensures Balanced(RegisterTaskEffect(s, id).state.board, log)
  {
    assert [id][0] == id;
    var b := RegisterTaskEffect(s, id).state.board;
    forall other | b.Registered(other) ensures AccountsFor(log, other, b.Record(other)) {
      if s.board.Registered(other) {
        assert b.Record(other) == s.board.Record(other);
      } else {
        forall i | 0 <= i < |log| ensures log[i].task != other {
          assert s.board.allVotes[i] in s.board.voted;
        }
        NoVotesYet(log, other);
      }
    }
  }

  lemma CancelKeepsBalance(s: State, id: u64, log: seq<Cast>)
    requires TaskIndex(s.board) && Balanced(s.board, log)
    ensures Balanced(CancelTaskEffect(s, id).state.board, log)
  {
    var b := CancelTaskEffect(s, id).state.board;
    forall other | b.Registered(other) ensures AccountsFor(log, other, b.Record(other)) {
      assert s.board.Registered(other) && AccountsFor(log, other, s.board.Record(other));
    }
  }

  lemma ArchiveKeepsBalance(s: State, id: u64, log: seq<Cast>)
    requires TaskIndex(s.board) && Balanced(s.board, log)
    ensures Balanced(ArchiveTaskEffect(s, id).state.board, log)
  {
    var b := ArchiveTaskEffect(s, id).state.board;
    forall other | b.Registered(other) ensures AccountsFor(log, other, b.Record(other)) {
      assert s.board.Registered(other) && b.Record(other) == s.board.Record(other);
    }
  }

  lemma StartKeepsBalance(s: State, drips: Address, contributor: Address, id: u64, dripsReturns: bool, log: seq<Cast>)
    requires Balanced(s.board, log)
    ensures Balanced(StartStreamEffect(s, drips, contributor, id, dripsReturns).state.board, log)
  {
    var b := StartStreamEffect(s, drips, contributor, id, dripsReturns).state.board;
    forall other | b.Registered(other) ensures AccountsFor(log, other, b.Record(other)) {
      assert s.board.Registered(other) && b.Record(other) == s.board.Record(other);
    }
  }

  /** The inline tally of `vote` is one step of the consensus module and of the log. */
  lemma TalliedAccounts(t: Task, c: Cast, log: seq<Cast>, id: u64)
    requires AccountsFor(log, id, t) && c.task == id && c.Weight() > 0
    requires t.accrued + c.Weight() <= U64_MAX && t.votes < U32_MAX
    ensures AccountsFor(log + [c], id, Tallied(t, c.Weight(), c.Threshold(), c.Time()))
  {
    Appended(log, c, id);
  }

  lemma VoteKeepsBalance(s: State, g: Address, id: u64, vaultSucceeds: bool, log: seq<Cast>)
    requires TaskIndex(s.board) && Balanced(s.board, log)
    requires VoteEffect(s, g, id, vaultSucceeds).outcome.Ok?
    ensures Balanced(VoteEffect(s, g, id, vaultSucceeds).state.board, log + [Cast(id, g, s)])
  {
    var b := VoteEffect(s, g, id, vaultSucceeds).state.board;
    var c := Cast(id, g, s);
    forall other | b.Registered(other) ensures AccountsFor(log + [c], other, b.Record(other)) {
      assert AccountsFor(log, other, s.board.Record(other));
      if other == id {
        TalliedAccounts(s.board.active[id], c, log, id);
      } else {
        Appended(log, c, other);
      }
    }
  }

  /** What an accepted vote says about the state it was cast in. */
  lemma AcceptedVote(s: State, g: Address, id: u64, vaultSucceeds: bool)
    requires VoteEffect(s, g, id, vaultSucceeds).outcome.Ok?
    ensures Eligible(Cast(id, g, s))
    ensures VoteEffect(s, g, id, vaultSucceeds).state.board.allVotes == s.board.allVotes + [(id, g)]
    ensures VoteEffect(s, g, id, vaultSucceeds).state.clock == s.clock
  {
  }

  lemma LogKeepsPace(log: seq<Cast>, c: Cast, b: Board, b': Board)
    requires Mirrors(b, log) && b'.allVotes == b.allVotes + [(c.task, c.guardian)]
    requires Chronological(log, c.Time())
    requires Eligible(c) && forall i | 0 <= i < |log| :: Eligible(log[i])
    ensures Mirrors(b', log + [c])
    ensures Chronological(log + [c], c.Time())
    ensures forall i | 0 <= i < |log + [c]| :: Eligible((log + [c])[i])
  {
  }

  lemma AcceptedVoteKeepsAccounts(w: World, g: Address, id: u64, vault: Vault, w': World)
    requires Accounted(w) && Indexed(w')
    requires VoteEffect(w.now, g, id, vault.succeeds).outcome.Ok?
    requires w'.now == VoteEffect(w.now, g, id, vault.succeeds).state
    requires w'.past.log == w.past.log + [Cast(id, g, w.now)]
    ensures Accounted(w')
  {
    VoteKeepsBalance(w.now, g, id, vault.succeeds, w.past.log);
    AcceptedVote(w.now, g, id, vault.succeeds);
    LogKeepsPace(w.past.log, Cast(id, g, w.now), w.now.board, w'.now.board);
  }

  lemma VoteKeepsAccounts(w: World, g: Address, id: u64, vault: Vault)
    requires Accounted(w)
    ensures Accounted(Next(w, Invoke(Vote(g, id, vault))))
  {
    var step := Invoke(Vote(g, id, vault));
    StepKeepsIndexed(w, step);
    RefusedStepsChangeNothing(w, step);
    if VoteEffect(w.now, g, id, vault.succeeds).outcome.Ok? {
      AcceptedVoteKeepsAccounts(w, g, id, vault, Next(w, step));
    }
  }

  lemma OthersKeepBalance(s: State, step: Step, log: seq<Cast>)
    requires TaskIndex(s.board) && VoteIndex(s.board) && Mirrors(s.board, log) && Balanced(s.board, log)
    requires !IsVote(step)
    ensures Balanced(Apply(s, step).state.board, log)
  {
    if !WritesBoard(step) {
      OthersKeepBoard(s, step);
    } else {
      match step.call
      case RegisterTask(id) => RegisterKeepsBalance(s, id, log);
      case CancelTask(id) => CancelKeepsBalance(s, id, log);
      case ArchiveTask(id) => ArchiveKeepsBalance(s, id, log);
      case StartRewardStream(drips, contributor, id, dripsReturns) =>
        StartKeepsBalance(s, drips, contributor, id, dripsReturns, log);
    }
  }

  lemma OthersKeepVotes(s: State, step: Step)
    requires !IsVote(step)
    ensures Apply(s, step).state.board.allVotes == s.board.allVotes
  {
    if !WritesBoard(step) {
      OthersKeepBoard(s, step);
    }
  }

  lemma ClockNeverGoesBack(s: State, step: Step)
    ensures s.clock <= Apply(s, step).state.clock
  {
  }

  lemma StepKeepsAccounts(w: World, step: Step)
    requires Accounted(w)
    ensures Accounted(Next(w, step))
  {
    if IsVote(step) {
      VoteKeepsAccounts(w, step.call.guardian, step.call.taskId, step.call.vault);
    } else {
      StepKeepsIndexed(w, step);
      OthersKeepBalance(w.now, step, w.past.log);
      OthersKeepVotes(w.now, step);
      ClockNeverGoesBack(w.now, step);
    }
  }

  lemma {:induction false} RunKeepsAccounts(w: World, steps: seq<Step>)
    requires Accounted(w)
    ensures Accounted(Run(w, steps))
  {
    if steps != [] {
      RunKeepsAccounts(w, steps[..|steps| - 1]);
      StepKeepsAccounts(Run(w, steps[..|steps| - 1]), steps[|steps| - 1]);
    }
  }

  /** The log and every task record agree in every reachable state. */
  lemma ReachableAccounted(self: Address, clock: u64, balances: Balances, steps: seq<Step>)
    ensures Accounted(Run(Genesis(self, clock, balances), steps))
  {
    RunKeepsAccounts(Genesis(self, clock, balances), steps);
  }
}
