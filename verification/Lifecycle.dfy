/** What a run never takes back: registration, archived records, resolution, index entries. */
module Lifecycle {
  import opened Types
  import opened Ledger
  import opened Contract
  import opened Frames
  import opened Indexes
  import opened Runs

  ghost predicate RecordGrows(t: Task, u: Task) {
    && u.id == t.id
    && t.votes <= u.votes
    && t.accrued <= u.accrued
    && (t.isDone ==> u.isDone)
    && (t.isCancelled ==> u.isCancelled)
  }

  /** Unregistered to active to archived, never back; an archived record is final. */
  ghost predicate TasksGrow(a: Board, b: Board) {
    && (forall id | a.Registered(id) :: b.Registered(id) && RecordGrows(a.Record(id), b.Record(id)))
    && (forall id | id in a.archived :: id in b.archived && b.archived[id] == a.archived[id])
  }

  /** Each index of `a` is a prefix of the index of `b`; votes and streams stay. */
  ghost predicate IndexesGrow(a: Board, b: Board) {
    && a.allTasks <= b.allTasks
    && a.allVotes <= b.allVotes
    && a.allStreams <= b.allStreams
    && a.voted <= b.voted
    && (forall id | id in a.streams :: id in b.streams && b.streams[id] == a.streams[id])
  }

  ghost predicate BoardGrows(a: Board, b: Board) {
    TasksGrow(a, b) && IndexesGrow(a, b)
  }

  ghost predicate Grows(a: State, b: State) {
    && b.self == a.self
    && a.clock <= b.clock
    && BoardGrows(a.board, b.board)
    && a.roster.listed <= b.roster.listed
    && a.reputation.Keys <= b.reputation.Keys
    && (a.settings.initialized ==> b.settings.initialized && b.settings.token == a.settings.token)
  }

  lemma GrowsTransitive(a: State, b: State, c: State)
    requires Grows(a, b) && Grows(b, c)
    ensures Grows(a, c)
  {
  }

  ghost predicate GrowsBoard(s: State, step: Step) {
    BoardGrows(s.board, Apply(s, step).state.board)
  }

  lemma RegisterGrowsBoard(s: State, id: u64)
    ensures GrowsBoard(s, Invoke(RegisterTask(id)))
  {
    assert [id][0] == id;
  }

  lemma CancelGrowsBoard(s: State, id: u64)
    requires TaskIndex(s.board)
    ensures GrowsBoard(s, Invoke(CancelTask(id)))
  {
  }

  lemma VoteGrowsBoard(s: State, g: Address, id: u64, vault: Vault)
    requires TaskIndex(s.board)
    ensures GrowsBoard(s, Invoke(Vote(g, id, vault)))
  {
  }

  lemma ArchiveGrowsBoard(s: State, id: u64)
    requires TaskIndex(s.board)
    ensures GrowsBoard(s, Invoke(ArchiveTask(id)))
  {
  }

  lemma OthersGrowBoard(s: State, step: Step)
    requires !WritesBoard(step) || (step.Invoke? && step.call.StartRewardStream?)
    ensures GrowsBoard(s, step)
  {
    if !WritesBoard(step) {
      OthersKeepBoard(s, step);
    }
  }

  lemma StepGrowsBoard(s: State, step: Step)
    requires BoardIndexed(s.board)
    ensures GrowsBoard(s, step)
  {
    if !WritesBoard(step) {
      OthersGrowBoard(s, step);
    } else {
      match step.call
      case RegisterTask(id) => RegisterGrowsBoard(s, id);
      case CancelTask(id) => CancelGrowsBoard(s, id);
      case Vote(g, id, vault) => VoteGrowsBoard(s, g, id, vault);
      case ArchiveTask(id) => ArchiveGrowsBoard(s, id);
      case _ => OthersGrowBoard(s, step);
    }
  }

  lemma StepGrowsRoster(s: State, step: Step)
    ensures s.roster.listed <= Apply(s, step).state.roster.listed
  {
    if !WritesRoster(step) {
      OthersKeepRoster(s, step);
    }
  }

  lemma StepGrowsScores(s: State, step: Step)
    ensures s.reputation.Keys <= Apply(s, step).state.reputation.Keys
  {
  }

  lemma StepKeepsSetup(s: State, step: Step)
    ensures
      var t := Apply(s, step).state;
      && t.self == s.self
      && s.clock <= t.clock
      && (s.settings.initialized ==> t.settings.initialized && t.settings.token == s.settings.token)
  {
  }

  lemma StepGrows(s: State, step: Step)
    requires BoardIndexed(s.board)
    ensures Grows(s, Apply(s, step).state)
  {
    StepGrowsBoard(s, step);
    StepGrowsRoster(s, step);
    StepGrowsScores(s, step);
    StepKeepsSetup(s, step);
  }

  /** Over any stretch of any run, whatever happens in it. */
  lemma {:induction false} RunGrows(w: World, steps: seq<Step>)
    requires Indexed(w)
    ensures Grows(w.now, Run(w, steps).now)
  {
    if steps != [] {
      var before := Run(w, steps[..|steps| - 1]);
      RunGrows(w, steps[..|steps| - 1]);
      RunKeepsIndexed(w, steps[..|steps| - 1]);
      StepGrows(before.now, steps[|steps| - 1]);
      GrowsTransitive(w.now, before.now, Run(w, steps).now);
    }
  }

  lemma SecondVoteRefused(s: State, g: Address, id: u64, vault: Vault)
    requires (id, g) in s.board.voted
    ensures !Apply(s, Invoke(Vote(g, id, vault))).outcome.Ok?
  {
  }

  lemma SecondRegistrationRefused(s: State, id: u64)
    requires s.board.Registered(id)
    ensures !Apply(s, Invoke(RegisterTask(id))).outcome.Ok?
  {
    assert [id][0] == id;
  }

  /**
   A vote once cast stands for good: whatever the run does in between, archiving
   included, the same guardian cannot vote on that task again and the id cannot
   be registered afresh.
   */
  lemma VoteIsFinal(w: World, steps: seq<Step>, g: Address, id: u64, vault: Vault)
    requires Indexed(w) && (id, g) in w.now.board.voted
    ensures !Apply(Run(w, steps).now, Invoke(Vote(g, id, vault))).outcome.Ok?
    ensures !Apply(Run(w, steps).now, Invoke(RegisterTask(id))).outcome.Ok?
  {
    RunGrows(w, steps);
    assert w.now.board.Registered((id, g).0);
    SecondVoteRefused(Run(w, steps).now, g, id, vault);
    SecondRegistrationRefused(Run(w, steps).now, id);
  }

  /** `TaskAlreadyArchived` is never the answer of the public `archive_task` on a reachable state. */
  lemma AlreadyArchivedUnreachable(self: Address, clock: u64, balances: Balances, steps: seq<Step>, id: u64)
    ensures Apply(Run(Genesis(self, clock, balances), steps).now, Invoke(ArchiveTask(id))).outcome
            != Err(TaskAlreadyArchived)
  {
    ReachableIndexed(self, clock, balances, steps);
  }
}
