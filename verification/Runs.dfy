/**
 Whole runs: any sequence of invocations and outside events, from deployment on.

 The history beside the state is what an observer writes down. For a vote that is
 accepted it keeps the state the vote was cast in, so weight, threshold and time of
 a vote are those at cast time and owe nothing to the task record.
 */
module Runs {
  import opened Types
  import opened Ledger
  import opened Contract
  import Host

  datatype Cast = Cast(task: u64, guardian: Address, before: State) {
    /** The guardian's reputation when the vote was cast. */
    function Weight(): nat {
      if guardian in before.reputation then before.reputation[guardian] else 0
    }

    /** The threshold in force when the vote was cast. */
    function Threshold(): nat {
      before.WeightThreshold()
    }

    function Time(): nat {
      before.clock
    }
  }

  datatype History = History(log: seq<Cast>, removals: multiset<Address>)

  datatype World = World(now: State, past: History)

  predicate IsVote(step: Step) {
    step.Invoke? && step.call.Vote?
  }

  predicate IsRemoval(step: Step) {
    step.Invoke? && step.call.RemoveGuardian?
  }

  function Observe(h: History, s: State, step: Step, r: Outcome): History {
    History(
      if r.Ok? && IsVote(step) then h.log + [Cast(step.call.taskId, step.call.guardian, s)] else h.log,
      if r.Ok? && IsRemoval(step) then h.removals + multiset{step.call.guardian} else h.removals)
  }

  function Genesis(self: Address, clock: u64, balances: Balances): World {
    World(Host.Deployed(self, clock, balances), History([], multiset{}))
  }

  function Next(w: World, step: Step): World {
    var e := Apply(w.now, step);
    World(e.state, Observe(w.past, w.now, step, e.outcome))
  }

  function Run(w: World, steps: seq<Step>): World {
    if steps == [] then w
    else Next(Run(w, steps[..|steps| - 1]), steps[|steps| - 1])
  }

  lemma {:induction false} RunConcat(w: World, a: seq<Step>, b: seq<Step>)
    ensures Run(w, a + b) == Run(Run(w, a), b)
  {
    if b == [] {
      assert a + b == a;
    } else {
      RunConcat(w, a, b[..|b| - 1]);
      assert (a + b)[..|a + b| - 1] == a + b[..|b| - 1];
    }
  }

  /** A step that is refused or traps leaves everything as it was, also when it is a vote midway. */
  lemma RefusedStepsChangeNothing(w: World, step: Step)
    ensures !Apply(w.now, step).outcome.Ok? ==> Next(w, step) == w
  {
  }
}
