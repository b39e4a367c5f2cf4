/** Which steps can touch which part of the state; every other step leaves that part alone. */
module Frames {
  import opened Ledger
  import opened Contract

  predicate WritesBoard(step: Step) {
    && step.Invoke?
    && (step.call.RegisterTask? || step.call.CancelTask? || step.call.Vote?
        || step.call.ArchiveTask? || step.call.StartRewardStream?)
  }

  predicate WritesRoster(step: Step) {
    step.Invoke? && (step.call.AddGuardian? || step.call.RemoveGuardian? || step.call.ResignGuardian?)
  }

  predicate WritesEscrow(step: Step) {
    || step.Mint?
    || step.Pay?
    || (step.Invoke? && (step.call.LockTokens? || step.call.ResignGuardian? || step.call.UnlockTokens?))
  }

  lemma OthersKeepBoard(s: State, step: Step)
    requires !WritesBoard(step)
    ensures Apply(s, step).state.board == s.board
  {
  }

  lemma OthersKeepRoster(s: State, step: Step)
    requires !WritesRoster(step)
    ensures Apply(s, step).state.roster == s.roster
  {
  }

  lemma OthersKeepEscrow(s: State, step: Step)
    requires !WritesEscrow(step)
    ensures Apply(s, step).state.escrow == s.escrow
  {
  }
}
