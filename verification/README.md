# Vero Core: a verified model

Vero Core is a Soroban contract in which guardians who have locked tokens cast
reputation-weighted votes on registered tasks. This project models the contract's
whole stored state and every entry point that writes it, and proves what holds over
all runs: any sequence of invocations, with any arguments, mixed with the passing of
time and with token movements outside the contract.

## How it is built

- `Types`, `Ledger`: machine integers, records, error codes, and `State`, one field per
  storage key plus the ledger clock and the token balances.
- `Contract`: what each entry point does, as one atomic transition `Perform`; `Apply` adds
  the steps outside the contract (time, minting, payments between others).
- `Host`, `Guards`, `Tasks`, `Snapshots`, `VeroCore`: the contract as it is written.
  `Env` is the instance storage; the methods update it in place, take and release the
  mutex, and may stop halfway. Each is proved against its transition. `VeroCore.Execute`
  is the host around an invocation: it restores the captured storage unless the
  invocation ended normally, and is proved equal to `Perform`.
- `Consensus`: the pure tally module with its mutable state, and folds of it.
- `Runs`: runs from deployment, and the history an observer keeps. An accepted vote is
  logged with the state it was cast in, so its weight, threshold and time are those at
  cast time. A removal of a guardian is counted.
- `Frames`, `Indexes`, `Lifecycle`, `Accounting`, `Resolution`, `EscrowLaws`, `Controls`,
  `Traces`, `Paging`, `Answers`: the properties. `Answers` says of every call which of its
  answers it gives when.

Facts of the host that the model takes over: an invocation that ends with an error or a
trap has no effect; integer overflow traps; a vector holds at most 2^32 - 1 entries and a
push beyond that traps; ledger time never goes back; a token transfer traps on a negative
or uncovered amount and when the recipient would pass the i128 maximum; nobody but the
contract moves the contract's token balance downwards. A boolean key that is only read
through `unwrap_or(false)` is one boolean, false standing for absence.

`dafny verify dfyconfig.toml` checks everything.

## Where the code and its documentation differ

The model follows the code.

- `src/consensus.rs:8-9` and the verification report say that `vote` delegates to
  `apply_vote`. It does not: `src/lib.rs` never declares that module and repeats the tally
  inline. `Resolution.VoteRefinesConsensus` shows where the two agree, and that at a full
  vote counter the contract traps where the module saturates.
- `README.md:197` lists `set_weight_threshold` among the calls a pause blocks. It is not
  blocked: by `Traces.SettingsTold` a setting is made whatever the state.
- `release_funds` is called on every vote at or above the threshold, and `resolved_at` is
  overwritten by each; see `Resolution.ResolutionExplained`.
- A task resolved by votes at timestamp 0 alone can never be archived, because
  `resolved_at` 0 reads as unresolved; `Resolution.ArchivedExactlyWhenStale` has the exact
  condition.

## Properties that hold under a condition

- Solvency: from deployment on, the contract's balance covers all locks at every moment
  exactly when every lock by the contract's own address is refused or within the surplus at
  its moment (`EscrowLaws.CoveredExactly`, for one step `EscrowLaws.StepCovered`). The
  ledger guarantees that, since the contract never authorises its own lock
  (`EscrowLaws.ReachableSolvent`). A self lock books a deposit for a transfer to itself;
  `EscrowLaws.SelfLockBreaksSolvency` gives a failure, whose first lock takes the surplus
  and whose second no longer fits.
- Leaving always returns the full locked balance unless the recipient's balance would
  exceed the i128 maximum, and exactly then it traps (`EscrowLaws.GuaranteedExit`);
  `EscrowLaws.FullWalletCannotUnlock` gives a run to such a trap.
- No task is done below the threshold in force, at any moment of a run, exactly when every
  threshold set in it is at most the weight of every task resolved until then
  (`Controls.RespectedExactly`), in particular when it never rises
  (`Controls.ThresholdRespectedUnlessRaised`); `Controls.RaiseBreaksThreshold` gives a
  rise that breaks it.

## Model

| member | source | states |
|---|---|---|
| Paging.LosslessWalk | src/lib.rs:416-476 | In every reachable state, pages read at the u32 offsets k times min(limit, 32) past the longest list put together give exactly the active tasks, the votes, the reward streams, each listed guardian's standing, and the score of each that has one |
| Paging.InterleavedWalk | src/lib.rs:416-476 | With any steps at all before and between the pages, a walk past the lists it started with misses no vote, stream, listed guardian or listed guardian's score there at the start and no task that stays active, and reports nothing that is not there at the end |
| Paging.WalkFinishes | src/lib.rs:424-432 | Some number of pages, all at offsets that fit the u32 parameter, gets past a nonempty list exactly when the limit is at least 1 |
| Paging.OffsetIsMultiple | src/lib.rs:424-432 | A client that goes on by min(limit, 32) each time reads page n at n times that, and that is how many entries a page has room for |
| Snapshots.Slice | src/lib.rs:429-432 | The saturating 32-bit bounds are always in range and select, entry by entry, the min(limit, 32) entries from the offset on as far as the list goes |
| Snapshots.GetSnapshot | src/lib.rs:416-491 | The four loops build exactly what is stored under the keys of their page; the header is as stored, with threshold 300 if none is, and a key is shown exactly when it is listed within min(limit, 32) entries from the offset, with what is stored under it |
| Snapshots.SnapshotBoard | src/lib.rs:440-476 | A page shows exactly the active tasks, votes and streams listed at a position from the offset to below offset plus min(limit, 32), each with its record |
| Snapshots.SnapshotGuardians | src/lib.rs:429-438 | The same of guardians and their standing, and of scores for those of them that have one |
| Answers.HeaderTold | src/lib.rs:417-422 | After any run the header shows the pause flag as last settled, the failures since the last reset, the threshold last set or 300, the vault last set, and no admin or Drips address |
| Snapshots.ReadGuardians | src/lib.rs:433-438 | Every guardian of the page gets its standing, and exactly those with a score get their score |
| Indexes.ReachableIndexed | src/guardian.rs:12-18 | In every reachable state all four index lists agree with the keyed storage, `AllGuardians` counts removals, every stream's task is still done, and the mutex is free |
| Indexes.StepKeepsBoard | src/task.rs:9-45 | Whatever the step, task ids stay the duplicate-free disjoint union of active and archived keys under their own ids, votes stay in bijection with the vote keys on registered tasks, streams with the stream keys of done tasks |
| Indexes.BatchKeepsTaskIndex | src/task.rs:23-41 | A batch of any content goes in whole, appended in order, or not at all |
| Indexes.BatchAccepted | src/task.rs:9-27 | A batch is accepted exactly when it has at most 32 ids and the list of all tasks stays free of duplicates with it |
| Tasks.WriteRecords | src/task.rs:23-38 | The loop over the batch succeeds exactly when no id is registered and none repeats, and then has written a fresh record for each |
| Tasks.RegisterTasks | src/task.rs:9-45 | Refines the all-or-nothing transition; whoever took the mutex frees it on every exit but a trap, and a held mutex refuses the call without effect |
| Tasks.CancelTask | src/task.rs:58-78 | Refines the transition that marks the record under its own id, which `Answers.CancelAnswers` shows to accept every active task; the mutex is as it was on every exit |
| Answers.TaskAnswers | src/task.rs:9-78 | After any run `register_task` answers ContractPaused while paused, NotAuthorized for an id once registered, and is otherwise accepted while the list has room; `cancel_task` answers ContractPaused while paused, is accepted from the registration of the task to its archiving whatever its votes, and answers NotAuthorized otherwise |
| Answers.CancelAnswers | src/lib.rs:221-228 | The same of any stored state: accepted exactly when unpaused, the mutex free and the task active, Locked exactly when unpaused under a held mutex |
| Answers.BatchAnswers | src/task.rs:9-45 | A batch of more than 32 ids is too large, then a held mutex answers Locked, then a duplicate answers NotAuthorized, then a full list traps, each exactly then |
| Lifecycle.RunGrows | src/storage.rs:32-53 | Over any stretch of any run tasks only move from unregistered to active to archived, archived records and streams are final, resolution, weight and vote count never go back, each index list is a prefix of the later one, nobody loses a score, and the token is fixed at initialisation |
| Lifecycle.VoteIsFinal | src/lib.rs:254-258 | After any further run, the same vote is refused and so is a fresh registration of its task, also once it is archived |
| Lifecycle.AlreadyArchivedUnreachable | src/storage.rs:33-35 | `archive_task` never answers `TaskAlreadyArchived` in a reachable state |
| Storage.ArchiveTask | src/storage.rs:32-53 | The move with saturating age arithmetic accepts exactly an unarchived, resolved record more than 2,592,000 seconds old, and moves it unchanged |
| Answers.MoveAnswers | src/storage.rs:32-53 | In any state, consistent or not: TaskAlreadyArchived, TaskNotFound, TaskNotVerified and TaskNotStale each exactly when, in this order, with 2,592,000 seconds as the age to pass |
| Accounting.ReachableAccounted | src/lib.rs:260-325 | In every reachable state every record matches the log of accepted votes in weight, count, resolution, time of resolution and tally, the log mirrors `AllVotes` in order of time, and every vote in it was eligible when cast |
| Accounting.VoteKeepsBalance | src/lib.rs:287-325 | An accepted vote changes one record by exactly that vote's weight at cast time and leaves every other record matching its own votes |
| Accounting.Appended | src/lib.rs:287-305 | One more vote adds exactly its weight and count to its own task, and resolves it exactly when the weight then reached meets the threshold in force |
| Resolution.VotesNeverExceedWeight | src/lib.rs:287-294 | votes is at most the accrued weight, which is the sum of the weights at cast time and fits a u64, whatever reputations became later |
| Resolution.OneVotePerPair | src/lib.rs:235-271 | `AllVotes` is duplicate-free and lists exactly the vote keys; each vote was cast by a guardian holding more than the lock threshold with a nonzero score, on an active task that was not cancelled |
| Resolution.VoteAcceptedExactly | src/lib.rs:230-330 | In a reachable state `vote` accepts exactly an eligible vote that is the guardian's first on the task, fits a u64 with the weights cast so far and the vote list, and whose vault call, if it makes one, returns; the u32 counter of the task never decides |
| Answers.VoteAnswers | src/lib.rs:230-330 | In any state, with the mutex held or not, each of the eleven errors of `vote` and the trap has its exact condition over the stored fields |
| Answers.LoggedVoteAnswers | src/lib.rs:254-294 | After any run a voter with enough at stake is told DuplicateVote exactly when a vote of its own on the task is in the log, NoReputationScore exactly when none is and it has no score, and WeightOverflow exactly when its weight and all weights cast on the open task reach 2^64; Locked never |
| Resolution.ResolutionExplained | src/lib.rs:296-304 | A task is done exactly when one of its votes brought its weight to the threshold in force at that vote, and `resolved_at` is the time of the last such vote, 0 if there is none |
| Resolution.ResolvedAtIsLast | src/lib.rs:302-304 | The recorded resolution time belongs to the last vote that met its threshold |
| Resolution.ResolutionIsFinal | src/lib.rs:189-195 | A done task stays done through any further run, with any threshold changes, cancellation and archiving |
| Answers.ThresholdTold | src/lib.rs:197-202 | The threshold in force is the one last set in the run, 300 if none was |
| Answers.VotedUnderThreshold | src/lib.rs:296-300 | Every logged vote is a vote step of the run, measured against the threshold last set before that step, 300 if none was |
| Answers.ResolvedByDefault | src/lib.rs:296-304 | In a run that sets no threshold a task is done exactly when its votes weigh 300 or more |
| Resolution.ArchivedExactlyWhenStale | src/lib.rs:337-343 | `archive_task` accepts exactly an active task, while not paused, that some vote after time 0 resolved and whose threshold-meeting votes are all more than 2,592,000 seconds old |
| Answers.ArchiveAnswers | src/lib.rs:337-343 | After any run a refused `archive_task` answers ContractPaused while paused, TaskNotFound if the task is not active, TaskNotVerified if no vote after time 0 met the threshold, and TaskNotStale if one did but some threshold-meeting vote is at most 2,592,000 seconds old; each exactly then |
| Resolution.VoteRefinesConsensus | src/consensus.rs:66-91 | Past admission, `vote` and `apply_vote` reject zero weight and overflow on the same inputs and otherwise give the same tally, except at a full counter, where one traps and the other saturates |
| Resolution.RecordsReplay | src/consensus.rs:8-9 | Over a whole run every record's tally is what `apply_vote` gives when fed the task's votes in order, each under the threshold then in force |
| Resolution.OrderOfVotesIrrelevant | src/consensus.rs:57-59 | Two tasks that got the same weights in any order under one threshold have the same tally, done exactly when there was a vote and the weight reaches the threshold |
| Consensus.ConsensusState.Apply | src/consensus.rs:66-91 | Refines the pure step; a rejected vote leaves the state untouched, done is never cleared, and a vote that makes a task done meets the threshold |
| Consensus.FoldAccepts | src/consensus.rs:66-91 | Under a fixed threshold a sequence is accepted in full exactly when all weights are nonzero and their sum fits a u64; then accrued is the sum, votes the capped count, and done means nonempty and sum at least the threshold |
| Consensus.FoldPermuted | src/consensus.rs:66-91 | Accepted votes give the same state in every order |
| Consensus.LowerThresholdResolvesNoLater | src/consensus.rs:84-88 | For every prefix of votes, what a higher threshold resolves a lower one has resolved, with equal weights and counts |
| Consensus.FoldResolution | src/consensus.rs:97-110 | The resolution invariant holds of every state a fold reaches, rejected votes included, and done means exactly that a positive weight meets the threshold |
| EscrowLaws.TokensConserved | src/lib.rs:90-168 | Across every call, balance minus the sum of all locks moves by exactly the self drift, 0 unless the contract acts for itself; wallet plus locked of everyone else is unchanged, and no other token moves; before initialisation no call moves anything |
| EscrowLaws.ReachableSolvent | src/lib.rs:90-168 | At every moment of a run without a self lock the contract's balance covers all locks and no lock is negative |
| EscrowLaws.StepCovered | src/lib.rs:90-168 | Where the balance covers all locks and none is negative, any step keeps it so exactly when it is not an own lock of the contract that is accepted and exceeds the surplus, told from the state before the step |
| EscrowLaws.CoveredExactly | src/lib.rs:90-168 | From deployment the locks are covered at every moment of a run exactly when every step of it fits at its moment |
| EscrowLaws.SelfLockBreaksSolvency | src/lib.rs:103-108 | Two self locks of 5 against a balance of 5: the first uses up the surplus, the second leaves the contract owing 5 more than it holds |
| EscrowLaws.GuaranteedExit | src/lib.rs:113-168 | In every initialised state of a run whose steps fit, paused or not, for every address, exactly one of resign and unlock is open, it pays out the full locked balance and ends guardianship, and it can fail only because the recipient's balance would overflow, exactly then |
| EscrowLaws.FullWalletCannotUnlock | src/lib.rs:155-165 | A holder of the i128 maximum who locks 1 and is minted 1 cannot unlock: the call traps and changes nothing |
| EscrowLaws.LockNeverOverflows | src/lib.rs:103-108 | Where the locks are covered, the call is accepted exactly when the transfer goes through; the addition after it can overflow only if the contract locks for itself, exactly when its own deposit would pass the maximum |
| Answers.EscrowAnswers | src/lib.rs:90-111 | In any state `lock_tokens` answers NotInitialized exactly when there is no token, is accepted exactly when the amount is nonnegative, covered and fits both the balance of the contract and the deposit, and traps otherwise |
| Answers.ExitAnswers | src/lib.rs:113-168 | In any state each of NotInitialized, NotGuardian, StillGuardian, acceptance and trap of `resign_guardian` and `unlock_tokens` has its exact condition |
| VeroCore.LockTokens | src/lib.rs:90-111 | Refines its transition, with the tokens already moved where the addition traps |
| VeroCore.ResignGuardian | src/lib.rs:113-141 | Refines its transition, with the flag already cleared where the transfer traps |
| VeroCore.UnlockTokens | src/lib.rs:143-168 | Refines its transition |
| VeroCore.AdmitVoter | src/lib.rs:230-266 | Stops at the first refused check, with the error for which `Answers.VoteAnswers` has the exact condition; the mutex is held afterwards exactly when the voter was admitted or it was held before |
| VeroCore.Vote | src/lib.rs:230-331 | Refines the transition that `Answers.VoteAnswers` speaks of: although the vault may call back into vote, register_task and cancel_task any number of times between reading and writing the record, every such call answers `Locked`, the record written is exactly one vote on top of the record read, and the mutex is free on every exit but a trap |
| VeroCore.CallBack | src/reentrancy.rs:6-12 | A guarded entry point called while the mutex is held answers `Locked` and changes nothing |
| VeroCore.Execute | src/circuit_breaker.rs:21-24 | Whatever an invocation wrote before it failed is undone, so that body and host together are the atomic transition |
| CircuitBreaker.Record | src/circuit_breaker.rs:25-45 | Refines its transition, pausing once the count is above 50 |
| Controls.PauseFreezes | src/circuit_breaker.rs:9-19 | Over any stretch that stays paused the board, the reputations and the guardian list are constant and guardians can only leave |
| Controls.FailuresCounted | src/circuit_breaker.rs:25-33 | The counter is the number of failures since the last reset, read off the steps, up to the u32 maximum |
| Controls.BreakerTrips | src/circuit_breaker.rs:35-44 | Right after the n-th failure since the last reset the contract is paused exactly when it was before or n is above 50 |
| Controls.GuardiansCounted | src/guardian.rs:7-34 | An address occurs in `AllGuardians` once per successful removal and once more while its key is stored, so every current guardian is listed |
| Controls.ThresholdRespectedUnlessRaised | src/consensus.rs:97-110 | If the threshold never rises in a run, at no moment of it is a task done below the threshold in force |
| Controls.StepRespectsThreshold | src/lib.rs:189-195 | Where no task is done below the threshold in force, any step keeps that so exactly when it is not the setting of a threshold above the weight of some task its votes have resolved |
| Controls.RespectedExactly | src/consensus.rs:97-110 | The resolution invariant holds of every task at every moment of a run exactly when every threshold set in the run is supported by the votes cast until then |
| Controls.RaiseBreaksThreshold | src/lib.rs:189-195 | One vote of weight 1 resolves a task at threshold 1; setting threshold 2 then leaves it done below the threshold |
| Traces.TasksTold | src/task.rs:58-78 | A task is registered, archived or cancelled exactly when such a call was accepted at some point of the run |
| Traces.CancelledStandsStill | src/lib.rs:282-285 | A cancelled task's record never changes again |
| Traces.StreamsTold | src/drips.rs:26-57 | A stream to a contributor is on record exactly when it was once started, and then for good |
| Resolution.StreamAcceptedExactly | src/drips.rs:5-60 | In a reachable state `start_reward_stream` accepts, while not paused, exactly an active, uncancelled task resolved by its votes that has no stream yet, if Drips returns; the stream list is never full before that |
| Answers.StreamAnswers | src/drips.rs:5-60 | After any run a refused `start_reward_stream` answers, each exactly then, ContractPaused, NotAuthorized for a task not active, TaskCancelled, TaskNotVerified if no vote resolved it, StreamAlreadyActive, and traps if Drips does |
| Drips.StartDripsStream | src/drips.rs:5-60 | Refines the guarded transition that lists and stores the stream under its own task id |
| Traces.GuardiansTold | src/guardian.rs:36-39 | An address is a guardian exactly when the last accepted call about it was its addition; `Answers.GuardianAnswers` says when such calls are accepted |
| Answers.GuardianAnswers | src/guardian.rs:7-34 | After any run, while not paused, `add_guardian` takes anyone, also after a removal or resignation, and makes a guardian of them, unless a new entry finds the list full; `remove_guardian` traps exactly for an address listed no more often than it was removed; `set_reputation` takes any score; while paused all three answer ContractPaused |
| Traces.ReputationsTold | src/lib.rs:170-179 | Everybody's score is the one last set for them by an accepted call |
| Traces.DepositsTold | src/lib.rs:90-168 | Everybody's locked balance is the sum of their accepted locks since their last accepted resignation or unlock, and is never negative |
| Traces.SettingsTold | src/lib.rs:32-42 | Token and lock threshold are those of the first initialisation found from the start of the run, weight threshold and vault those of the last call that sets them found from its end, in whatever state, paused or not; for a threshold never set see `Answers.ThresholdTold` |
| Traces.PauseTold | src/lib.rs:48-65 | The pause flag is the value given by the last step that settles it (a pause, an unpause, a reset, the first initialisation, a failure beyond the 50th since the last reset), false if there is none, turned over once for each toggle after that step |
| Answers.ControlAnswers | src/lib.rs:32-65 | After any run a second `initialize` answers AlreadyInitialized, `record_failure` traps once 2^32 - 1 failures are counted, and every other control is accepted in every state |
| Traces.ClockTold | src/lib.rs:304 | The clock read by the contract is the starting time and the seconds passed since, and no call moves it |
| Runs.RefusedStepsChangeNothing | src/circuit_breaker.rs:21-24 | A refused or trapping step leaves state and history as they were |

## Left out

- Authorisation (`require_auth`), admin identity and signatures: host calls; every caller is taken as authorised.
- The inside of the token, vault and Drips contracts: the token is a balance map, the vault a sequence of guarded calls back and a success flag, Drips returns or traps.
- Calls back into entry points without the mutex, and calls back from the token or from Drips.
- Token balances held by classic accounts, whose limit is that of an i64, and clawback of the contract's own tokens.
- `register_tasks` as an entry point of its own: it is not one in the contract; it is modelled as the batch behind `register_task`.
- The read-only views other than `get_snapshot`.
- `upgrade_contract`, time-to-live extension and deployment.
- Event publishing, of which the history keeps what the properties need.
- The table of gas costs (src/gas.rs).
