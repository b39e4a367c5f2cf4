/** Token conservation, solvency and the guaranteed way out. */
module EscrowLaws {
  import opened Types
  import opened Ledger
  import opened Contract
  import opened Frames
  import opened Runs

  // ----- sums of locked balances -----

  ghost function Pick(m: map<Address, i128>): (g: Address)
    requires m != map[]
    ensures g in m
  {
    var g :| g in m; g
  }

  ghost function Sum(m: map<Address, i128>): int {
    if m == map[] then 0
    else
      var g := Pick(m);
      m[g] + Sum(m - {g})
  }

  lemma {:induction false} SumSplit(m: map<Address, i128>, g: Address)
    requires g in m
    ensures Sum(m) == m[g] + Sum(m - {g})
    decreases |m|
  {
    var p := Pick(m);
    if p != g {
      SumSplit(m - {p}, g);
      SumSplit(m - {g}, p);
      assert m - {p} - {g} == m - {g} - {p};
    }
  }

  lemma SumUpdate(m: map<Address, i128>, g: Address, v: i128)
    ensures Sum(m[g := v]) == Sum(m) - LockedIn(m, g) + v
  {
    SumSplit(m[g := v], g);
    assert m[g := v] - {g} == m - {g};
    if g in m {
      SumSplit(m, g);
    } else {
      assert m - {g} == m;
    }
  }

  ghost predicate NoneNegative(m: map<Address, i128>) {
    forall g | g in m :: m[g] >= 0
  }

  lemma {:induction false} SumBound(m: map<Address, i128>, g: Address)
    requires NoneNegative(m)
    ensures 0 <= LockedIn(m, g) <= Sum(m)
    decreases |m|
  {
    if m != map[] {
      var p := Pick(m);
      SumBound(m - {p}, g);
    }
  }

  // ----- one invocation -----

  /** What the contract holds in its token beyond what it owes to those who locked. */
  ghost function Surplus(s: State): int
    requires s.settings.token.Some?
  {
    s.Balance(s.settings.token.value, s.self) - Sum(s.escrow.locked)
  }

  /** What belongs to `g`: in the wallet or in the contract's custody. */
  function Worth(s: State, g: Address): int
    requires s.settings.token.Some?
  {
    s.Balance(s.settings.token.value, g) + s.LockedBalance(g)
  }

  /**
   The one way an invocation moves the surplus: the contract's own address locking or
   taking back tokens, which is a transfer to itself with a deposit booked or cleared.
   (On the ledger the contract never authorises that for itself.)
   */
  function SelfDrift(s: State, c: Call): int {
    match c
    case LockTokens(g, amount) => var a: int := amount; if g == s.self then -a else 0
    case ResignGuardian(g) => if g == s.self then Max0(s.LockedBalance(g)) else 0
    case UnlockTokens(g) => if g == s.self then Max0(s.LockedBalance(g)) else 0
    case _ => 0
  }

  function Max0(x: int): int {
    if x < 0 then 0 else x
  }

  /** `t` has the same tokens outside custody plus custody, and `drift` more surplus. */
  ghost predicate Conserved(s: State, t: State, drift: int)
    requires s.settings.token.Some? && t.settings.token.Some?
  {
    && t.settings.token == s.settings.token
    && Surplus(t) == Surplus(s) + drift
    && (forall g: Address | g != s.self :: Worth(t, g) == Worth(s, g))
    && (forall token, holder | token != s.settings.token.value :: t.Balance(token, holder) == s.Balance(token, holder))
  }

  lemma LockConserves(s: State, g: Address, amount: i128)
    requires s.settings.token.Some? && LockTokensEffect(s, g, amount).outcome.Ok?
    ensures Conserved(s, LockTokensEffect(s, g, amount).state, if g == s.self then -amount else 0)
  {
    SumUpdate(s.escrow.locked, g, s.LockedBalance(g) + amount);
  }

  lemma PayoutConserves(s: State, g: Address)
    requires s.settings.token.Some? && Payout(s, s.settings.token.value, g).Some?
    ensures Conserved(s, s.(escrow := Payout(s, s.settings.token.value, g).value),
                      if g == s.self then Max0(s.LockedBalance(g)) else 0)
  {
    if s.LockedBalance(g) > 0 {
      SumUpdate(s.escrow.locked, g, 0);
    }
  }

  lemma ResignConserves(s: State, g: Address)
    requires s.settings.token.Some? && ResignGuardianEffect(s, g).outcome.Ok?
    ensures Conserved(s, ResignGuardianEffect(s, g).state, SelfDrift(s, ResignGuardian(g)))
  {
    PayoutConserves(s, g);
  }

  lemma UnlockConserves(s: State, g: Address)
    requires s.settings.token.Some? && UnlockTokensEffect(s, g).outcome.Ok?
    ensures Conserved(s, UnlockTokensEffect(s, g).state, SelfDrift(s, UnlockTokens(g)))
  {
    PayoutConserves(s, g);
  }

  lemma OthersConserve(s: State, c: Call)
    requires s.settings.initialized && s.settings.token.Some? && !WritesEscrow(Invoke(c))
    ensures Perform(s, c).state.settings.token == s.settings.token
    ensures Conserved(s, Perform(s, c).state, 0)
  {
    OthersKeepEscrow(s, Invoke(c));
    OthersKeepToken(s, c);
  }

  lemma OthersKeepToken(s: State, c: Call)
    requires s.settings.initialized
    ensures Perform(s, c).state.settings.token == s.settings.token && Perform(s, c).state.self == s.self
  {
  }

  /**
   Token conservation: whatever is invoked, with any arguments, nobody but the
   contract gains or loses, no other token is touched, and the surplus moves by
   exactly the self drift of the call. Before there is a token nothing moves at all.
   */
  lemma TokensConserved(s: State, c: Call)
    requires s.settings.token.Some? ==> s.settings.initialized
    ensures s.settings.token.None? ==> Perform(s, c).state.escrow == s.escrow
    ensures s.settings.token.Some? ==>
              && Perform(s, c).state.settings.token.Some?
              && Conserved(s, Perform(s, c).state, if Perform(s, c).outcome.Ok? then SelfDrift(s, c) else 0)
  {
    if !WritesEscrow(Invoke(c)) {
      OthersKeepEscrow(s, Invoke(c));
      if s.settings.token.Some? {
        OthersConserve(s, c);
      }
    } else if s.settings.token.Some? {
      OthersKeepToken(s, c);
      if Perform(s, c).outcome.Ok? {
        match c
        case LockTokens(g, amount) => LockConserves(s, g, amount);
        case ResignGuardian(g) => ResignConserves(s, g);
        case UnlockTokens(g) => UnlockConserves(s, g);
      }
    }
  }

  // ----- one step and the coverage of the locks -----

  predicate SelfLock(self: Address, step: Step) {
    step.Invoke? && step.call.LockTokens? && step.call.guardian == self
  }

  /** What the contract holds covers all locks, and no lock is negative. */
  ghost predicate Covered(s: State) {
    && (s.settings.initialized <==> s.settings.token.Some?)
    && (s.settings.token.None? ==> s.escrow.locked == map[])
    && NoneNegative(s.escrow.locked)
    && (s.settings.token.Some? ==> Surplus(s) >= 0)
  }

  /**
   The step is not the contract locking more of its own tokens than are free. (A self
   lock that is refused is harmless: of a negative amount, beyond the balance, or past
   the i128 maximum.)
   */
  ghost predicate Fits(s: State, step: Step) {
    SelfLock(s.self, step) && s.settings.token.Some? ==>
      var amount := step.call.amount;
      || amount < 0
      || amount > s.Balance(s.settings.token.value, s.self)
      || s.LockedBalance(s.self) + amount > I128_MAX
      || amount <= Surplus(s)
  }

  lemma LockCovered(s: State, g: Address, amount: i128)
    requires Covered(s)
    ensures Covered(LockTokensEffect(s, g, amount).state) <==> Fits(s, Invoke(LockTokens(g, amount)))
  {
    if LockTokensEffect(s, g, amount).outcome.Ok? {
      LockConserves(s, g, amount);
    }
  }

  lemma PayoutKeepsCovered(s: State, g: Address)
    requires Covered(s) && s.settings.token.Some? && Payout(s, s.settings.token.value, g).Some?
    ensures Covered(s.(escrow := Payout(s, s.settings.token.value, g).value))
  {
    PayoutConserves(s, g);
  }

  lemma PayingCallsKeepCovered(s: State, g: Address)
    requires Covered(s)
    ensures Covered(ResignGuardianEffect(s, g).state)
    ensures Covered(UnlockTokensEffect(s, g).state)
  {
    if s.settings.token.Some? && Payout(s, s.settings.token.value, g).Some? {
      PayoutKeepsCovered(s, g);
      var paid := s.(escrow := Payout(s, s.settings.token.value, g).value);
      assert Surplus(paid.(roster := paid.roster.(flags := paid.roster.flags[g := false]))) == Surplus(paid);
    }
  }

  lemma OutsideKeepsCovered(s: State, step: Step)
    requires Covered(s) && (step.Mint? || step.Pay? || step.Tick?)
    ensures Covered(Apply(s, step).state)
  {
  }

  lemma InitializeKeepsCovered(s: State, token: Address, lockThreshold: i128)
    requires Covered(s)
    ensures Covered(InitializeEffect(s, token, lockThreshold).state)
  {
  }

  lemma OthersKeepCovered(s: State, c: Call)
    requires Covered(s) && !c.Initialize? && !WritesEscrow(Invoke(c))
    ensures Covered(Perform(s, c).state)
  {
    OthersKeepEscrow(s, Invoke(c));
    OthersKeepSetup(s, c);
  }

  lemma OthersKeepSetup(s: State, c: Call)
    requires !c.Initialize?
    ensures Perform(s, c).state.settings.token == s.settings.token
    ensures Perform(s, c).state.settings.initialized == s.settings.initialized
    ensures Perform(s, c).state.self == s.self
  {
  }

  /** A step leaves the locks covered exactly when it fits; whether it does is known before it. */
  lemma StepCovered(s: State, step: Step)
    requires Covered(s)
    ensures Covered(Apply(s, step).state) <==> Fits(s, step)
  {
    if !step.Invoke? {
      OutsideKeepsCovered(s, step);
    } else {
      match step.call
      case LockTokens(g, amount) => LockCovered(s, g, amount);
      case ResignGuardian(g) => PayingCallsKeepCovered(s, g);
      case UnlockTokens(g) => PayingCallsKeepCovered(s, g);
      case Initialize(token, lockThreshold) => InitializeKeepsCovered(s, token, lockThreshold);
      case _ => OthersKeepCovered(s, step.call);
    }
  }

  // ----- whole runs -----

  /** The locks are covered at every moment of the run. */
  ghost predicate AlwaysCovered(w: World, steps: seq<Step>) {
    Covered(Run(w, steps).now) && (steps != [] ==> AlwaysCovered(w, steps[..|steps| - 1]))
  }

  /** Every step of the run fits at the moment it is taken. */
  ghost predicate AllFit(w: World, steps: seq<Step>) {
    steps != [] ==>
      && AllFit(w, steps[..|steps| - 1])
      && Fits(Run(w, steps[..|steps| - 1]).now, steps[|steps| - 1])
  }

  lemma {:induction false} CoveredIffAllFit(w: World, steps: seq<Step>)
    requires Covered(w.now)
    ensures AlwaysCovered(w, steps) <==> AllFit(w, steps)
  {
    if steps != [] {
      var n := |steps| - 1;
      CoveredIffAllFit(w, steps[..n]);
      if AllFit(w, steps[..n]) {
        StepCovered(Run(w, steps[..n]).now, steps[n]);
      }
    }
  }

  /** From deployment on the locks stay covered at every moment exactly when every self lock fits. */
  lemma CoveredExactly(self: Address, clock: u64, balances: Balances, steps: seq<Step>)
    ensures AlwaysCovered(Genesis(self, clock, balances), steps) <==> AllFit(Genesis(self, clock, balances), steps)
  {
    CoveredIffAllFit(Genesis(self, clock, balances), steps);
  }

  ghost predicate NoSelfLock(self: Address, steps: seq<Step>) {
    forall i | 0 <= i < |steps| :: !SelfLock(self, steps[i])
  }

  lemma StepKeepsSelf(s: State, step: Step)
    ensures Apply(s, step).state.self == s.self
  {
  }

  lemma {:induction false} RunKeepsSelf(w: World, steps: seq<Step>)
    ensures Run(w, steps).now.self == w.now.self
  {
    if steps != [] {
      RunKeepsSelf(w, steps[..|steps| - 1]);
      StepKeepsSelf(Run(w, steps[..|steps| - 1]).now, steps[|steps| - 1]);
    }
  }

  lemma {:induction false} NoSelfLockFits(w: World, steps: seq<Step>)
    requires NoSelfLock(w.now.self, steps)
    ensures AllFit(w, steps)
  {
    if steps != [] {
      NoSelfLockFits(w, steps[..|steps| - 1]);
      RunKeepsSelf(w, steps[..|steps| - 1]);
    }
  }

  /** Solvency at every moment of a run in which the contract never locks its own tokens. */
  lemma ReachableSolvent(self: Address, clock: u64, balances: Balances, steps: seq<Step>)
    requires NoSelfLock(self, steps)
    ensures AlwaysCovered(Genesis(self, clock, balances), steps)
  {
    NoSelfLockFits(Genesis(self, clock, balances), steps);
    CoveredExactly(self, clock, balances, steps);
  }

  /**
   Without a condition solvency fails: a contract deployed with 5 tokens that locks
   them twice owes 10. (On the ledger the contract would have to authorise its own lock.)
   The first lock fits and takes the whole surplus, the second does not.
   */
  lemma SelfLockBreaksSolvency(self: Address, token: Address)
    ensures
      var deployed := Genesis(self, 0, map[(token, self) := 5]).now;
      var ready := Perform(deployed, Initialize(token, 0)).state;
      var once := Perform(ready, LockTokens(self, 5)).state;
      var twice := Perform(once, LockTokens(self, 5)).state;
      && once.settings.token.Some? && Surplus(once) == 0
      && twice.settings.token.Some? && Surplus(twice) == -5
  {
    var ready := Perform(Genesis(self, 0, map[(token, self) := 5]).now, Initialize(token, 0)).state;
    assert ready.settings.token == Some(token) && ready.Balance(token, self) == 5;
    LockConserves(ready, self, 5);
    LockConserves(LockTokensEffect(ready, self, 5).state, self, 5);
  }

  // ----- locking and leaving -----

  /** Nobody's deposit can overflow once the transfer has gone through, unless the contract locks for itself. */
  lemma LockNeverOverflows(s: State, g: Address, amount: i128)
    requires Covered(s) && s.settings.token.Some?
    ensures LockTokensEffect(s, g, amount).outcome.Ok? <==>
            && Transfer(s.escrow.balances, s.settings.token.value, g, s.self, amount).Some?
            && (g == s.self ==> s.LockedBalance(g) + amount <= I128_MAX)
  {
    SumBound(s.escrow.locked, g);
  }

  /** What `g` can call its own once it has left: its deposit comes back, unless `g` is the contract itself. */
  function AfterExit(s: State, g: Address): int
    requires s.settings.token.Some?
  {
    if g == s.self then s.Balance(s.settings.token.value, g) else Worth(s, g)
  }

  /** The contract can always cover a pay-out: it fails only if the recipient's balance would overflow. */
  lemma PayoutCovered(s: State, g: Address)
    requires Covered(s) && s.settings.token.Some?
    ensures Payout(s, s.settings.token.value, g).Some? <==> AfterExit(s, g) <= I128_MAX
  {
    SumBound(s.escrow.locked, g);
  }

  lemma PayoutPays(s: State, g: Address)
    requires Covered(s) && s.settings.token.Some?
    requires Payout(s, s.settings.token.value, g).Some?
    ensures
      var t := s.(escrow := Payout(s, s.settings.token.value, g).value);
      t.LockedBalance(g) == 0 && t.Balance(s.settings.token.value, g) == AfterExit(s, g)
  {
  }

  /**
   A guardian resigns, anyone else unlocks, the other call is the one refused, and the
   accepted one returns the full locked balance. The only thing that can stop it is a
   recipient whose balance cannot hold the amount.
   */
  ghost predicate ExitGuaranteed(s: State, g: Address)
    requires s.settings.token.Some?
  {
    var exit := if s.IsGuardian(g) then ResignGuardian(g) else UnlockTokens(g);
    var other := if s.IsGuardian(g) then UnlockTokens(g) else ResignGuardian(g);
    var e := Perform(s, exit);
    && Perform(s, other).outcome == Err(if s.IsGuardian(g) then StillGuardian else NotGuardian)
    && e.outcome == (if AfterExit(s, g) <= I128_MAX then Ok else Trap)
    && (e.outcome.Ok? ==>
          && !e.state.IsGuardian(g)
          && e.state.LockedBalance(g) == 0
          && e.state.Balance(s.settings.token.value, g) == AfterExit(s, g))
  }

  lemma CoveredExit(s: State, g: Address)
    requires Covered(s) && s.settings.token.Some?
    ensures ExitGuaranteed(s, g)
  {
    PayoutCovered(s, g);
    if AfterExit(s, g) <= I128_MAX {
      PayoutPays(s, g);
    }
  }

  /** For every address, the contract's own included, in every initialised state of a fitting run, paused or not. */
  lemma GuaranteedExit(self: Address, clock: u64, balances: Balances, steps: seq<Step>, g: Address)
    requires AllFit(Genesis(self, clock, balances), steps)
    requires Run(Genesis(self, clock, balances), steps).now.settings.initialized
    ensures Run(Genesis(self, clock, balances), steps).now.settings.token.Some?
    ensures ExitGuaranteed(Run(Genesis(self, clock, balances), steps).now, g)
  {
    CoveredExactly(self, clock, balances, steps);
    CoveredExit(Run(Genesis(self, clock, balances), steps).now, g);
  }

  /** The exit that traps is reachable: a holder of all an i128 can count locks 1, is minted 1, and cannot unlock. */
  lemma FullWalletCannotUnlock(self: Address, token: Address, g: Address)
    requires g != self
    ensures
      var deployed := Genesis(self, 0, map[(token, g) := 0x7FFF_FFFF_FFFF_FFFF_FFFF_FFFF_FFFF_FFFF]).now;
      var ready := Perform(deployed, Initialize(token, 0)).state;
      var locked := Perform(ready, LockTokens(g, 1)).state;
      var minted := Apply(locked, Mint(token, g, 1)).state;
      && minted.LockedBalance(g) == 1
      && Perform(minted, UnlockTokens(g)) == Abort(minted)
  {
    var deployed := Genesis(self, 0, map[(token, g) := 0x7FFF_FFFF_FFFF_FFFF_FFFF_FFFF_FFFF_FFFF]).now;
    var ready := Perform(deployed, Initialize(token, 0)).state;
    assert ready.settings.token == Some(token) && ready.LockedBalance(g) == 0;
    assert ready.Balance(token, g) == I128_MAX && ready.Balance(token, self) == 0;
  }
}
