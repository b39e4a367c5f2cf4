/** The pure consensus module, src/consensus.rs: one tally step and folds of it. */
module Consensus {
  import opened Types

  datatype Tally = Tally(accrued: u64, votes: u32, isDone: bool)

  datatype Verdict = Accepted | WeightOverflow | ZeroWeight

  const FRESH := Tally(0, 0, false)

  function ApplyVote(t: Tally, weight: u64, threshold: u64): (Tally, Verdict) {
    if weight == 0 then (t, ZeroWeight)
    else if t.accrued + weight > U64_MAX then (t, Verdict.WeightOverflow)
    else
      (Tally(t.accrued + weight, Min(t.votes + 1, U32_MAX), t.isDone || t.accrued + weight >= threshold), Accepted)
  }

  predicate ResolutionInvariantHolds(t: Tally, threshold: u64) {
    t.isDone ==> t.accrued >= threshold
  }

  /** `&mut ConsensusState`: the state `apply_vote` updates field by field. */
  class ConsensusState {
    var totalWeightAccrued: u64
    var votes: u32
    var isDone: bool

    constructor ()
      ensures Abs() == FRESH
    {
      totalWeightAccrued, votes, isDone := 0, 0, false;
    }

    function Abs(): Tally
      reads this
    {
      Tally(totalWeightAccrued, votes, isDone)
    }

    method Apply(weight: u64, threshold: u64) returns (v: Verdict)
      modifies this
      ensures (Abs(), v) == ApplyVote(old(Abs()), weight, threshold)
      ensures v != Accepted ==> Abs() == old(Abs())
      ensures old(isDone) ==> isDone
      ensures !old(isDone) ==> ResolutionInvariantHolds(Abs(), threshold)
    {
      if weight == 0 {
        return ZeroWeight;
      }
      if totalWeightAccrued + weight > U64_MAX {
        return Verdict.WeightOverflow;
      }
      totalWeightAccrued := totalWeightAccrued + weight;
      votes := if votes == U32_MAX then U32_MAX else votes + 1;
      if totalWeightAccrued >= threshold {
        isDone := true;
      }
      v := Accepted;
    }
  }

  // ----- folds -----

  function Sum(ws: seq<nat>): nat {
    if ws == [] then 0 else Sum(ws[..|ws| - 1]) + ws[|ws| - 1]
  }

  /** The state after a sequence of votes, and whether all of them were accepted. */
  function Fold(ws: seq<u64>, threshold: u64): (Tally, bool) {
    if ws == [] then (FRESH, true)
    else
      var (t, all) := Fold(ws[..|ws| - 1], threshold);
      var (t', v) := ApplyVote(t, ws[|ws| - 1], threshold);
      (t', all && v.Accepted?)
  }

  ghost predicate AllPositive(ws: seq<u64>) {
    forall i | 0 <= i < |ws| :: ws[i] > 0
  }

  /**
   The fold law: under a fixed threshold every vote is accepted if and only if
   all weights are nonzero and their sum fits in a u64.
   */
  lemma {:induction false} FoldAccepts(ws: seq<u64>, threshold: u64)
    ensures Fold(ws, threshold).1 <==> AllPositive(ws) && Sum(ws) <= U64_MAX
    ensures Fold(ws, threshold).1 ==> Fold(ws, threshold).0 ==
                                      Tally(Sum(ws), Min(|ws|, U32_MAX), ws != [] && Sum(ws) >= threshold)
  {
    if ws != [] {
      FoldAccepts(ws[..|ws| - 1], threshold);
      assert ws == ws[..|ws| - 1] + [ws[|ws| - 1]];
    }
  }

  /** Taking one element out of a sequence takes it out of the sum. */
  lemma {:induction false} SumWithout(s: seq<nat>, k: nat)
    requires k < |s|
    ensures Sum(s) == s[k] + Sum(s[..k] + s[k + 1..])
  {
    var n := |s| - 1;
    if k == n {
      assert s[..k] + s[k + 1..] == s[..n];
    } else {
      SumWithout(s[..n], k);
      var rest := s[..k] + s[k + 1..];
      assert rest[..|rest| - 1] == s[..n][..k] + s[..n][k + 1..];
    }
  }

  lemma {:induction false} SumPermuted(a: seq<nat>, b: seq<nat>)
    requires multiset(a) == multiset(b)
    ensures Sum(a) == Sum(b)
  {
    if a == [] {
      assert |multiset(b)| == 0;
    } else {
      var n := |a| - 1;
      assert a[n] in multiset(b);
      var k :| 0 <= k < |b| && b[k] == a[n];
      MultisetWithout(a, n);
      MultisetWithout(b, k);
      assert a[..n] + a[n + 1..] == a[..n];
      SumPermuted(a[..n], b[..k] + b[k + 1..]);
      SumWithout(b, k);
    }
  }

  lemma MultisetWithout(s: seq<nat>, k: nat)
    requires k < |s|
    ensures multiset(s[..k] + s[k + 1..]) == multiset(s) - multiset{s[k]}
  {
    assert s == s[..k] + [s[k]] + s[k + 1..];
  }

  /** The order in which accepted votes arrive does not matter. */
  lemma FoldPermuted(ws: seq<u64>, vs: seq<u64>, threshold: u64)
    requires multiset(ws) == multiset(vs)
    requires Fold(ws, threshold).1
    ensures Fold(vs, threshold) == Fold(ws, threshold)
  {
    FoldAccepts(ws, threshold);
    FoldAccepts(vs, threshold);
    SumPermuted(ws, vs);
    assert |multiset(ws)| == |multiset(vs)|;
    forall i | 0 <= i < |vs| ensures vs[i] > 0 {
      assert vs[i] in multiset(ws);
    }
  }

  /** A lower threshold never resolves later, whatever the votes, accepted or not. */
  lemma {:induction false} LowerThresholdResolvesNoLater(ws: seq<u64>, low: u64, high: u64)
    requires low <= high
    ensures Fold(ws, high).0.isDone ==> Fold(ws, low).0.isDone
    ensures Fold(ws, high).1 == Fold(ws, low).1
    ensures Fold(ws, high).0.(isDone := false) == Fold(ws, low).0.(isDone := false)
  {
    if ws != [] {
      LowerThresholdResolvesNoLater(ws[..|ws| - 1], low, high);
    }
  }

  /**
   `resolution_invariant_holds` over any ballot box under a fixed threshold, rejected
   votes included, and what done means then: some accepted vote met the threshold,
   and since weight never leaves, the weight still does.
   */
  lemma {:induction false} FoldResolution(ws: seq<u64>, threshold: u64)
    ensures ResolutionInvariantHolds(Fold(ws, threshold).0, threshold)
    ensures Fold(ws, threshold).0.isDone <==>
            Fold(ws, threshold).0.accrued >= threshold && Fold(ws, threshold).0.accrued > 0
  {
    if ws != [] {
      FoldResolution(ws[..|ws| - 1], threshold);
    }
  }
}
