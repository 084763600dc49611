/** What a cycle of the params-package modifier visits. With the forward loop
    corrected, a cycle visits every grid point exactly once, in rank order,
    and then answers false: the number of true answers is the advertised
    total. The code as written agrees with the corrected loop whenever the
    varying coordinates are contiguous, and skips points otherwise. */
module BruteForceCycle {
  import opened Common
  import opened GridRank
  import opened GridSearch
  import opened BruteForceModifier
  import opened BruteForceCompleteness

  /** The answers of k consecutive calls. */
  function Run(m: Modifier, v: seq<real>, k: nat, corrected: bool): (flags: seq<bool>)
    requires Fits(m, v)
    decreases k
    ensures |flags| == k
    ensures k > 0 ==> flags[0] == Modify(m, v, corrected).modified
  {
    if k == 0 then []
    else
      var c := Modify(m, v, corrected);
      [c.modified] + Run(c.modifier, c.point, k - 1, corrected)
  }

  /** The result of the k-th of k consecutive calls. */
  function After(m: Modifier, v: seq<real>, k: nat, corrected: bool): (c: Call)
    requires Fits(m, v) && k >= 1
    decreases k
    ensures Fits(c.modifier, c.point)
    ensures c.modifier.min == m.min && c.modifier.max == m.max && c.modifier.rate == m.rate
  {
    var c := Modify(m, v, corrected);
    if k == 1 then c else After(c.modifier, c.point, k - 1, corrected)
  }

  /** n true answers followed by one false answer. */
  function Cycle(n: nat): (flags: seq<bool>)
    ensures |flags| == n + 1 && !flags[n]
    ensures forall i :: 0 <= i < n ==> flags[i]
  {
    if n == 0 then [false] else [true] + Cycle(n - 1)
  }

  /** From a reached state of rank j, the remaining k = size - j calls
      answer true until the last rank has been produced, and then false. */
  lemma {:induction false} RunFromReach(m: Modifier, v: seq<real>, d: seq<int>, j: int, k: nat)
    requires Reach(m, v, d, j) && k == GridSize(m.min, m.max, m.rate) - j
    ensures k >= 1 && Run(m, v, k, true) == Cycle(k - 1)
    decreases k
  {
    RankBounds(d, Radices(m.min, m.max, m.rate), |d|);
    var e := StepCorrected(m, v, d, j);
    var c := Modify(m, v, true);
    assert Run(m, v, k, true) == [c.modified] + Run(c.modifier, c.point, k - 1, true);
    if k > 1 {
      assert GridSize(c.modifier.min, c.modifier.max, c.modifier.rate) == GridSize(m.min, m.max, m.rate);
      RunFromReach(c.modifier, c.point, e, j + 1, k - 1);
      assert Run(c.modifier, c.point, k - 1, true) == Cycle(k - 2);
      assert c.modified;
    } else {
      assert !c.modified;
    }
  }

  /** The advertised total is the number of grid points. */
  lemma TotalIsGridSize(min: seq<real>, max: seq<real>, rate: real)
    requires GridBounds(min, max, rate)
    ensures TotalSteps(NewModifier(min, max, rate)) == Ok(GridSize(min, max, rate))
  {
    ProdRadices(min, max, rate, |min|);
  }

  /** A full cycle of the corrected search: from an idle modifier the calls
      answer true once per grid point, as many times as `GetTotalSteps`
      reports for a fresh modifier, and then false. */
  lemma CorrectedCycleLength(m: Modifier, v: seq<real>)
    requires Idle(m) && |v| == |m.min|
    ensures Run(m, v, GridSize(m.min, m.max, m.rate) + 1, true) == Cycle(GridSize(m.min, m.max, m.rate))
  {
    var c, d := FirstCall(m, v);
    var g := GridSize(m.min, m.max, m.rate);
    var rest := RestOfCycle(c.modifier, c.point, d, g);
    RunUnfold(m, v, g + 1, true, c);
    CycleUnfold(g);
  }

  /** k calls are one call followed by k - 1 calls. */
  lemma RunUnfold(m: Modifier, v: seq<real>, k: nat, corrected: bool, c: Call)
    requires Fits(m, v) && k >= 1 && c == Modify(m, v, corrected)
    ensures Run(m, v, k, corrected) == [c.modified] + Run(c.modifier, c.point, k - 1, corrected)
  {
  }

  lemma CycleUnfold(n: nat)
    requires n >= 1
    ensures Cycle(n) == [true] + Cycle(n - 1)
  {
  }

  /** After the first call of a cycle, the remaining calls answer true
      for the other grid points and then false. */
  lemma RestOfCycle(m: Modifier, v: seq<real>, d: seq<int>, g: int) returns (flags: seq<bool>)
    requires Reach(m, v, d, 0) && g == GridSize(m.min, m.max, m.rate)
    ensures g >= 1 && flags == Run(m, v, g, true) && flags == Cycle(g - 1)
  {
    RunFromReach(m, v, d, 0, g);
    flags := Run(m, v, g, true);
  }

  /** The call that ends a cycle leaves the modifier idle again, so the
      next call starts a new cycle of the same length. */
  lemma ExhaustedIsIdle(m: Modifier, v: seq<real>)
    requires Idle(m) && |v| == |m.min|
    ensures Idle(After(m, v, GridSize(m.min, m.max, m.rate) + 1, true).modifier)
  {
    var t := GridSize(m.min, m.max, m.rate);
    var c, d := FirstCall(m, v);
    LastFromReach(c.modifier, c.point, d, 0, t);
  }

  /** From a reached state of rank j, the call that answers false is the
      (size - j)-th, and it leaves the modifier idle. */
  lemma {:induction false} LastFromReach(m: Modifier, v: seq<real>, d: seq<int>, j: int, k: nat)
    requires Reach(m, v, d, j) && k == GridSize(m.min, m.max, m.rate) - j
    ensures k >= 1 && Idle(After(m, v, k, true).modifier)
    decreases k
  {
    RankBounds(d, Radices(m.min, m.max, m.rate), |d|);
    var e := StepCorrected(m, v, d, j);
    var c := Modify(m, v, true);
    if k > 1 {
      assert GridSize(c.modifier.min, c.modifier.max, c.modifier.rate) == GridSize(m.min, m.max, m.rate);
      LastFromReach(c.modifier, c.point, e, j + 1, k - 1);
    }
  }

  /** The k-th call after a reached state of rank j reaches rank t = j + k.
      Each reached state is stated as one fact, so that passing it on is a
      single proof obligation rather than one per conjunct of `Reach`; the
      two cases are separate lemmas, each with a small proof obligation. */
  lemma {:induction false} AfterFromReach(m: Modifier, v: seq<real>, d: seq<int>, j: int, k: nat, t: int) returns (e: seq<int>)
    requires var reached := Reach(m, v, d, j); reached
    requires 1 <= k && t == j + k && t < GridSize(m.min, m.max, m.rate)
    ensures var a := After(m, v, k, true); var reached := Reach(a.modifier, a.point, e, t); reached
    decreases k, 1
  {
    if k == 1 {
      e := FirstAfter(m, v, d, j, t);
    } else {
      e := LaterAfter(m, v, d, j, k, t);
    }
  }

  /** The first call after a reached state reaches the next rank. */
  lemma FirstAfter(m: Modifier, v: seq<real>, d: seq<int>, j: int, t: int) returns (e: seq<int>)
    requires var reached := Reach(m, v, d, j); reached
    requires t == j + 1 && t < GridSize(m.min, m.max, m.rate)
    ensures var a := After(m, v, 1, true); var reached := Reach(a.modifier, a.point, e, t); reached
  {
    var c;
    c, e := NextReach(m, v, d, j);
    ReachAs(c, e, j + 1, t);
  }

  /** A later call is the (k-1)-th after the state the first call reaches. */
  lemma {:induction false} LaterAfter(m: Modifier, v: seq<real>, d: seq<int>, j: int, k: nat, t: int) returns (e: seq<int>)
    requires var reached := Reach(m, v, d, j); reached
    requires 2 <= k && t == j + k && t < GridSize(m.min, m.max, m.rate)
    ensures var a := After(m, v, k, true); var reached := Reach(a.modifier, a.point, e, t); reached
    decreases k, 0
  {
    var c, e1 := NextReach(m, v, d, j);
    e := AfterFromReach(c.modifier, c.point, e1, j + 1, k - 1, t);
  }

  /** The same reached state, with its rank written differently. */
  lemma ReachAs(c: Call, e: seq<int>, j: int, t: int)
    requires var reached := Reach(c.modifier, c.point, e, j); reached
    requires t == j
    ensures var reached := Reach(c.modifier, c.point, e, t); reached
  {
  }

  /** One call from a reached state that is not the last rank reaches the
      next rank, on a grid of the same size. */
  lemma NextReach(m: Modifier, v: seq<real>, d: seq<int>, j: int) returns (c: Call, e: seq<int>)
    requires var reached := Reach(m, v, d, j); reached
    requires j + 1 < GridSize(m.min, m.max, m.rate)
    ensures c == Modify(m, v, true) && Fits(m, v)
    ensures var reached := Reach(c.modifier, c.point, e, j + 1); reached
    ensures GridSize(c.modifier.min, c.modifier.max, c.modifier.rate) == GridSize(m.min, m.max, m.rate)
  {
    e := StepCorrected(m, v, d, j);
    c := Modify(m, v, true);
  }

  /** The k-th call of a cycle, for k up to the grid size, produces the
      grid point of rank k - 1, and `GetCurrentStep` then reports k - 1. */
  lemma AfterIdle(m: Modifier, v: seq<real>, k: nat) returns (d: seq<int>)
    requires Idle(m) && |v| == |m.min|
    requires 1 <= k <= GridSize(m.min, m.max, m.rate)
    ensures OnGrid(m.min, m.max, m.rate, After(m, v, k, true).point, d)
    ensures Rank(d, Radices(m.min, m.max, m.rate), |m.min|) == k - 1
    ensures CurrentStep(After(m, v, k, true).modifier) == k - 1
  {
    if k == 1 {
      var c;
      c, d := FirstCall(m, v);
    } else {
      var c;
      c, d := LaterCall(m, v, k);
      assert After(m, v, k, true) == After(c.modifier, c.point, k - 1, true);
    }
  }

  /** The calls after the first one of a cycle move through the grid ranks. */
  lemma LaterCall(m: Modifier, v: seq<real>, k: nat) returns (c: Call, d: seq<int>)
    requires Idle(m) && |v| == |m.min|
    requires 2 <= k <= GridSize(m.min, m.max, m.rate)
    ensures c == Modify(m, v, true) && Fits(c.modifier, c.point)
    ensures OnGrid(m.min, m.max, m.rate, After(c.modifier, c.point, k - 1, true).point, d)
    ensures Rank(d, Radices(m.min, m.max, m.rate), |m.min|) == k - 1
    ensures After(c.modifier, c.point, k - 1, true).modifier.step == k - 1
  {
    var d0;
    c, d0 := FirstCall(m, v);
    d := AfterFromReach(c.modifier, c.point, d0, 0, k - 1, k - 1);
  }

  /** No point is produced twice in a corrected cycle. */
  lemma CorrectedNoRepeats(m: Modifier, v: seq<real>, k1: nat, k2: nat)
    requires Idle(m) && |v| == |m.min|
    requires 1 <= k1 < k2 <= GridSize(m.min, m.max, m.rate)
    ensures After(m, v, k1, true).point != After(m, v, k2, true).point
  {
    var d1 := AfterIdle(m, v, k1);
    var d2 := AfterIdle(m, v, k2);
    var p := After(m, v, k1, true).point;
    if p == After(m, v, k2, true).point {
      OnGridUnique(m.min, m.max, m.rate, p, d1, d2);
    }
  }

  /** Every grid point is produced by a corrected cycle: the one of rank k
      by the (k + 1)-th call. */
  lemma CorrectedVisitsEveryPoint(m: Modifier, v: seq<real>, w: seq<real>, d: seq<int>) returns (k: nat)
    requires Idle(m) && |v| == |m.min|
    requires OnGrid(m.min, m.max, m.rate, w, d)
    ensures k == Rank(d, Radices(m.min, m.max, m.rate), |m.min|) + 1
    ensures 1 <= k <= GridSize(m.min, m.max, m.rate)
    ensures After(m, v, k, true).point == w
  {
    var r := Radices(m.min, m.max, m.rate);
    RankBounds(d, r, |m.min|);
    k := Rank(d, r, |m.min|) + 1;
    var e := AfterIdle(m, v, k);
    SameRank(m.min, m.max, m.rate, d, e);
    OnGridPoint(m.min, m.max, m.rate, After(m, v, k, true).point, w, d);
  }

  /** Digit vectors of equal rank are equal. */
  lemma SameRank(min: seq<real>, max: seq<real>, rate: real, d: seq<int>, e: seq<int>)
    requires GridBounds(min, max, rate)
    requires InRange(d, Radices(min, max, rate)) && InRange(e, Radices(min, max, rate))
    requires Rank(d, Radices(min, max, rate), |min|) == Rank(e, Radices(min, max, rate), |min|)
    ensures d == e
  {
    RankInjective(d, e, Radices(min, max, rate), |min|);
    assert d == d[..|min|] && e == e[..|min|];
  }
}
