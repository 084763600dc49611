/** The older brute-force modifier of the signal package. It keeps the same
    fields as the params-package modifier, but backtracks with a plain
    decrement and advances the current coordinate by one, so it does not
    step over coordinates whose bounds coincide. With every coordinate
    varying it behaves exactly like the corrected params-package modifier;
    a fixed coordinate freezes everything to its right. */
module SignalModifier {
  import opened Common
  import opened GridRank
  import opened GridSearch
  import opened BruteForceModifier
  import opened BruteForceCompleteness
  import opened BruteForceCycle
  import opened BruteForceAsWritten

  /** The backtracking loop: step back one coordinate at a time while the
      current one is at or past its maximum. None means coordinate 0 was
      reached at its maximum. */
  function SignalBacktrack(max: seq<real>, v: seq<real>, cp: int): (b: Option<int>)
    requires |max| == |v| && 0 <= cp < |v|
    ensures b.Some? ==> 0 <= b.value <= cp && v[b.value] < max[b.value]
    ensures b.Some? ==> forall j :: b.value < j <= cp ==> v[j] >= max[j]
    ensures b.None? <==> forall j :: 0 <= j <= cp ==> v[j] >= max[j]
    decreases cp
  {
    if v[cp] < max[cp] then Some(cp)
    else if cp == 0 then None
    else SignalBacktrack(max, v, cp - 1)
  }

  /** The tail of a successful call: advance coordinate p by one step, set
      the coordinates after it to their minimum, count the step and move the
      current coordinate one to the right unless it is the last. */
  function SignalStepAt(m: Modifier, v: seq<real>, p: int): (c: Call)
    requires Fits(m, v) && 0 <= p < |v|
    ensures Fits(c.modifier, c.point) && c.modified
    ensures c.modifier == m.(step := m.step + 1, currentParam := c.modifier.currentParam)
    ensures IncrementsAt(m.min, m.max, m.rate, v, c.point, p)
    ensures c.modifier.currentParam == if p < |v| - 1 then p + 1 else p
  {
    var stepped := m.(step := m.step + 1, currentParam := p);
    var w := Reset(m.min, v[p := v[p] + Rate(stepped)], p + 1);
    Call(stepped.(currentParam := if p < |v| - 1 then p + 1 else p), w, true)
  }

  /** One call of the signal-package `Modify`. Its forward loop is the same
      loop as the params-package one as written. */
  function SignalModify(m: Modifier, v: seq<real>): (c: Call)
    requires Fits(m, v)
    ensures Fits(c.modifier, c.point)
    ensures c.modifier.min == m.min && c.modifier.max == m.max && c.modifier.rate == m.rate
    ensures !m.started ==>
      (c.modified && c.point == m.min && c.modifier.started
       && c.modifier.step == 0 && c.modifier.currentParam == m.currentParam)
    ensures m.started && !c.modified ==>
      (c.point == v && !c.modifier.started && c.modifier.currentParam == 0
       && c.modifier.step == m.step && forall j :: 0 <= j <= m.currentParam ==> v[j] >= m.max[j])
    ensures m.started && c.modified ==>
      (c.modifier.started && c.modifier.step == m.step + 1
       && exists i :: IncrementsAt(m.min, m.max, m.rate, v, c.point, i))
  {
    if !m.started then
      Call(m.(step := 0, started := true), Reset(m.min, v, 0), true)
    else
      match SignalBacktrack(m.max, v, m.currentParam)
      case None =>
        Call(m.(started := false, currentParam := 0), v, false)
      case Some(b) =>
        SignalStepAt(m, v, AdvanceAsWritten(m.min, m.max, v, b))
  }

  /** The answers of k consecutive calls. */
  function SignalRun(m: Modifier, v: seq<real>, k: nat): (flags: seq<bool>)
    requires Fits(m, v)
    decreases k
    ensures |flags| == k
    ensures k > 0 ==> flags[0] == SignalModify(m, v).modified
  {
    if k == 0 then []
    else
      var c := SignalModify(m, v);
      [c.modified] + SignalRun(c.modifier, c.point, k - 1)
  }

  /** The result of the k-th of k consecutive calls. */
  function SignalAfter(m: Modifier, v: seq<real>, k: nat): (c: Call)
    requires Fits(m, v) && k >= 1
    decreases k
    ensures Fits(c.modifier, c.point)
    ensures c.modifier.min == m.min && c.modifier.max == m.max && c.modifier.rate == m.rate
  {
    var c := SignalModify(m, v);
    if k == 1 then c else SignalAfter(c.modifier, c.point, k - 1)
  }

  /** After a call answers false, the next call starts a new cycle from
      the minimum corner. */
  lemma SignalRestarts(m: Modifier, v: seq<real>)
    requires Fits(m, v) && m.started && !SignalModify(m, v).modified
    ensures SignalModify(SignalModify(m, v).modifier, SignalModify(m, v).point).modified
    ensures SignalModify(SignalModify(m, v).modifier, SignalModify(m, v).point).point == m.min
    ensures SignalModify(SignalModify(m, v).modifier, SignalModify(m, v).point).modifier.step == 0
  {
  }

  // ---- every coordinate varying ---------------------------------------

  predicate AllVarying(min: seq<real>, max: seq<real>)
    requires |min| == |max|
  {
    forall i :: 0 <= i < |min| ==> Varying(min, max, i)
  }

  /** With every coordinate varying, the plain decrement is what `prev` does. */
  lemma {:induction false} BacktrackAgree(min: seq<real>, max: seq<real>, v: seq<real>, cp: int)
    requires |min| == |max| == |v| && 0 <= cp < |v| && AllVarying(min, max)
    ensures SignalBacktrack(max, v, cp) == Backtrack(min, max, v, cp)
    decreases cp
  {
    if v[cp] >= max[cp] && cp > 0 {
      assert Varying(min, max, cp - 1);
      BacktrackAgree(min, max, v, cp - 1);
    }
  }

  /** With every coordinate varying, a signal-package call is a corrected
      params-package call. */
  lemma ModifyAgreeAllVarying(m: Modifier, v: seq<real>) returns (c: Call)
    requires Fits(m, v) && AllVarying(m.min, m.max)
    ensures c == SignalModify(m, v) && c == Modify(m, v, true)
    ensures Fits(c.modifier, c.point) && AllVarying(c.modifier.min, c.modifier.max)
  {
    c := Modify(m, v, true);
    if m.started {
      assert Varying(m.min, m.max, m.currentParam);
      BacktrackAgree(m.min, m.max, v, m.currentParam);
      var bt := Backtrack(m.min, m.max, v, m.currentParam);
      if bt.Some? {
        var s := StepAgree(m, v, bt.value);
      }
    }
  }

  /** With every coordinate varying, both forward loops stop at the same
      coordinate and both move the current coordinate one to the right. */
  lemma StepAgree(m: Modifier, v: seq<real>, b: int) returns (c: Call)
    requires Fits(m, v) && AllVarying(m.min, m.max) && 0 <= b < |v|
    ensures c == SignalStepAt(m, v, AdvanceAsWritten(m.min, m.max, v, b))
    ensures c == StepAt(m, v, AdvanceCorrected(m.min, m.max, v, b))
  {
    ContiguousIff(m.min, m.max);
    AdvanceAgree(m.min, m.max, v, b);
    var p := AdvanceCorrected(m.min, m.max, v, b);
    if p < |v| - 1 {
      assert Varying(m.min, m.max, p + 1);
    }
    c := StepAt(m, v, p);
  }

  lemma {:induction false} RunAgreeAllVarying(m: Modifier, v: seq<real>, k: nat) returns (flags: seq<bool>)
    requires Fits(m, v) && AllVarying(m.min, m.max)
    ensures flags == SignalRun(m, v, k) && flags == Run(m, v, k, true)
    decreases k
  {
    flags := SignalRun(m, v, k);
    if k > 0 {
      var c := ModifyAgreeAllVarying(m, v);
      var rest := RunAgreeAllVarying(c.modifier, c.point, k - 1);
      assert SignalRun(m, v, k) == [c.modified] + SignalRun(c.modifier, c.point, k - 1);
    }
  }

  lemma {:induction false} AfterAgreeAllVarying(m: Modifier, v: seq<real>, k: nat)
    requires Fits(m, v) && AllVarying(m.min, m.max) && k >= 1
    ensures SignalAfter(m, v, k) == After(m, v, k, true)
    decreases k
  {
    var c := ModifyAgreeAllVarying(m, v);
    if k > 1 {
      AfterAgreeAllVarying(c.modifier, c.point, k - 1);
      assert SignalAfter(m, v, k) == SignalAfter(c.modifier, c.point, k - 1);
    }
  }

  /** `GetTotalSteps` depends only on the bounds and the rate. */
  lemma TotalOfIdle(m: Modifier)
    requires Idle(m)
    ensures TotalSteps(m) == Ok(GridSize(m.min, m.max, m.rate))
  {
    TotalIsGridSize(m.min, m.max, m.rate);
  }

  /** With every coordinate varying, a cycle answers true as many times as
      `GetTotalSteps` reports, and then false. */
  lemma SignalCycleLength(m: Modifier, v: seq<real>)
    requires Idle(m) && |v| == |m.min| && AllVarying(m.min, m.max)
    ensures SignalRun(m, v, GridSize(m.min, m.max, m.rate) + 1) == Cycle(GridSize(m.min, m.max, m.rate))
  {
    var t := GridSize(m.min, m.max, m.rate);
    CorrectedCycleLength(m, v);
    var flags := RunAgreeAllVarying(m, v, t + 1);
    assert flags == Cycle(t);
  }

  /** With every coordinate varying, every grid point is produced. */
  lemma SignalVisitsEveryPoint(m: Modifier, v: seq<real>, w: seq<real>, d: seq<int>) returns (k: nat)
    requires Idle(m) && |v| == |m.min| && AllVarying(m.min, m.max)
    requires OnGrid(m.min, m.max, m.rate, w, d)
    ensures 1 <= k <= GridSize(m.min, m.max, m.rate)
    ensures SignalAfter(m, v, k).point == w
  {
    k := CorrectedVisitsEveryPoint(m, v, w, d);
    AfterAgreeAllVarying(m, v, k);
  }

  // ---- a fixed coordinate ---------------------------------------------

  /** Coordinate i is fixed, the current coordinate has not passed it, and
      once started the vector holds the minimum from i on. */
  predicate Blocked(m: Modifier, v: seq<real>, i: int)
    requires Fits(m, v)
  {
    0 <= i < |v| && m.min[i] == m.max[i] && m.currentParam <= i
    && (m.started ==> forall j :: i <= j < |v| ==> v[j] == m.min[j])
  }

  /** A call keeps a fixed coordinate blocking: backtracking steps over it
      (it sits at its maximum) and the forward loop cannot cross it, so the
      stepped coordinate lies to its left. */
  lemma BlockedStep(m: Modifier, v: seq<real>, i: int) returns (c: Call)
    requires Fits(m, v) && Blocked(m, v, i)
    ensures c == SignalModify(m, v) && Blocked(c.modifier, c.point, i)
  {
    if !m.started {
      BlockedFirst(m, v, i);
    } else if SignalBacktrack(m.max, v, m.currentParam).None? {
      BlockedExhausted(m, v, i);
    } else {
      BlockedStepped(m, v, i, SignalBacktrack(m.max, v, m.currentParam).value);
    }
    c := SignalModify(m, v);
  }

  /** The first call of a cycle yields the minimum corner, which keeps the
      fixed coordinate blocking. */
  lemma BlockedFirst(m: Modifier, v: seq<real>, i: int)
    requires Fits(m, v) && Blocked(m, v, i) && !m.started
    ensures Blocked(SignalModify(m, v).modifier, SignalModify(m, v).point, i)
  {
  }

  /** A call that finds everything at its maximum leaves the modifier
      stopped at coordinate 0. */
  lemma BlockedExhausted(m: Modifier, v: seq<real>, i: int)
    requires Fits(m, v) && Blocked(m, v, i) && m.started
    requires SignalBacktrack(m.max, v, m.currentParam).None?
    ensures Blocked(SignalModify(m, v).modifier, SignalModify(m, v).point, i)
  {
  }

  /** A call whose backtracking stops at b steps a coordinate left of i. */
  lemma BlockedStepped(m: Modifier, v: seq<real>, i: int, b: int)
    requires Fits(m, v) && Blocked(m, v, i) && m.started
    requires SignalBacktrack(m.max, v, m.currentParam) == Some(b)
    ensures Blocked(SignalModify(m, v).modifier, SignalModify(m, v).point, i)
  {
    assert v[i] == m.max[i];
    var s := BlockedAdvance(m, v, i, b);
  }

  /** Backtracking stopped at b left of the fixed coordinate i: the forward
      loop stops before i. */
  lemma BlockedAdvance(m: Modifier, v: seq<real>, i: int, b: int) returns (c: Call)
    requires Fits(m, v) && Blocked(m, v, i) && m.started && 0 <= b < i
    ensures c == SignalStepAt(m, v, AdvanceAsWritten(m.min, m.max, v, b))
    ensures Blocked(c.modifier, c.point, i)
  {
    var p := AdvanceAsWritten(m.min, m.max, v, b);
    assert !Varying(m.min, m.max, i);
    assert p < i;
    c := SignalStepAt(m, v, p);
  }

  /** The coordinates from a fixed one on never leave their minimum. */
  lemma {:induction false} BlockedAfter(m: Modifier, v: seq<real>, i: int, k: nat)
    requires Fits(m, v) && Blocked(m, v, i) && k >= 1
    ensures Blocked(SignalAfter(m, v, k).modifier, SignalAfter(m, v, k).point, i)
    ensures forall j :: i <= j < |v| ==> SignalAfter(m, v, k).point[j] == m.min[j]
    decreases k
  {
    var c := BlockedStep(m, v, i);
    if k > 1 {
      BlockedAfter(c.modifier, c.point, i, k - 1);
      assert SignalAfter(m, v, k) == SignalAfter(c.modifier, c.point, k - 1);
    }
  }

  /** From the start of a cycle, a fixed coordinate i keeps every coordinate
      from i on at its minimum in every point the cycle produces. */
  lemma FixedFreezesRight(m: Modifier, v: seq<real>, i: int, k: nat)
    requires Idle(m) && |v| == |m.min| && 0 <= i < |v| && !Varying(m.min, m.max, i) && k >= 1
    ensures forall j :: i <= j < |v| ==> SignalAfter(m, v, k).point[j] == m.min[j]
  {
    BlockedAfter(m, v, i, k);
  }

  /** With coordinate 0 fixed, a cycle produces only the minimum corner:
      the second call already answers false ... */
  lemma FixedFirstStops(m: Modifier, v: seq<real>)
    requires Idle(m) && |v| == |m.min| && !Varying(m.min, m.max, 0)
    ensures SignalRun(m, v, 2) == [true, false]
    ensures SignalAfter(m, v, 1).point == m.min
  {
    var c := SignalModify(m, v);
    assert SignalBacktrack(m.max, c.point, 0) == None;
    assert SignalRun(m, v, 2) == [c.modified] + SignalRun(c.modifier, c.point, 1);
  }

  /** ... while `GetTotalSteps` reports at least two points as soon as any
      coordinate varies. */
  lemma FixedFirstUndercounts(m: Modifier, i: int)
    requires Idle(m) && 0 <= i < |m.min| && Varying(m.min, m.max, i)
    ensures TotalSteps(m) == Ok(GridSize(m.min, m.max, m.rate)) && GridSize(m.min, m.max, m.rate) >= 2
  {
    TotalOfIdle(m);
    GridAtLeastTwo(m.min, m.max, m.rate, i);
  }

  /** A grid with a varying coordinate has at least two points: the
      maximum corner differs from the minimum corner. */
  lemma GridAtLeastTwo(min: seq<real>, max: seq<real>, rate: real, i: int)
    requires GridBounds(min, max, rate) && 0 <= i < |min| && Varying(min, max, i)
    ensures GridSize(min, max, rate) >= 2
  {
    var r := Radices(min, max, rate);
    var top := seq(|min|, j requires 0 <= j < |min| => r[j] - 1);
    var zero := seq(|min|, _ => 0);
    RankAllMax(top, r, |min|);
    RankZero(zero, r, |min|);
    assert top[..|min|][i] != zero[..|min|][i];
    if GridSize(min, max, rate) < 2 {
      RankInjective(top, zero, r, |min|);
      assert false;
    }
  }
}
