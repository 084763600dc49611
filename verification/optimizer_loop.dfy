/** The optimizer's loop over the brute-force modifier: the points
    `for modifier.Modify(p)` hands to the loop body between the scaled
    adviser's minimum and maximum parameter vectors, as written and
    corrected. */
module OptimizerLoop {
  import opened Common
  import opened GridRank
  import opened GridSearch
  import opened BruteForceModifier
  import opened BruteForceCompleteness
  import opened BruteForceCycle
  import opened BruteForceAsWritten
  import S = AdviceCBSScaledParams

  // ---- the grid ------------------------------------------------------------------

  /** The lower corner of the search, also its starting vector. */
  const MinScaled: S.CBSScaledParams := S.CBSScaledParams(
    20, 40, 0.2, 0.4, 3.0, 8.0, 0.5, 0.35, 0.1, 0.4, 0.4, 0.3, 1.0)

  /** The upper corner: only the two period bounds differ from the lower one. */
  const MaxScaled: S.CBSScaledParams := S.CBSScaledParams(
    30, 50, 0.2, 0.4, 3.0, 8.0, 0.5, 0.35, 0.1, 0.4, 0.4, 0.3, 1.0)

  /** The two corners bound a grid for any positive rate, and the coordinates
      that vary are exactly the first two, so they are contiguous: the
      modifier as written visits the whole grid here. */
  lemma ScaledGrid(rate: real)
    requires rate > 0.0
    ensures GridBounds(S.GetParams(MinScaled), S.GetParams(MaxScaled), rate)
    ensures forall i :: 0 <= i < S.Arity ==>
      (Varying(S.GetParams(MinScaled), S.GetParams(MaxScaled), i) <==> i < 2)
    ensures Contiguous(S.GetParams(MinScaled), S.GetParams(MaxScaled))
  {
    var lo, hi := S.GetParams(MinScaled), S.GetParams(MaxScaled);
    ContiguousIff(lo, hi);
  }

  /** One call of `Modify` as a total function: a vector the modifier cannot
      work on gets a false answer. */
  function Step(corrected: bool): (Modifier, seq<real>) -> Call {
    (m: Modifier, v: seq<real>) => if Fits(m, v) then Modify(m, v, corrected) else Call(m, v, false)
  }

  /** The points `for modifier.Modify(p)` hands to the loop body, when at
      most k calls of `step` are made: the loop stops at the first false
      answer. */
  function Walk(step: (Modifier, seq<real>) -> Call, m: Modifier, v: seq<real>, k: nat): (ps: seq<seq<real>>)
    ensures |ps| <= k
    decreases k
  {
    if k == 0 then []
    else
      var c := step(m, v);
      if c.modified then [c.point] + Walk(step, c.modifier, c.point, k - 1) else []
  }

  /** The answers of k consecutive calls of `step`. */
  function Answers(step: (Modifier, seq<real>) -> Call, m: Modifier, v: seq<real>, k: nat): (flags: seq<bool>)
    ensures |flags| == k
    decreases k
  {
    if k == 0 then []
    else
      var c := step(m, v);
      [c.modified] + Answers(step, c.modifier, c.point, k - 1)
  }

  /** The result of the k-th of k consecutive calls of `step`. */
  function Nth(step: (Modifier, seq<real>) -> Call, m: Modifier, v: seq<real>, k: nat): Call
    requires k >= 1
    decreases k
  {
    var c := step(m, v);
    if k == 1 then c else Nth(step, c.modifier, c.point, k - 1)
  }

  /** The loop over the modifier's points. */
  function Points(m: Modifier, v: seq<real>, k: nat, corrected: bool): (ps: seq<seq<real>>)
    ensures |ps| <= k
  {
    Walk(Step(corrected), m, v, k)
  }

  /** A step that keeps the width of the point and of the bounds keeps it
      along the whole walk. */
  lemma {:induction false} WalkWidth(step: (Modifier, seq<real>) -> Call, m: Modifier, v: seq<real>, k: nat, w: nat)
    requires |v| == w && |m.min| == w
    requires forall m': Modifier, v': seq<real> :: |v'| == w && |m'.min| == w ==>
      |step(m', v').point| == w && |step(m', v').modifier.min| == w
    ensures forall i :: 0 <= i < |Walk(step, m, v, k)| ==> |Walk(step, m, v, k)[i]| == w
    decreases k
  {
    var c := step(m, v);
    if k > 0 && c.modified {
      var rest := Walk(step, c.modifier, c.point, k - 1);
      WalkWidth(step, c.modifier, c.point, k - 1, w);
      var ps := Walk(step, m, v, k);
      assert ps == [c.point] + rest;
      forall i | 0 <= i < |ps|
        ensures |ps[i]| == w
      {
        if i > 0 {
          assert ps[i] == rest[i - 1];
        }
      }
    }
  }

  /** Every point the loop visits has the modifier's width, and a fresh
      modifier's first point is its lower bound. */
  lemma PointsFit(m: Modifier, v: seq<real>, k: nat, corrected: bool)
    requires Fits(m, v)
    ensures forall i :: 0 <= i < |Points(m, v, k, corrected)| ==> |Points(m, v, k, corrected)[i]| == |m.min|
    ensures !m.started && k > 0 ==> |Points(m, v, k, corrected)| > 0 && Points(m, v, k, corrected)[0] == m.min
  {
    var w := |m.min|;
    forall m': Modifier, v': seq<real> | |v'| == w && |m'.min| == w
      ensures |Step(corrected)(m', v').point| == w && |Step(corrected)(m', v').modifier.min| == w
    {
      if Fits(m', v') {
        var c := StepIsModify(m', v', corrected);
      }
    }
    WalkWidth(Step(corrected), m, v, k, w);
    if !m.started && k > 0 {
      var c := StepIsModify(m, v, corrected);
      assert c.modified && c.point == m.min;
    }
  }

  /** When the answers of k calls are n trues and a false, the loop body
      runs n times, on the points of the first n calls. */
  lemma {:induction false} WalkOfCycle(step: (Modifier, seq<real>) -> Call, m: Modifier, v: seq<real>, k: nat, n: nat)
    requires n < k && Answers(step, m, v, k) == Cycle(n)
    ensures |Walk(step, m, v, k)| == n
    ensures forall i :: 0 <= i < n ==> Walk(step, m, v, k)[i] == Nth(step, m, v, i + 1).point
    decreases n
  {
    var c := step(m, v);
    var rest := Answers(step, c.modifier, c.point, k - 1);
    assert Answers(step, m, v, k) == [c.modified] + rest;
    assert Answers(step, m, v, k)[0] == Cycle(n)[0];
    if n > 0 {
      assert Cycle(n) == [true] + Cycle(n - 1);
      assert rest == Answers(step, m, v, k)[1..] == Cycle(n)[1..] == Cycle(n - 1);
      WalkOfCycle(step, c.modifier, c.point, k - 1, n - 1);
      var ps := Walk(step, m, v, k);
      assert ps == [c.point] + Walk(step, c.modifier, c.point, k - 1);
      forall i | 0 <= i < n
        ensures ps[i] == Nth(step, m, v, i + 1).point
      {
        if i > 0 {
          assert Nth(step, m, v, i + 1) == Nth(step, c.modifier, c.point, i);
        }
      }
    }
  }

  /** On vectors the modifier can work on, the total step is `Modify`: its
      answers are `Run`'s. */
  lemma {:induction false} AnswersAgree(m: Modifier, v: seq<real>, k: nat, corrected: bool)
    requires Fits(m, v)
    ensures Answers(Step(corrected), m, v, k) == Run(m, v, k, corrected)
    decreases k
  {
    if k > 0 {
      var c := StepIsModify(m, v, corrected);
      AnswersUnfold(Step(corrected), m, v, k, c);
      RunUnfold(m, v, k, corrected, c);
      AnswersAgree(c.modifier, c.point, k - 1, corrected);
    }
  }

  lemma StepIsModify(m: Modifier, v: seq<real>, corrected: bool) returns (c: Call)
    requires Fits(m, v)
    ensures c == Modify(m, v, corrected) && Step(corrected)(m, v) == c
    ensures Fits(c.modifier, c.point)
  {
    c := Modify(m, v, corrected);
  }

  lemma AnswersUnfold(step: (Modifier, seq<real>) -> Call, m: Modifier, v: seq<real>, k: nat, c: Call)
    requires k >= 1 && c == step(m, v)
    ensures Answers(step, m, v, k) == [c.modified] + Answers(step, c.modifier, c.point, k - 1)
  {
  }

  /** ... and its k-th result is `After`'s. */
  lemma {:induction false} NthAgrees(m: Modifier, v: seq<real>, k: nat, corrected: bool)
    requires Fits(m, v) && k >= 1
    ensures Nth(Step(corrected), m, v, k) == After(m, v, k, corrected)
    decreases k
  {
    var c := StepIsModify(m, v, corrected);
    if k > 1 {
      assert Nth(Step(corrected), m, v, k) == Nth(Step(corrected), c.modifier, c.point, k - 1);
      assert After(m, v, k, corrected) == After(c.modifier, c.point, k - 1, corrected);
      NthAgrees(c.modifier, c.point, k - 1, corrected);
    }
  }

  /** A full cycle of calls walks the points of the first GridSize calls. */
  lemma CycleWalk(m: Modifier, v: seq<real>, corrected: bool)
    requires Idle(m) && |v| == |m.min|
    requires Run(m, v, GridSize(m.min, m.max, m.rate) + 1, corrected) == Cycle(GridSize(m.min, m.max, m.rate))
    ensures var ps := Points(m, v, GridSize(m.min, m.max, m.rate) + 1, corrected);
      |ps| == GridSize(m.min, m.max, m.rate)
      && forall i :: 0 <= i < |ps| ==> ps[i] == After(m, v, i + 1, corrected).point
  {
    var t := GridSize(m.min, m.max, m.rate);
    AnswersAgree(m, v, t + 1, corrected);
    WalkOfCycle(Step(corrected), m, v, t + 1, t);
    forall k | 1 <= k <= t
      ensures Nth(Step(corrected), m, v, k) == After(m, v, k, corrected)
    {
      NthAgrees(m, v, k, corrected);
    }
  }

  /** From an idle modifier the loop runs once per grid point: GridSize
      times, never on the same point twice, and on every point of the grid. */
  lemma LoopVisitsGrid(m: Modifier, v: seq<real>)
    requires Idle(m) && |v| == |m.min|
    ensures var ps := Points(m, v, GridSize(m.min, m.max, m.rate) + 1, true);
      |ps| == GridSize(m.min, m.max, m.rate)
      && (forall i, j :: 0 <= i < j < |ps| ==> ps[i] != ps[j])
      && forall w, d :: OnGrid(m.min, m.max, m.rate, w, d) ==> w in ps
  {
    var t := GridSize(m.min, m.max, m.rate);
    CorrectedCycleLength(m, v);
    CycleWalk(m, v, true);
    var ps := Points(m, v, t + 1, true);
    forall i, j | 0 <= i < j < |ps|
      ensures ps[i] != ps[j]
    {
      CorrectedNoRepeats(m, v, i + 1, j + 1);
    }
    forall w, d | OnGrid(m.min, m.max, m.rate, w, d)
      ensures w in ps
    {
      var k := CorrectedVisitsEveryPoint(m, v, w, d);
      assert ps[k - 1] == w;
    }
  }

  /** With contiguous varying coordinates, as for the scaled adviser's
      corners, the loop as written visits the same points as the corrected
      one, however many calls are made. */
  lemma AsWrittenLoopAgrees(m: Modifier, v: seq<real>, k: nat)
    requires Fits(m, v) && Contiguous(m.min, m.max)
    requires m.started ==> FixedHoldMin(m.min, m.max, v)
    ensures Points(m, v, k, false) == Points(m, v, k, true)
  {
    forall i | 1 <= i <= k
      ensures Nth(Step(false), m, v, i) == Nth(Step(true), m, v, i)
    {
      NthAgrees(m, v, i, false);
      NthAgrees(m, v, i, true);
      AfterAgree(m, v, i);
    }
    WalkDetermined(Step(false), Step(true), m, v, k);
  }

  /** Two steps that give the same results on the first k calls walk the
      same points. */
  lemma {:induction false} WalkDetermined(f: (Modifier, seq<real>) -> Call, g: (Modifier, seq<real>) -> Call,
                                          m: Modifier, v: seq<real>, k: nat)
    requires forall i :: 1 <= i <= k ==> Nth(f, m, v, i) == Nth(g, m, v, i)
    ensures Walk(f, m, v, k) == Walk(g, m, v, k)
    decreases k
  {
    if k > 0 {
      assert Nth(f, m, v, 1) == Nth(g, m, v, 1);
      var c := f(m, v);
      forall i | 1 <= i <= k - 1
        ensures Nth(f, c.modifier, c.point, i) == Nth(g, c.modifier, c.point, i)
      {
        assert Nth(f, m, v, i + 1) == Nth(g, m, v, i + 1);
      }
      WalkDetermined(f, g, c.modifier, c.point, k - 1);
    }
  }

  /** For the scaled adviser's corners the loop as written runs once per
      grid point, on the same points as the corrected loop, so the skipped
      points of the forward loop do not arise in this application. */
  lemma ScaledLoopComplete(rate: real, start: seq<real>)
    requires rate > 0.0 && |start| == S.Arity
    ensures var lo, hi := S.GetParams(MinScaled), S.GetParams(MaxScaled);
      var m := NewModifier(lo, hi, rate);
      GridBounds(lo, hi, rate)
      && Points(m, start, GridSize(lo, hi, rate) + 1, false) == Points(m, start, GridSize(lo, hi, rate) + 1, true)
      && |Points(m, start, GridSize(lo, hi, rate) + 1, false)| == GridSize(lo, hi, rate)
  {
    var lo, hi := S.GetParams(MinScaled), S.GetParams(MaxScaled);
    ScaledGrid(rate);
    var m := NewModifier(lo, hi, rate);
    NewModifierIdle(lo, hi, rate);
    AsWrittenLoopAgrees(m, start, GridSize(lo, hi, rate) + 1);
    LoopVisitsGrid(m, start);
  }
}
