/** The optimizer application: the brute-force modifier walks the grid
    between the scaled adviser's minimum and maximum parameter vectors; every
    point is backtested over all quotes, its frequency and accuracy are
    computed from the selector's picks, and the most accurate point whose
    frequency is high enough (ties to the more frequent, then to the earlier)
    is saved under a name that carries its figures. The progress bar, the
    printing and the goroutines are left out: the batches a point's test
    delivers, in arrival order, and whether it panicked are a parameter. */
module OptimizerApp {
  import opened Common
  import opened GridRank
  import opened GridSearch
  import opened BruteForceModifier
  import opened BruteForceCompleteness
  import opened BruteForceCycle
  import opened BruteForceAsWritten
  import opened AdviceBase
  import opened TesterApp
  import opened OptimizerLoop
  import opened OptimizerStats
  import S = AdviceCBSScaledParams

  // ---- the whole optimization -------------------------------------------------

  /** The figures of each point, in visiting order. */
  function StatsOf(points: seq<seq<real>>, tester: Tester, corrected: bool): (r: seq<Stats>)
    ensures |r| == |points|
    ensures forall i :: 0 <= i < |points| ==> r[i] == PointStats(points[i], tester(points[i]).batches, corrected)
  {
    seq(|points|, i requires 0 <= i < |points| => PointStats(points[i], tester(points[i]).batches, corrected))
  }

  /** One more point adds its figures at the end. */
  lemma StatsOfSnoc(points: seq<seq<real>>, tester: Tester, corrected: bool)
    requires |points| > 0
    ensures var last := points[|points| - 1];
      StatsOf(points, tester, corrected)
      == StatsOf(points[..|points| - 1], tester, corrected) + [PointStats(last, tester(last).batches, corrected)]
  {
    var init, last := points[..|points| - 1], points[|points| - 1];
    var a := StatsOf(points, tester, corrected);
    var b := StatsOf(init, tester, corrected) + [PointStats(last, tester(last).batches, corrected)];
    assert |a| == |b|;
    forall i | 0 <= i < |a|
      ensures a[i] == b[i]
    {
      assert a[i] == PointStats(points[i], tester(points[i]).batches, corrected);
      if i < |init| {
        assert init[i] == points[i];
        assert b[i] == StatsOf(init, tester, corrected)[i];
      } else {
        assert i == |points| - 1;
        assert b[i] == PointStats(last, tester(last).batches, corrected);
      }
    }
  }

  /** Every point's figures come from a real tally. */
  lemma StatsConsistent(points: seq<seq<real>>, tester: Tester, corrected: bool)
    ensures forall s :: s in StatsOf(points, tester, corrected) ==> Consistent(s)
  {
    var stats := StatsOf(points, tester, corrected);
    forall s | s in stats
      ensures Consistent(s)
    {
      var i :| 0 <= i < |stats| && stats[i] == s;
      PointStatsConsistent(points[i], tester(points[i]).batches, corrected);
    }
  }

  /** Over consistent figures, the frequent-enough points are the qualifying
      ones in visiting order, and none is better than the best. */
  lemma SelectMeaning(stats: seq<Stats>, minFrequency: real)
    requires forall s :: s in stats ==> Consistent(s)
    ensures var r := Select(stats, minFrequency);
      && r.frequentEnough == Filter(stats, QualifiesFor(minFrequency))
      && (forall s :: s in r.frequentEnough ==> !Better(s, r.best) && Consistent(s))
  {
    FrequentEnoughInOrder(stats, minFrequency);
    BestIsMaximal(stats, minFrequency);
  }

  /** The application's modifier: between the scaled adviser's corners, with
      the `modifyRate` flag as rate. */
  function ScaledModifier(rate: real): (m: Modifier)
    ensures m == NewModifier(S.GetParams(MinScaled), S.GetParams(MaxScaled), rate)
    ensures Fits(m, S.GetParams(MinScaled)) && |m.min| == S.Arity
  {
    NewModifier(S.GetParams(MinScaled), S.GetParams(MaxScaled), rate)
  }

  /** `OptimizeParams` as the application composes it: the quotes and their
      total number of tested hours (the first failure ends the run); then
      `GetTotalSteps` of the modifier between the scaled corners, which
      panics at rate 0; then the loop over the points the modifier as
      written hands out from the lower corner, with at most `fuel` calls,
      each point's batches tallied with the progress update and the default
      selector as written (a panic there, or in any point's backtest, ends
      the run); then the selection. */
  function OptimizeParams(quoteTotals: Result<seq<Result<int>>>, rate: real, fuel: nat,
                          tester: Tester, minFrequency: real): (r: Result<Selection>)
    ensures quoteTotals.Err? ==> r == Err(quoteTotals.error)
    ensures quoteTotals.Ok? && SumTotals(quoteTotals.value).Err? ==> r == Err(SumTotals(quoteTotals.value).error)
    ensures r.Ok? <==>
      && quoteTotals.Ok? && SumTotals(quoteTotals.value).Ok?
      && rate != 0.0
      && var points := Points(ScaledModifier(rate), S.GetParams(MinScaled), fuel, false);
         && (GoDiv(SumTotals(quoteTotals.value).value, 100) != 0 || forall i :: 0 <= i < |points| ==> tester(points[i]).batches == [])
         && !SomePanic(points, tester)
    ensures r.Ok? ==> var points := Points(ScaledModifier(rate), S.GetParams(MinScaled), fuel, false);
      r.value == Select(StatsOf(points, tester, false), minFrequency)
  {
    match quoteTotals
    case Err(e) => Err(e)
    case Panic => Panic
    case Ok(totals) =>
      match SumTotals(totals)
      case Err(e) => Err(e)
      case Panic => Panic
      case Ok(total) =>
        var m := ScaledModifier(rate);
        var points := Points(m, S.GetParams(MinScaled), fuel, false);
        StatsAsWrittenPanics(total, points, tester);
        if TotalSteps(m).Panic? then Panic
        else
          match StatsAsWritten(total, points, tester)
          case None => Panic
          case Some(stats) => Ok(Select(stats, minFrequency))
  }

  /** For a positive rate and a hundred tested hours or more, with enough
      calls for a full cycle, the run as written visits every grid point
      between the corners once; it succeeds exactly when no point's backtest
      panics, and then makes the selection over their figures under the
      default selector as written. */
  lemma OptimizeParamsMeaning(quoteTotals: Result<seq<Result<int>>>, rate: real, tester: Tester, minFrequency: real)
    requires rate > 0.0
    requires quoteTotals.Ok? && SumTotals(quoteTotals.value).Ok? && SumTotals(quoteTotals.value).value >= 100
    ensures var lo, hi := S.GetParams(MinScaled), S.GetParams(MaxScaled);
      var fuel := GridSize(lo, hi, rate) + 1;
      var points := Points(ScaledModifier(rate), lo, fuel, false);
      var r := OptimizeParams(quoteTotals, rate, fuel, tester, minFrequency);
      && |points| == GridSize(lo, hi, rate)
      && (forall i, j :: 0 <= i < j < |points| ==> points[i] != points[j])
      && (forall w, d :: OnGrid(lo, hi, rate, w, d) ==> w in points)
      && (r.Ok? <==> !SomePanic(points, tester))
      && (r.Ok? ==> r.value.frequentEnough == Filter(StatsOf(points, tester, false), QualifiesFor(minFrequency)))
      && (r.Ok? ==> forall s :: s in r.value.frequentEnough ==> !Better(s, r.value.best) && Consistent(s))
  {
    var lo, hi := S.GetParams(MinScaled), S.GetParams(MaxScaled);
    var m := ScaledModifier(rate);
    var fuel := GridSize(lo, hi, rate) + 1;
    ScaledLoopComplete(rate, lo);
    NewModifierIdle(lo, hi, rate);
    LoopVisitsGrid(m, lo);
    AsWrittenRunMeaning(quoteTotals, rate, fuel, tester, minFrequency);
  }

  /** Whatever the number of calls, a run as written that gets past the
      totals with a hundred hours or more succeeds exactly when no visited
      point's backtest panics, and then selects over consistent figures. */
  lemma AsWrittenRunMeaning(quoteTotals: Result<seq<Result<int>>>, rate: real, fuel: nat, tester: Tester, minFrequency: real)
    requires rate > 0.0
    requires quoteTotals.Ok? && SumTotals(quoteTotals.value).Ok? && SumTotals(quoteTotals.value).value >= 100
    ensures var points := Points(ScaledModifier(rate), S.GetParams(MinScaled), fuel, false);
      var r := OptimizeParams(quoteTotals, rate, fuel, tester, minFrequency);
      && (r.Ok? <==> !SomePanic(points, tester))
      && (r.Ok? ==> r.value.frequentEnough == Filter(StatsOf(points, tester, false), QualifiesFor(minFrequency)))
      && (r.Ok? ==> forall s :: s in r.value.frequentEnough ==> !Better(s, r.value.best) && Consistent(s))
  {
    var points := Points(ScaledModifier(rate), S.GetParams(MinScaled), fuel, false);
    assert GoDiv(SumTotals(quoteTotals.value).value, 100) >= 1;
    StatsConsistent(points, tester, false);
    SelectMeaning(StatsOf(points, tester, false), minFrequency);
  }

  /** The intended optimization: the corrected forward loop over any
      modifier, the corrected selector, and no progress update. A point's
      backtest that panics still ends the run. */
  function OptimizeParamsCorrected(quoteTotals: Result<seq<Result<int>>>, m: Modifier, start: seq<real>, fuel: nat,
                                   tester: Tester, minFrequency: real): (r: Result<Selection>)
    ensures r.Ok? <==>
      && quoteTotals.Ok? && SumTotals(quoteTotals.value).Ok?
      && !SomePanic(Points(m, start, fuel, true), tester)
    ensures quoteTotals.Err? ==> r == Err(quoteTotals.error)
    ensures quoteTotals.Ok? && SumTotals(quoteTotals.value).Err? ==> r == Err(SumTotals(quoteTotals.value).error)
  {
    match quoteTotals
    case Err(e) => Err(e)
    case Panic => Panic
    case Ok(totals) =>
      match SumTotals(totals)
      case Err(e) => Err(e)
      case Panic => Panic
      case Ok(_) =>
        var points := Points(m, start, fuel, true);
        if SomePanic(points, tester) then Panic
        else Ok(Select(StatsOf(points, tester, true), minFrequency))
  }

  /** From a fresh modifier with grid bounds the corrected loop visits every
      grid point once; every point's figures are consistent; the best point
      is maximal among the frequent-enough ones, which are the qualifying
      points in visiting order. */
  lemma OptimizeParamsCorrectedMeaning(quoteTotals: Result<seq<Result<int>>>, m: Modifier, start: seq<real>, fuel: nat,
                                       tester: Tester, minFrequency: real)
    requires Idle(m) && |start| == |m.min| && fuel == GridSize(m.min, m.max, m.rate) + 1
    ensures |Points(m, start, fuel, true)| == fuel - 1
    ensures var ps := Points(m, start, fuel, true);
      forall i, j :: 0 <= i < j < |ps| ==> ps[i] != ps[j]
    ensures forall w, d :: OnGrid(m.min, m.max, m.rate, w, d) ==> w in Points(m, start, fuel, true)
    ensures var r := OptimizeParamsCorrected(quoteTotals, m, start, fuel, tester, minFrequency);
      r.Ok? ==> r.value.frequentEnough == Filter(StatsOf(Points(m, start, fuel, true), tester, true), QualifiesFor(minFrequency))
    ensures var r := OptimizeParamsCorrected(quoteTotals, m, start, fuel, tester, minFrequency);
      r.Ok? ==> forall s :: s in r.value.frequentEnough ==> !Better(s, r.value.best) && Consistent(s)
  {
    LoopVisitsGrid(m, start);
    if OptimizeParamsCorrected(quoteTotals, m, start, fuel, tester, minFrequency).Ok? {
      SelectionMeaning(quoteTotals, m, start, fuel, tester, minFrequency);
    }
  }

  /** Whatever points the corrected loop visits, the frequent-enough ones are
      the qualifying points in visiting order, their figures are consistent
      and none is better than the best. */
  lemma SelectionMeaning(quoteTotals: Result<seq<Result<int>>>, m: Modifier, start: seq<real>, fuel: nat,
                         tester: Tester, minFrequency: real)
    requires OptimizeParamsCorrected(quoteTotals, m, start, fuel, tester, minFrequency).Ok?
    ensures var points := Points(m, start, fuel, true);
      var r := OptimizeParamsCorrected(quoteTotals, m, start, fuel, tester, minFrequency).value;
      && r.frequentEnough == Filter(StatsOf(points, tester, true), QualifiesFor(minFrequency))
      && (forall s :: s in r.frequentEnough ==> !Better(s, r.best) && Consistent(s))
  {
    var points := Points(m, start, fuel, true);
    StatsConsistent(points, tester, true);
    SelectMeaning(StatsOf(points, tester, true), minFrequency);
  }

  /** For a positive rate, a hundred tested hours or more and a full cycle of
      calls, the run as written is the intended run except for the advice
      selector: both panic exactly when a visited point's backtest panics,
      and when the two selectors pick the same advice in every batch, the
      two runs are the same. */
  lemma AsWrittenAgreesCorrected(quoteTotals: Result<seq<Result<int>>>, rate: real, tester: Tester, minFrequency: real)
    requires rate > 0.0
    requires quoteTotals.Ok? && SumTotals(quoteTotals.value).Ok? && SumTotals(quoteTotals.value).value >= 100
    ensures var lo, hi := S.GetParams(MinScaled), S.GetParams(MaxScaled);
      var fuel := GridSize(lo, hi, rate) + 1;
      var points := Points(ScaledModifier(rate), lo, fuel, true);
      && (!SomePanic(points, tester) ==>
            OptimizeParams(quoteTotals, rate, fuel, tester, minFrequency) == Ok(Select(StatsOf(points, tester, false), minFrequency)))
      && (SomePanic(points, tester) ==>
            OptimizeParams(quoteTotals, rate, fuel, tester, minFrequency) == Panic
            == OptimizeParamsCorrected(quoteTotals, ScaledModifier(rate), lo, fuel, tester, minFrequency))
      && ((forall p :: p in points ==> SelectorsAgree(tester(p).batches)) ==>
            OptimizeParams(quoteTotals, rate, fuel, tester, minFrequency)
            == OptimizeParamsCorrected(quoteTotals, ScaledModifier(rate), lo, fuel, tester, minFrequency))
  {
    var lo, hi := S.GetParams(MinScaled), S.GetParams(MaxScaled);
    var fuel := GridSize(lo, hi, rate) + 1;
    ScaledLoopComplete(rate, lo);
    AsWrittenRunMeaning(quoteTotals, rate, fuel, tester, minFrequency);
    var points := Points(ScaledModifier(rate), lo, fuel, true);
    if forall p :: p in points ==> SelectorsAgree(tester(p).batches) {
      StatsOfAgree(points, tester);
    }
  }

  /** The two selectors pick the same advice in every batch. */
  predicate SelectorsAgree(batches: seq<seq<InternalAdvice>>) {
    forall i :: 0 <= i < |batches| ==> Pick(batches[i], false) == Pick(batches[i], true)
  }

  /** Batches on which the selectors agree give the same tally. */
  lemma {:induction false} FoldAgree(batches: seq<seq<InternalAdvice>>)
    requires SelectorsAgree(batches)
    ensures Fold(batches, false) == Fold(batches, true)
    decreases |batches|
  {
    if |batches| > 0 {
      var init := batches[..|batches| - 1];
      assert SelectorsAgree(init) by {
        forall i | 0 <= i < |init|
          ensures Pick(init[i], false) == Pick(init[i], true)
        {
          assert init[i] == batches[i];
        }
      }
      FoldAgree(init);
      assert Pick(batches[|batches| - 1], false) == Pick(batches[|batches| - 1], true);
    }
  }

  /** ... and so the same figures. */
  lemma StatsOfAgree(points: seq<seq<real>>, tester: Tester)
    requires forall p :: p in points ==> SelectorsAgree(tester(p).batches)
    ensures StatsOf(points, tester, false) == StatsOf(points, tester, true)
  {
    forall i | 0 <= i < |points|
      ensures PointStats(points[i], tester(points[i]).batches, false) == PointStats(points[i], tester(points[i]).batches, true)
    {
      FoldAgree(tester(points[i]).batches);
    }
  }

  // ---- the progress-bar update as written --------------------------------------

  /** The loop with `globalCount % (testerTotalSteps/100)` evaluated for
      every batch: `None` is the integer-division panic or a point's
      backtest that panicked. Without either the figures are those of the
      default selector as written. */
  function StatsAsWritten(total: int, points: seq<seq<real>>, tester: Tester): (r: Option<seq<Stats>>)
    ensures r.Some? ==> r.value == StatsOf(points, tester, false)
    decreases |points|
  {
    if |points| == 0 then Some([])
    else
      var p := points[|points| - 1];
      match StatsAsWritten(total, points[..|points| - 1], tester)
      case None => None
      case Some(init) =>
        if tester(p).panicked then None
        else
          match FoldAsWritten(total, tester(p).batches)
          case None => None
          case Some(t) =>
            StatsOfSnoc(points, tester, false);
            Some(init + [Stats(p, Frequency(t), Accuracy(t))])
  }

  /** Some visited point's test delivers a batch. */
  predicate SomeBatch(points: seq<seq<real>>, tester: Tester) {
    exists i :: 0 <= i < |points| && tester(points[i]).batches != []
  }

  lemma SomeBatchSnoc(points: seq<seq<real>>, tester: Tester)
    requires |points| > 0
    ensures SomeBatch(points, tester) <==>
      SomeBatch(points[..|points| - 1], tester) || tester(points[|points| - 1]).batches != []
  {
    var init := points[..|points| - 1];
    if SomeBatch(points, tester) {
      var i :| 0 <= i < |points| && tester(points[i]).batches != [];
      if i < |init| {
        assert init[i] == points[i];
      }
    }
    if SomeBatch(init, tester) {
      var i :| 0 <= i < |init| && tester(init[i]).batches != [];
      assert points[i] == init[i];
    }
  }

  /** Some visited point's backtest panicked, which ends the whole process:
      the tests run in goroutines the optimizer does not recover. */
  predicate SomePanic(points: seq<seq<real>>, tester: Tester) {
    exists i :: 0 <= i < |points| && tester(points[i]).panicked
  }

  lemma SomePanicSnoc(points: seq<seq<real>>, tester: Tester)
    requires |points| > 0
    ensures SomePanic(points, tester) <==>
      SomePanic(points[..|points| - 1], tester) || tester(points[|points| - 1]).panicked
  {
    var init := points[..|points| - 1];
    if SomePanic(points, tester) {
      var i :| 0 <= i < |points| && tester(points[i]).panicked;
      if i < |init| {
        assert init[i] == points[i];
      }
    }
    if SomePanic(init, tester) {
      var i :| 0 <= i < |init| && tester(init[i]).panicked;
      assert points[i] == init[i];
    }
  }

  /** The loop panics exactly when some point's test delivers a batch while
      `testerTotalSteps/100` is zero, or some point's backtest panics. */
  lemma {:induction false} StatsAsWrittenPanics(total: int, points: seq<seq<real>>, tester: Tester)
    ensures StatsAsWritten(total, points, tester).None? <==>
      || (GoDiv(total, 100) == 0 && exists i :: 0 <= i < |points| && tester(points[i]).batches != [])
      || SomePanic(points, tester)
    decreases |points|
  {
    if |points| > 0 {
      var init, p := points[..|points| - 1], points[|points| - 1];
      StatsAsWrittenPanics(total, init, tester);
      FoldAsWrittenPanics(total, tester(p).batches);
      SomeBatchSnoc(points, tester);
      SomePanicSnoc(points, tester);
      assert StatsAsWritten(total, points, tester).None? <==>
        StatsAsWritten(total, init, tester).None? || tester(p).panicked || FoldAsWritten(total, tester(p).batches).None?;
    }
  }

  /** Fewer than a hundred tested hours panic as soon as a batch arrives. */
  lemma {:induction false} SmallTotalPanicsOptimizer(total: int, points: seq<seq<real>>, tester: Tester, k: int)
    requires 0 <= total < 100 && 0 <= k < |points| && |tester(points[k]).batches| > 0
    ensures StatsAsWritten(total, points, tester) == None
    decreases |points|
  {
    var init := points[..|points| - 1];
    if k < |points| - 1 {
      assert init[k] == points[k];
      SmallTotalPanicsOptimizer(total, init, tester, k);
    } else {
      SmallTotalPanics(total, tester(points[k]).batches);
    }
  }

  /** With a hundred hours or more the progress update is harmless: only a
      point's backtest can still panic. */
  lemma {:induction false} LargeTotalAgreesOptimizer(total: int, points: seq<seq<real>>, tester: Tester)
    requires total >= 100
    ensures StatsAsWritten(total, points, tester) ==
      if SomePanic(points, tester) then None else Some(StatsOf(points, tester, false))
    decreases |points|
  {
    if |points| > 0 {
      LargeTotalAgreesOptimizer(total, points[..|points| - 1], tester);
      SomePanicSnoc(points, tester);
      LargeTotalAgrees(total, tester(points[|points| - 1]).batches);
    }
  }
}
