/** One grid point's figures in the optimizer, frequency and accuracy from
    the tester application's tally of the selector's picks, and the choice
    of the most accurate point whose frequency is high enough (ties to the
    more frequent, then to the earlier), saved under a name that carries
    its figures. */
module OptimizerStats {
  import opened Common
  import opened AdviceBase
  import opened TesterApp
  import ParamsTester

  // ---- one point's figures ----------------------------------------------------

  /** A point with its frequency and accuracy; `None` is the NaN of 0/0. */
  datatype Stats = Stats(params: seq<real>, frequency: Option<real>, accuracy: Option<real>)

  /** The zero value the best point starts from. */
  const ZeroStats: Stats := Stats([], Some(0.0), Some(0.0))

  /** A point's backtest over every quote: the batches the quotes' tests
      deliver, in arrival order, and whether one of those tests panicked
      (the tester, the goroutines and the channel are this parameter). */
  type Tester = seq<real> -> ParamsTester.Run

  /** The per-point counters are the tester application's, so its tally
      gives the point's figures: the share of batches with a pick, and the
      share of picks that hit their take profit. */
  function PointStats(point: seq<real>, batches: seq<seq<InternalAdvice>>, corrected: bool): Stats {
    var t := Fold(batches, corrected);
    Stats(point, Frequency(t), Accuracy(t))
  }

  /** A point's frequency is the percentage of its batches with a pick, and
      its accuracy the percentage of picks that hit their take profit. */
  lemma PointStatsMeaning(point: seq<real>, batches: seq<seq<InternalAdvice>>, corrected: bool)
    ensures var s := PointStats(point, batches, corrected);
      && s.params == point
      && s.frequency == Ratio(|Picks(batches, corrected)|, |batches|)
      && s.accuracy == Ratio(|Filter(Picks(batches, corrected), IsProfit)|, |Picks(batches, corrected)|)
  {
    CountsMeaning(batches, corrected);
    ListsMeaning(batches, corrected);
  }

  /** An accuracy is a percentage and exists only after a pick, which also
      makes the frequency positive. */
  predicate Consistent(s: Stats) {
    s.accuracy.Some? ==>
      0.0 <= s.accuracy.value && s.frequency.Some? && s.frequency.value > 0.0
  }

  lemma {:induction false} PointStatsConsistent(point: seq<real>, batches: seq<seq<InternalAdvice>>, corrected: bool)
    ensures Consistent(PointStats(point, batches, corrected))
    ensures PointStats(point, batches, corrected).accuracy.Some? <==> |Picks(batches, corrected)| > 0
  {
    var t := Fold(batches, corrected);
    FiguresMeaning(batches, corrected);
    CountsMeaning(batches, corrected);
    Bounds(batches, corrected);
    if |Picks(batches, corrected)| > 0 {
      RatioPositive(t.counters.advicesOK, t.counters.count);
    }
  }

  lemma RatioPositive(num: int, den: int)
    requires 0 < num && 0 < den
    ensures Ratio(num, den).value > 0.0
  {
  }

  /** The figures do not depend on how the quotes' runs interleave. */
  lemma PointStatsOrderIndependent(point: seq<real>, a: seq<seq<InternalAdvice>>, b: seq<seq<InternalAdvice>>, corrected: bool)
    ensures PointStats(point, a + b, corrected) == PointStats(point, b + a, corrected)
  {
    var x, y := Fold(a + b, corrected), Fold(b + a, corrected);
    OrderIndependent(a, b, corrected);
    ProfitsOrderIndependent(a, b, corrected);
    assert Frequency(x) == Frequency(y);
    assert Accuracy(x) == Accuracy(y);
  }

  // ---- choosing the best point ---------------------------------------------------

  predicate Qualifies(s: Stats, minFrequency: real) {
    s.frequency.Some? && s.frequency.value >= minFrequency
  }

  /** Qualification as a value, so that filters over it denote one function. */
  function QualifiesFor(minFrequency: real): Stats -> bool {
    (s: Stats) => Qualifies(s, minFrequency)
  }

  /** Float comparisons, false whenever a NaN takes part. */
  predicate Less(a: Option<real>, b: Option<real>) {
    a.Some? && b.Some? && a.value < b.value
  }

  predicate Same(a: Option<real>, b: Option<real>) {
    a.Some? && b.Some? && a.value == b.value
  }

  /** s replaces the best so far: higher accuracy, or equal accuracy and
      higher frequency. */
  predicate Better(s: Stats, best: Stats) {
    Less(best.accuracy, s.accuracy) || (Same(best.accuracy, s.accuracy) && Less(best.frequency, s.frequency))
  }

  /** Both figures are numbers. */
  predicate Ranked(s: Stats) {
    s.accuracy.Some? && s.frequency.Some?
  }

  lemma BetterTransitive(x: Stats, y: Stats, z: Stats)
    requires Better(x, y) && Better(y, z)
    ensures Better(x, z)
  {
  }

  /** Between ranked points, not being better than b and c being better
      than b make c better than the point. */
  lemma BetterTotal(x: Stats, b: Stats, c: Stats)
    requires Ranked(x) && Ranked(b) && !Better(x, b) && Better(c, b)
    ensures Better(c, x)
  {
  }

  /** The best point and the list of frequent-enough points. */
  datatype Selection = Selection(best: Stats, frequentEnough: seq<Stats>)

  /** The loop over the points' figures, in visiting order. */
  function Select(stats: seq<Stats>, minFrequency: real): (r: Selection)
    ensures |r.frequentEnough| <= |stats|
    ensures forall s :: s in r.frequentEnough ==> s in stats && Qualifies(s, minFrequency)
    ensures r.best == ZeroStats || r.best in r.frequentEnough
    decreases |stats|
  {
    if |stats| == 0 then Selection(ZeroStats, [])
    else
      var r := Select(stats[..|stats| - 1], minFrequency);
      var cur := stats[|stats| - 1];
      if !Qualifies(cur, minFrequency) then r
      else Selection(if Better(cur, r.best) then cur else r.best, r.frequentEnough + [cur])
  }

  /** The frequent-enough list holds the qualifying points in visiting order. */
  lemma {:induction false} FrequentEnoughInOrder(stats: seq<Stats>, minFrequency: real)
    ensures Select(stats, minFrequency).frequentEnough == Filter(stats, QualifiesFor(minFrequency))
    decreases |stats|
  {
    if |stats| > 0 {
      var init, cur := stats[..|stats| - 1], stats[|stats| - 1];
      assert stats == init + [cur];
      FrequentEnoughInOrder(init, minFrequency);
      FilterAppend(init, [cur], QualifiesFor(minFrequency));
      assert [cur][1..] == [];
    }
  }

  /** The best point is the starting zero value or a frequent-enough point
      better than it; it is ranked, and no frequent-enough point is better. */
  lemma {:induction false} BestIsMaximal(stats: seq<Stats>, minFrequency: real)
    ensures var r := Select(stats, minFrequency);
      (r.best == ZeroStats || (r.best in r.frequentEnough && Better(r.best, ZeroStats)))
      && Ranked(r.best)
      && forall s :: s in r.frequentEnough ==> !Better(s, r.best)
    decreases |stats|
  {
    if |stats| > 0 {
      var init, cur := stats[..|stats| - 1], stats[|stats| - 1];
      var p := Select(init, minFrequency);
      BestIsMaximal(init, minFrequency);
      if Qualifies(cur, minFrequency) {
        var r := Select(stats, minFrequency);
        assert r.frequentEnough == p.frequentEnough + [cur];
        if Better(cur, p.best) {
          assert r.best == cur;
          if p.best != ZeroStats {
            BetterTransitive(cur, p.best, ZeroStats);
          }
          forall s | s in r.frequentEnough
            ensures !Better(s, cur)
          {
            if s != cur && Better(s, cur) {
              BetterTransitive(s, cur, p.best);
            }
          }
        }
      }
    }
  }

  /** Ties go to the earlier point: every frequent-enough point before the
      best one is strictly worse or has no accuracy. */
  lemma {:induction false} BestIsEarliest(stats: seq<Stats>, minFrequency: real) returns (i: nat)
    requires Select(stats, minFrequency).best != ZeroStats
    ensures var r := Select(stats, minFrequency);
      i < |r.frequentEnough| && r.frequentEnough[i] == r.best
      && forall j :: 0 <= j < i ==>
        r.frequentEnough[j].accuracy.None? || Better(r.best, r.frequentEnough[j])
    decreases |stats|
  {
    var init, cur := stats[..|stats| - 1], stats[|stats| - 1];
    var p := Select(init, minFrequency);
    var r := Select(stats, minFrequency);
    if Qualifies(cur, minFrequency) && Better(cur, p.best) {
      BestIsMaximal(init, minFrequency);
      i := |p.frequentEnough|;
      forall j | 0 <= j < i
        ensures r.frequentEnough[j].accuracy.None? || Better(cur, r.frequentEnough[j])
      {
        var x := p.frequentEnough[j];
        assert r.frequentEnough[j] == x;
        FrequentEnoughInOrder(init, minFrequency);
        if x.accuracy.Some? {
          BetterTotal(x, p.best, cur);
        }
      }
    } else {
      i := BestIsEarliest(init, minFrequency);
      if Qualifies(cur, minFrequency) {
        assert r.frequentEnough == p.frequentEnough + [cur];
      }
    }
  }

  /** `saveResults`: the best point is saved when its frequency is positive,
      under the name followed by its frequency and accuracy; `format` is
      `FormatFloat(x, 'f', 2, 64)`, with `None` formatting a NaN. */
  function SaveName(name: string, best: Stats, format: Option<real> -> string): (r: Option<string>)
    ensures r.Some? <==> best.frequency.Some? && best.frequency.value > 0.0
    ensures r.Some? ==> |r.value| > |name| && r.value[..|name| + 1] == name + "_"
  {
    if best.frequency.Some? && best.frequency.value > 0.0 then
      Some(name + "_" + format(best.frequency) + "_" + format(best.accuracy))
    else None
  }

  /** With figures from real tallies, something is saved exactly when some
      frequent-enough point made a pick, and then it is the best point. */
  lemma SavedIff(name: string, stats: seq<Stats>, minFrequency: real, format: Option<real> -> string)
    requires forall s :: s in stats ==> Consistent(s)
    ensures var r := Select(stats, minFrequency);
      SaveName(name, r.best, format).Some? <==> exists s :: s in r.frequentEnough && s.accuracy.Some?
  {
    var r := Select(stats, minFrequency);
    BestIsMaximal(stats, minFrequency);
    FrequentEnoughInOrder(stats, minFrequency);
    if r.best == ZeroStats {
      forall s | s in r.frequentEnough
        ensures s.accuracy.None?
      {
        assert Consistent(s);
        if s.accuracy.Some? {
          assert Better(s, ZeroStats);
        }
      }
    } else {
      assert Consistent(r.best);
    }
  }
}
