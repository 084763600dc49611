/** The recursive calm-before-storm adviser: for every storm/calm split of
    the period range it derives calm-before-storm thresholds from the calm's
    volatility and volume and the storm's power, asks the calm-before-storm
    adviser, and returns the first advice. Without one it answers with a
    rejection reason chosen from the tally of the inner reasons. */
module CBSRAdviser {
  import opened Common
  import opened Candlestick
  import opened Calc
  import opened GreedyGetter
  import opened AdviceBase
  import opened SplitSearch
  import opened ParamsCBSR
  import CBS = ParamsCBS
  import Inner = CBSAdviser

  const Ok: int := 1
  const CalmPeriodTooVolatile: int := 2
  const TooSteepCalmLine: int := 3
  const StormTooWeak: int := 4
  const StormTooStrong: int := 5
  const StormTooSmall: int := 6
  const WrongDirectionReason: int := 7
  const SystemError: int := 8

  /** The fallback reason when no split was tried. */
  const NoReason: int := -1

  const ReasonNames: seq<string> := [
    "CBSROk", "CBSRCalmPeriodTooVolatile", "CBSRTooSteepCalmLine", "CBSRStormTooWeak",
    "CBSRStormTooStrong", "CBSRStormTooSmall", "CBSRWrongDirection", "CBSRSystemError"]

  function ReasonName(reason: int): (name: string)
    ensures 1 <= reason <= |ReasonNames| ==> name == ReasonNames[reason - 1]
    ensures !(1 <= reason <= |ReasonNames|) ==> name == "CBSRUnknown"
  {
    if 1 <= reason <= |ReasonNames| then ReasonNames[reason - 1] else "CBSRUnknown"
  }

  /** `CBStoCBSRReason`: the two enumerations share their layout. */
  function FromCBSReason(reason: int): (r: int)
    ensures 1 <= reason <= 8 ==> r == reason
    ensures !(1 <= reason <= 8) ==> r == NoReason
  {
    if reason == Inner.Ok then Ok
    else if reason == Inner.CalmPeriodTooVolatile then CalmPeriodTooVolatile
    else if reason == Inner.TooSteepCalmLine then TooSteepCalmLine
    else if reason == Inner.StormTooWeak then StormTooWeak
    else if reason == Inner.StormTooStrong then StormTooStrong
    else if reason == Inner.StormTooSmall then StormTooSmall
    else if reason == Inner.WrongDirectionReason then WrongDirectionReason
    else if reason == Inner.SystemError then SystemError
    else NoReason
  }

  /** Distinct known codes have distinct names. */
  lemma ReasonNameInjective(a: int, b: int)
    requires 1 <= a <= |ReasonNames| && a != b
    ensures ReasonName(a) != ReasonName(b)
  {
  }

  // ---- one split -------------------------------------------------------------

  function CalmSpan(x: Split, t: int): Span {
    Span(t - (x.calm + x.storm) * Hour, t - x.storm * Hour)
  }

  function StormSpan(x: Split, t: int): Span {
    Span(t - x.storm * Hour, t)
  }

  /** The inner adviser's thresholds for a split, scaled from the calm's
      volatility and volume and the storm's power. */
  function Derived(q: CBSR, x: Split, calmVolatility: real, calmVolume: real, stormPower: real): (p: CBS.CBS)
    requires q.calmToCheckDirection != 0.0 && q.stormPowerToCheckDirectionDiff != 0.0
    ensures p.calmDurationHours == x.calm && p.stormDurationHours == x.storm
    ensures p.takeProfitDiff == stormPower * q.takeProfitDiffToStormPower
    ensures p.checkDirectionHours == IntPart(x.calm as real / q.calmToCheckDirection)
  {
    CBS.CBS(
      x.calm,
      stormPower * q.calmMaxVolatilityToStormPower,
      stormPower * q.calmMaxCurvatureToStormPower,
      x.storm,
      q.stormMinPowerToCalmVolatility * calmVolatility,
      q.stormMaxPowerToCalmVolatility * calmVolatility,
      calmVolume * q.stormMinVolumeToCalmVolume,
      stormPower * q.takeProfitDiffToStormPower,
      stormPower * q.stopLossDiffToStormPower,
      IntPart(x.calm as real / q.calmToCheckDirection),
      stormPower / q.stormPowerToCheckDirectionDiff)
  }

  /** One split: fetch the calm and the storm, derive the thresholds and run
      the inner adviser. The verdict keeps the inner adviser's reason codes;
      a fetch error is reported as an inner system error. An empty storm and
      a zero divisor panic. */
  function TrySplit(repo: RangeQuery, volatility: Volatility, q: CBSR, current: Candle, symbol: string, x: Split): (e: Evaluation)
    ensures |e.queried| >= 1 && e.queried[0] == CalmSpan(x, current.timestamp)
    ensures e.Done? ==> (e.verdict.advice.Some? <==> e.verdict.reason == Inner.Ok)
    ensures e.Done? ==> (e.verdict.error.Some? <==> e.verdict.reason == Inner.SystemError)
  {
    var cs := CalmSpan(x, current.timestamp);
    var ss := StormSpan(x, current.timestamp);
    match Fetch(repo, symbol, cs)
    case Err(err) => Done(Verdict(None, Inner.SystemError, Some(err)), [cs])
    case Panic => Panicked([cs])
    case Ok(calm) =>
      match Fetch(repo, symbol, ss)
      case Err(err) => Done(Verdict(None, Inner.SystemError, Some(err)), [cs, ss])
      case Panic => Panicked([cs, ss])
      case Ok(storm) =>
        if |storm| == 0 || q.calmToCheckDirection == 0.0 || q.stormPowerToCheckDirectionDiff == 0.0 then
          Panicked([cs, ss])
        else
          var p := Derived(q, x, volatility(calm), Volume(calm), Abs(storm[0].open - storm[|storm| - 1].close));
          var inner := Inner.GetAdvice(repo, volatility, CBS.GetParams(p), current, symbol);
          if inner.Panicked? then Panicked([cs, ss] + inner.queried)
          else Done(inner.verdict, [cs, ss] + inner.queried)
  }

  /** The inner adviser, reading back the derived thresholds, queries the
      same storm and calm windows the split fetched. */
  lemma InnerSeesSplit(q: CBSR, x: Split, calmVolatility: real, calmVolume: real, stormPower: real, t: int)
    requires q.calmToCheckDirection != 0.0 && q.stormPowerToCheckDirectionDiff != 0.0
    ensures var p := CBS.SetParams(CBS.GetParams(Derived(q, x, calmVolatility, calmVolume, stormPower)));
      Inner.StormSpan(p, t) == StormSpan(x, t) && Inner.CalmSpan(p, t) == CalmSpan(x, t)
  {
    CBS.SetGetRoundTrip(Derived(q, x, calmVolatility, calmVolume, stormPower));
  }

  /** The evaluation of every split of the search, for fixed inputs. */
  function Attempt(repo: RangeQuery, volatility: Volatility, q: CBSR, current: Candle, symbol: string): Split -> Evaluation {
    x => TrySplit(repo, volatility, q, current, symbol, x)
  }

  /** A per-split evaluation that gives an advice exactly on the inner Ok. */
  ghost predicate Consistent(attempt: Split -> Evaluation) {
    forall x :: attempt(x).Done? ==> (attempt(x).verdict.advice.Some? <==> attempt(x).verdict.reason == Inner.Ok)
  }

  lemma AttemptConsistent(repo: RangeQuery, volatility: Volatility, q: CBSR, current: Candle, symbol: string)
    ensures Consistent(Attempt(repo, volatility, q, current, symbol))
  {
    var attempt := Attempt(repo, volatility, q, current, symbol);
    forall x | attempt(x).Done?
      ensures attempt(x).verdict.advice.Some? <==> attempt(x).verdict.reason == Inner.Ok
    {
      assert attempt(x) == TrySplit(repo, volatility, q, current, symbol, x);
    }
  }

  // ---- the fallback reason -------------------------------------------------------

  function Count(reasons: map<int, int>, r: int): int {
    if r in reasons then reasons[r] else 0
  }

  /** The tally after one more rejection for `reason`. */
  function Bump(reasons: map<int, int>, reason: int): (r: map<int, int>)
    ensures Count(r, reason) == Count(reasons, reason) + 1
    ensures forall k :: k != reason ==> Count(r, k) == Count(reasons, k)
    ensures forall k :: k in r <==> k in reasons || k == reason
  {
    reasons[reason := Count(reasons, reason) + 1]
  }

  /** The loop over the tally as written: `maxCount` stays 0, so every key
      with a positive count replaces the answer and the last such key in
      iteration order wins. */
  function FallbackAsWritten(reasons: map<int, int>, keys: seq<int>, best: int): (r: int)
    ensures r == best || (r in keys && Count(reasons, r) > 0)
    decreases |keys|
  {
    if |keys| == 0 then best
    else FallbackAsWritten(reasons, keys[1..], if Count(reasons, keys[0]) > 0 then keys[0] else best)
  }

  /** The loop with `maxCount` updated: the first key of highest count wins. */
  function FallbackCorrected(reasons: map<int, int>, keys: seq<int>, best: int, maxCount: int): (r: int)
    ensures r == best || r in keys
    ensures r != best ==> Count(reasons, r) > maxCount
    ensures forall k :: k in keys ==> Count(reasons, k) <= Max(maxCount, Count(reasons, r))
    decreases |keys|
  {
    if |keys| == 0 then best
    else if Count(reasons, keys[0]) > maxCount then FallbackCorrected(reasons, keys[1..], keys[0], Count(reasons, keys[0]))
    else FallbackCorrected(reasons, keys[1..], best, maxCount)
  }

  /** The reason chosen when no split gave an advice: -1 or a tallied one. */
  function Fallback(reasons: map<int, int>, keys: seq<int>, corrected: bool): (r: int)
    ensures r == NoReason || Count(reasons, r) > 0
  {
    if corrected then FallbackCorrected(reasons, keys, NoReason, 0) else FallbackAsWritten(reasons, keys, NoReason)
  }

  /** As written, with positive counts, the answer is the last key visited,
      whatever the counts. */
  lemma {:induction false} AsWrittenPicksLast(reasons: map<int, int>, keys: seq<int>, best: int)
    requires |keys| > 0
    requires forall k :: k in keys ==> Count(reasons, k) > 0
    ensures FallbackAsWritten(reasons, keys, best) == keys[|keys| - 1]
    decreases |keys|
  {
    assert Count(reasons, keys[0]) > 0;
    if |keys| > 1 {
      assert keys[1..][|keys| - 2] == keys[|keys| - 1];
      AsWrittenPicksLast(reasons, keys[1..], keys[0]);
    }
  }

  /** Corrected, over the keys of a tally of positive counts, the answer is a
      reason of highest count; with an empty tally it is -1. */
  lemma CorrectedPicksMostFrequent(reasons: map<int, int>, keys: seq<int>)
    requires forall k :: k in keys <==> k in reasons
    requires forall k :: k in reasons ==> reasons[k] > 0
    ensures |keys| == 0 ==> FallbackCorrected(reasons, keys, NoReason, 0) == NoReason
    ensures |keys| > 0 ==> FallbackCorrected(reasons, keys, NoReason, 0) in reasons
    ensures forall k :: k in reasons ==> reasons[k] <= Count(reasons, FallbackCorrected(reasons, keys, NoReason, 0))
  {
    var r := FallbackCorrected(reasons, keys, NoReason, 0);
    if |keys| > 0 {
      assert keys[0] in keys;
      assert Count(reasons, keys[0]) <= Max(0, Count(reasons, r));
    }
    forall k | k in reasons
      ensures reasons[k] <= Count(reasons, r)
    {
      assert k in keys;
      assert Count(reasons, k) <= Max(0, Count(reasons, r));
    }
  }

  /** A tally where the as-written loop does not pick the most frequent
      reason: three storms too weak, then one storm too strong. */
  lemma FallbackCounterexample(reasons: map<int, int>, keys: seq<int>)
    requires reasons == map[StormTooWeak := 3, StormTooStrong := 1] && keys == [StormTooWeak, StormTooStrong]
    ensures FallbackAsWritten(reasons, keys, NoReason) == StormTooStrong
    ensures FallbackCorrected(reasons, keys, NoReason, 0) == StormTooWeak
    ensures Count(reasons, StormTooWeak) > Count(reasons, StormTooStrong)
  {
    AsWrittenPicksLast(reasons, keys, NoReason);
    assert keys[1..] == [StormTooStrong];
    assert keys[1..][1..] == [];
  }

  // ---- the search ------------------------------------------------------------------

  /** An ordinary rejection: no panic, no advice, no system error. */
  predicate Rejected(e: Evaluation) {
    e.Done? && e.verdict.reason != Inner.Ok && e.verdict.reason != Inner.SystemError
  }

  /** The splits from `xs` on, each evaluated by `attempt`: the first split
      whose verdict is an advice ends the search, a system error or a panic
      aborts it, and any other reason is tallied. `order` lists the keys of
      the tally in Go's map iteration order, which the language leaves
      unspecified. */
  function SearchWith(attempt: Split -> Evaluation, xs: seq<Split>, reasons: map<int, int>,
                      order: map<int, int> -> seq<int>, corrected: bool): (e: Evaluation)
    requires Consistent(attempt) && Ok !in reasons
    ensures e.Done? ==> (e.verdict.advice.Some? <==> e.verdict.reason == Ok)
    ensures e.Done? && e.verdict.error.Some? ==> e.verdict.reason == SystemError
    ensures |xs| == 0 ==> e == Done(Verdict(None, Fallback(reasons, order(reasons), corrected), None), [])
    decreases |xs|
  {
    if |xs| == 0 then Done(Verdict(None, Fallback(reasons, order(reasons), corrected), None), [])
    else
      var e := attempt(xs[0]);
      if e.Panicked? then e
      else if e.verdict.reason == Inner.Ok then Done(Verdict(e.verdict.advice, Ok, None), e.queried)
      else if e.verdict.reason == Inner.SystemError then Done(Verdict(None, SystemError, e.verdict.error), e.queried)
      else
        var rest := SearchWith(attempt, xs[1..], Bump(reasons, e.verdict.reason), order, corrected);
        if rest.Panicked? then Panicked(e.queried + rest.queried) else Done(rest.verdict, e.queried + rest.queried)
  }

  /** `GetAdvice` of the recursive adviser. */
  function GetAdvice(repo: RangeQuery, volatility: Volatility, params: seq<real>, current: Candle, symbol: string,
                     order: map<int, int> -> seq<int>, corrected: bool): (e: Evaluation)
    ensures |params| < Arity ==> e == Panicked([])
    ensures e.Done? ==> (e.verdict.advice.Some? <==> e.verdict.reason == Ok)
    ensures e.Done? && e.verdict.error.Some? ==> e.verdict.reason == SystemError
  {
    if |params| < Arity then Panicked([])
    else
      var q := SetParams(params);
      AttemptConsistent(repo, volatility, q, current, symbol);
      SearchWith(Attempt(repo, volatility, q, current, symbol),
                 Splits(q.periodHoursMin, q.periodHoursMax, q.stormToCalmMin, q.stormToCalmMax), map[], order, corrected)
  }

  // ---- reference definitions of the search's outcome -------------------------------

  /** The windows the evaluations of `xs` query, one evaluation after the other. */
  function Flatten(attempt: Split -> Evaluation, xs: seq<Split>): seq<Span>
    decreases |xs|
  {
    if |xs| == 0 then [] else attempt(xs[0]).queried + Flatten(attempt, xs[1..])
  }

  /** How many splits of `xs` are rejected for reason r. */
  function Occurrences(attempt: Split -> Evaluation, xs: seq<Split>, r: int): nat
    decreases |xs|
  {
    if |xs| == 0 then 0
    else (if attempt(xs[0]).Done? && attempt(xs[0]).verdict.reason == r then 1 else 0) + Occurrences(attempt, xs[1..], r)
  }

  /** The tally after the splits of `xs`. */
  function Tally(attempt: Split -> Evaluation, xs: seq<Split>, reasons: map<int, int>): map<int, int>
    decreases |xs|
  {
    if |xs| == 0 then reasons
    else Tally(attempt, xs[1..], if attempt(xs[0]).Done? then Bump(reasons, attempt(xs[0]).verdict.reason) else reasons)
  }

  /** The tally counts each reason's occurrences, and holds a key exactly for
      the reasons that occur. */
  lemma {:induction false} TallyCounts(attempt: Split -> Evaluation, xs: seq<Split>, reasons: map<int, int>)
    ensures forall k :: Count(Tally(attempt, xs, reasons), k) == Count(reasons, k) + Occurrences(attempt, xs, k)
    ensures forall k :: k in Tally(attempt, xs, reasons) <==> k in reasons || Occurrences(attempt, xs, k) > 0
    decreases |xs|
  {
    if |xs| > 0 {
      var e := attempt(xs[0]);
      TallyCounts(attempt, xs[1..], if e.Done? then Bump(reasons, e.verdict.reason) else reasons);
    }
  }

  /** The first split that is not an ordinary rejection decides: its advice
      is returned, its system error aborts, its panic propagates; every
      window up to it has been queried, in order. */
  lemma {:induction false} FirstDecisive(attempt: Split -> Evaluation, xs: seq<Split>, reasons: map<int, int>,
                                         order: map<int, int> -> seq<int>, corrected: bool, k: nat)
    requires Consistent(attempt) && Ok !in reasons
    requires k < |xs| && !Rejected(attempt(xs[k]))
    requires forall i :: 0 <= i < k ==> Rejected(attempt(xs[i]))
    ensures var e := SearchWith(attempt, xs, reasons, order, corrected);
      e.queried == Flatten(attempt, xs[..k + 1]) && (e.Panicked? <==> attempt(xs[k]).Panicked?)
    ensures var e := SearchWith(attempt, xs, reasons, order, corrected);
      var d := attempt(xs[k]);
      d.Done? && d.verdict.reason == Inner.Ok ==> e.verdict == Verdict(d.verdict.advice, Ok, None)
    ensures var e := SearchWith(attempt, xs, reasons, order, corrected);
      var d := attempt(xs[k]);
      d.Done? && d.verdict.reason == Inner.SystemError ==> e.verdict == Verdict(None, SystemError, d.verdict.error)
    decreases k
  {
    assert xs[..k + 1][0] == xs[0];
    if k > 0 {
      var e := attempt(xs[0]);
      assert Rejected(e);
      forall i | 0 <= i < k - 1
        ensures Rejected(attempt(xs[1..][i]))
      {
        assert xs[1..][i] == xs[i + 1];
        assert Rejected(attempt(xs[i + 1]));
      }
      assert xs[1..][k - 1] == xs[k];
      FirstDecisive(attempt, xs[1..], Bump(reasons, e.verdict.reason), order, corrected, k - 1);
      assert xs[..k + 1][1..] == xs[1..][..k];
    } else {
      assert xs[..1][1..] == [];
    }
  }

  /** When every split is rejected, the search queries every window and
      answers with the fallback over the complete tally. */
  lemma {:induction false} AllRejected(attempt: Split -> Evaluation, xs: seq<Split>, reasons: map<int, int>,
                                       order: map<int, int> -> seq<int>, corrected: bool)
    requires Consistent(attempt) && Ok !in reasons
    requires forall i :: 0 <= i < |xs| ==> Rejected(attempt(xs[i]))
    ensures SearchWith(attempt, xs, reasons, order, corrected)
      == Done(Verdict(None, Fallback(Tally(attempt, xs, reasons), order(Tally(attempt, xs, reasons)), corrected), None),
              Flatten(attempt, xs))
    decreases |xs|
  {
    if |xs| > 0 {
      var e := attempt(xs[0]);
      assert Rejected(e);
      forall i | 0 <= i < |xs| - 1
        ensures Rejected(attempt(xs[1..][i]))
      {
        assert xs[1..][i] == xs[i + 1];
        assert Rejected(attempt(xs[i + 1]));
      }
      AllRejected(attempt, xs[1..], Bump(reasons, e.verdict.reason), order, corrected);
    }
  }

  /** With `maxCount` updated and the tally's keys visited, a fully rejected
      search answers with a most frequent rejection reason, or -1 when there
      was no split. */
  lemma MostFrequentWhenCorrected(attempt: Split -> Evaluation, xs: seq<Split>, order: map<int, int> -> seq<int>)
    requires Consistent(attempt)
    requires forall i :: 0 <= i < |xs| ==> Rejected(attempt(xs[i]))
    requires var t := Tally(attempt, xs, map[]); forall k :: k in order(t) <==> k in t
    ensures SearchWith(attempt, xs, map[], order, true).Done?
    ensures var r := SearchWith(attempt, xs, map[], order, true).verdict.reason;
      (|xs| == 0 ==> r == NoReason)
      && (|xs| > 0 ==> Occurrences(attempt, xs, r) > 0)
      && forall k :: Occurrences(attempt, xs, k) <= Occurrences(attempt, xs, r)
  {
    var t := Tally(attempt, xs, map[]);
    AllRejected(attempt, xs, map[], order, true);
    TallyCounts(attempt, xs, map[]);
    assert forall k :: Count(map[], k) == 0;
    forall k | k in t
      ensures t[k] > 0
    {
      assert Count(t, k) == Occurrences(attempt, xs, k);
    }
    CorrectedPicksMostFrequent(t, order(t));
    var r := FallbackCorrected(t, order(t), NoReason, 0);
    if |xs| > 0 {
      assert Occurrences(attempt, xs, attempt(xs[0]).verdict.reason) > 0;
      assert attempt(xs[0]).verdict.reason in t;
    }
    forall k
      ensures Occurrences(attempt, xs, k) <= Occurrences(attempt, xs, r)
    {
      assert Count(t, k) == Occurrences(attempt, xs, k);
      assert Count(t, r) == Occurrences(attempt, xs, r);
    }
  }

  /** As written, a fully rejected search answers with the reason the map
      iteration visits last, however rarely it occurred. */
  lemma LastVisitedAsWritten(attempt: Split -> Evaluation, xs: seq<Split>, order: map<int, int> -> seq<int>)
    requires Consistent(attempt)
    requires forall i :: 0 <= i < |xs| ==> Rejected(attempt(xs[i]))
    requires var t := Tally(attempt, xs, map[]); |order(t)| > 0 && forall k :: k in order(t) <==> k in t
    ensures SearchWith(attempt, xs, map[], order, false).Done?
    ensures var t := Tally(attempt, xs, map[]);
      SearchWith(attempt, xs, map[], order, false).verdict.reason == order(t)[|order(t)| - 1]
  {
    var t := Tally(attempt, xs, map[]);
    AllRejected(attempt, xs, map[], order, false);
    TallyCounts(attempt, xs, map[]);
    assert forall k :: Count(map[], k) == 0;
    forall k | k in order(t)
      ensures Count(t, k) > 0
    {
      assert Count(t, k) == Occurrences(attempt, xs, k);
    }
    AsWrittenPicksLast(t, order(t), NoReason);
  }

  /** The adviser returns the advice of the first split, in loop order, whose
      inner evaluation accepts, when every earlier split was rejected. */
  lemma FirstAcceptedSplitWins(repo: RangeQuery, volatility: Volatility, params: seq<real>, current: Candle, symbol: string,
                               order: map<int, int> -> seq<int>, corrected: bool, k: nat)
    requires |params| >= Arity
    requires var q := SetParams(params);
      var xs := Splits(q.periodHoursMin, q.periodHoursMax, q.stormToCalmMin, q.stormToCalmMax);
      k < |xs| && (forall i :: 0 <= i < k ==> Rejected(TrySplit(repo, volatility, q, current, symbol, xs[i])))
      && TrySplit(repo, volatility, q, current, symbol, xs[k]).Done?
      && TrySplit(repo, volatility, q, current, symbol, xs[k]).verdict.reason == Inner.Ok
    ensures var q := SetParams(params);
      var xs := Splits(q.periodHoursMin, q.periodHoursMax, q.stormToCalmMin, q.stormToCalmMax);
      GetAdvice(repo, volatility, params, current, symbol, order, corrected)
        == Done(Verdict(TrySplit(repo, volatility, q, current, symbol, xs[k]).verdict.advice, Ok, None),
                Flatten(Attempt(repo, volatility, q, current, symbol), xs[..k + 1]))
  {
    var q := SetParams(params);
    var xs := Splits(q.periodHoursMin, q.periodHoursMax, q.stormToCalmMin, q.stormToCalmMax);
    var attempt := Attempt(repo, volatility, q, current, symbol);
    AttemptConsistent(repo, volatility, q, current, symbol);
    forall i | 0 <= i < k
      ensures Rejected(attempt(xs[i]))
    {
      assert attempt(xs[i]) == TrySplit(repo, volatility, q, current, symbol, xs[i]);
    }
    assert attempt(xs[k]) == TrySplit(repo, volatility, q, current, symbol, xs[k]);
    FirstDecisive(attempt, xs, map[], order, corrected, k);
  }
}
