/** The scaled calm-before-storm adviser: for every storm/calm split of the
    period range it scales the inner adviser's thresholds from the calm's
    maximal change and volume and the storm's power, and collects every
    advice the inner adviser gives, split after split. */
module CBSScaledAdviser {
  import opened Common
  import opened Candlestick
  import opened Calc
  import opened AdviceBase
  import opened SplitSearch
  import opened AdviceCBSScaledParams
  import P = AdviceCBSParams

  /** The inner adviser's `GetAdvices`, which is not part of this model. */
  type InnerAdvices = seq<real> -> Result<seq<InternalAdvice>>

  /** The calm's maximal change and volume. */
  datatype CalmFigures = CalmFigures(maxChange: real, volume: real)

  /** `getCalmProps`: the calm is `calm` hourly candles back from the start
      of the storm; its figures are the largest high-minus-low difference
      over its candles and its volume. A failed fetch is passed on. */
  function CalmProps(repo: CountQuery, symbol: string, x: Split, t: int): (r: Result<CalmFigures>)
    ensures var q := repo(symbol, IntervalHour, t - x.storm * Hour, DirectionBackward, x.calm);
      && (q.Err? ==> r == Err(q.error))
      && (q.Panic? ==> r.Panic?)
      && (q.Ok? <==> r.Ok?)
      && (r.Ok? ==> r.value.volume == Volume(q.value))
      && (r.Ok? ==> forall i, j :: 0 <= i < |q.value| && 0 <= j < |q.value| ==> q.value[i].high - q.value[j].low <= r.value.maxChange)
      && (r.Ok? && |q.value| == 0 ==> r.value.maxChange == 0.0)
      && (r.Ok? && |q.value| > 0 ==>
            exists i, j :: 0 <= i < |q.value| && 0 <= j < |q.value| && r.value.maxChange == q.value[i].high - q.value[j].low)
  {
    match repo(symbol, IntervalHour, t - x.storm * Hour, DirectionBackward, x.calm)
    case Err(e) => Err(e)
    case Panic => Panic
    case Ok(calm) => Ok(CalmFigures(MaxChange(calm), Volume(calm)))
  }

  /** `getStormPower`: the storm is `storm` hourly candles back from the
      current hour; its power is the distance between the first candle's
      open and the last one's close. A failed fetch is passed on, and an
      empty storm panics on its first index. */
  function StormPower(repo: CountQuery, symbol: string, x: Split, t: int): (r: Result<real>)
    ensures var q := repo(symbol, IntervalHour, t, DirectionBackward, x.storm);
      && (q.Err? ==> r == Err(q.error))
      && (q.Panic? ==> r.Panic?)
      && (r.Ok? <==> q.Ok? && |q.value| > 0)
      && (r.Ok? ==> r.value >= 0.0)
      && (r.Ok? ==> r.value == q.value[0].open - q.value[|q.value| - 1].close
                    || r.value == q.value[|q.value| - 1].close - q.value[0].open)
  {
    match repo(symbol, IntervalHour, t, DirectionBackward, x.storm)
    case Err(e) => Err(e)
    case Panic => Panic
    case Ok(storm) => if |storm| == 0 then Panic else Ok(Abs(storm[0].open - storm[|storm| - 1].close))
  }

  /** The inner thresholds for a split, scaled from the calm's maximal change
      and volume and the storm's power. */
  function Derived(q: CBSScaledParams, x: Split, calmMaxChange: real, calmVolume: real, stormPower: real): (p: P.CBSParams)
    requires q.calmToCheckDirection != 0.0 && q.stormPowerToCheckDirectionDiff != 0.0
    ensures p.calmDurationHours == x.calm && p.stormDurationHours == x.storm
    ensures p.checkDirectionHours == IntPart(x.calm as real / q.calmToCheckDirection)
    ensures p.stormMinPower == q.stormMinPowerToCalmMaxChange * calmMaxChange
    ensures p.stormMaxPower == q.stormMaxPowerToCalmMaxChange * calmMaxChange
  {
    P.CBSParams(
      x.calm,
      stormPower * q.calmMaxChangeToStormPower,
      stormPower * q.calmMaxCurvatureToStormPower,
      x.storm,
      q.stormMinPowerToCalmMaxChange * calmMaxChange,
      q.stormMaxPowerToCalmMaxChange * calmMaxChange,
      calmVolume * q.stormMinVolumeToCalmVolume,
      stormPower * q.takeProfitDiffToStormPower,
      stormPower * q.stopLossDiffToStormPower,
      IntPart(x.calm as real / q.calmToCheckDirection),
      stormPower / q.stormPowerToCheckDirectionDiff)
  }

  /** One split: fetch the calm and the storm, derive the thresholds and ask
      the inner adviser. A fetch error is returned as is; an empty storm and
      a zero divisor panic. */
  function TrySplit(repo: CountQuery, inner: InnerAdvices, q: CBSScaledParams, current: Candle, symbol: string, x: Split)
    : (r: Result<seq<InternalAdvice>>)
    ensures CalmProps(repo, symbol, x, current.timestamp).Err? ==> r == Err(CalmProps(repo, symbol, x, current.timestamp).error)
    ensures CalmProps(repo, symbol, x, current.timestamp).Ok? && StormPower(repo, symbol, x, current.timestamp).Err? ==>
      r == Err(StormPower(repo, symbol, x, current.timestamp).error)
    ensures (CalmProps(repo, symbol, x, current.timestamp).Ok? && StormPower(repo, symbol, x, current.timestamp).Ok?
      && (q.calmToCheckDirection == 0.0 || q.stormPowerToCheckDirectionDiff == 0.0)) ==> r.Panic?
    ensures r.Ok? ==> (exists v :: |v| == P.Arity && inner(v) == r)
  {
    match CalmProps(repo, symbol, x, current.timestamp)
    case Err(e) => Err(e)
    case Panic => Panic
    case Ok(calm) =>
      match StormPower(repo, symbol, x, current.timestamp)
      case Err(e) => Err(e)
      case Panic => Panic
      case Ok(power) =>
        if q.calmToCheckDirection == 0.0 || q.stormPowerToCheckDirectionDiff == 0.0 then Panic
        else
          var p := Derived(q, x, calm.maxChange, calm.volume, power);
          inner(P.GetParams(p))
  }

  /** The loop over splits: the advices of each split in order, or the first
      error or panic. */
  function Collect(attempt: Split -> Result<seq<InternalAdvice>>, xs: seq<Split>): (r: Result<seq<InternalAdvice>>)
    ensures |xs| == 0 ==> r == Ok([])
    ensures r.Ok? <==> forall i :: 0 <= i < |xs| ==> attempt(xs[i]).Ok?
    decreases |xs|
  {
    if |xs| == 0 then Ok([])
    else
      match attempt(xs[0])
      case Err(e) => Err(e)
      case Panic => Panic
      case Ok(a) =>
        var rest := Collect(attempt, xs[1..]);
        assert forall i :: 1 <= i < |xs| ==> xs[1..][i - 1] == xs[i];
        if rest.Ok? then Ok(a + rest.value) else rest
  }

  /** `GetAdvices`: a vector shorter than the parameter struct panics. */
  function GetAdvices(repo: CountQuery, inner: InnerAdvices, params: seq<real>, current: Candle, symbol: string)
    : (r: Result<seq<InternalAdvice>>)
    ensures |params| < Arity ==> r == Panic
    ensures |params| >= Arity && SetParams(params).periodHoursMin > SetParams(params).periodHoursMax ==> r == Ok([])
  {
    if |params| < Arity then Panic
    else
      var q := SetParams(params);
      Collect(Attempt(repo, inner, q, current, symbol),
              Splits(q.periodHoursMin, q.periodHoursMax, q.stormToCalmMin, q.stormToCalmMax))
  }

  /** Collecting over two runs of splits is collecting over each run and
      concatenating, in loop order. */
  lemma {:induction false} CollectAppend(attempt: Split -> Result<seq<InternalAdvice>>, xs: seq<Split>, ys: seq<Split>)
    requires Collect(attempt, xs + ys).Ok?
    ensures Collect(attempt, xs).Ok? && Collect(attempt, ys).Ok?
    ensures Collect(attempt, xs + ys).value == Collect(attempt, xs).value + Collect(attempt, ys).value
    decreases |xs|
  {
    if |xs| == 0 {
      assert xs + ys == ys;
    } else {
      assert (xs + ys)[0] == xs[0];
      assert (xs + ys)[1..] == xs[1..] + ys;
      CollectAppend(attempt, xs[1..], ys);
    }
  }

  /** The first split whose evaluation is not a list of advices decides the
      outcome: its error or panic is returned. */
  lemma {:induction false} FirstFailureReturned(attempt: Split -> Result<seq<InternalAdvice>>, xs: seq<Split>, k: nat)
    requires k < |xs| && !attempt(xs[k]).Ok?
    requires forall i :: 0 <= i < k ==> attempt(xs[i]).Ok?
    ensures Collect(attempt, xs) == attempt(xs[k])
    decreases k
  {
    if k > 0 {
      forall i | 0 <= i < k - 1
        ensures attempt(xs[1..][i]).Ok?
      {
        assert xs[1..][i] == xs[i + 1];
      }
      assert xs[1..][k - 1] == xs[k];
      FirstFailureReturned(attempt, xs[1..], k - 1);
    }
  }

  /** Every collected advice comes from some split, and every advice of every
      split is collected. */
  lemma {:induction false} CollectMembers(attempt: Split -> Result<seq<InternalAdvice>>, xs: seq<Split>, a: InternalAdvice)
    requires Collect(attempt, xs).Ok?
    ensures a in Collect(attempt, xs).value <==> exists x :: x in xs && attempt(x).Ok? && a in attempt(x).value
    decreases |xs|
  {
    if |xs| > 0 {
      CollectMembers(attempt, xs[1..], a);
      assert attempt(xs[0]).Ok?;
      assert forall x :: x in xs <==> x == xs[0] || x in xs[1..];
    }
  }

  /** The evaluation of every split, for fixed inputs. */
  function Attempt(repo: CountQuery, inner: InnerAdvices, q: CBSScaledParams, current: Candle, symbol: string)
    : Split -> Result<seq<InternalAdvice>>
  {
    x => TrySplit(repo, inner, q, current, symbol, x)
  }

  /** The adviser's advices are exactly the inner advices of the splits the
      loops try, when no split fails. */
  lemma AdvicesFromSplits(repo: CountQuery, inner: InnerAdvices, params: seq<real>, current: Candle, symbol: string, a: InternalAdvice)
    requires GetAdvices(repo, inner, params, current, symbol).Ok?
    ensures var q := SetParams(params);
      a in GetAdvices(repo, inner, params, current, symbol).value <==>
        exists x :: x in Splits(q.periodHoursMin, q.periodHoursMax, q.stormToCalmMin, q.stormToCalmMax)
          && TrySplit(repo, inner, q, current, symbol, x).Ok? && a in TrySplit(repo, inner, q, current, symbol, x).value
  {
    var q := SetParams(params);
    var xs := Splits(q.periodHoursMin, q.periodHoursMax, q.stormToCalmMin, q.stormToCalmMax);
    var attempt := Attempt(repo, inner, q, current, symbol);
    assert GetAdvices(repo, inner, params, current, symbol) == Collect(attempt, xs);
    CollectMembers(attempt, xs, a);
    assert forall x :: attempt(x) == TrySplit(repo, inner, q, current, symbol, x);
  }
}
