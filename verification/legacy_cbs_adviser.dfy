/** The older calm-before-storm adviser, which reads the signal-package
    parameters: a calm check first, then a storm check without a volume
    test, and no direction check. Its reason codes differ from the newer
    adviser's. */
module LegacyCBSAdviser {
  import opened Common
  import opened Candlestick
  import opened Calc
  import opened GreedyGetter
  import opened AdviceBase
  import opened SignalCBSParams

  const Ok: int := 1
  const TooShortCalmPeriod: int := 2
  const NotCalmEnough: int := 3
  const TooSteepCalmLine: int := 4
  const TooWeakStorm: int := 5
  const TooStrongStorm: int := 6
  const SystemError: int := 7

  function CalmSpan(p: CBSParams, t: int): Span {
    Span(t - (p.calmDurationHours + p.stormDurationHours) * Hour, t - p.stormDurationHours * Hour)
  }

  function StormSpan(p: CBSParams, t: int): Span {
    Span(t - p.stormDurationHours * Hour, t)
  }

  /** The calm must hold at least half its nominal hours (Go's truncating
      division), must not be too volatile, and the close may rise at most
      `calmMaxCurvature` above the calm's average; a fall is not limited. */
  function CheckCalm(p: CBSParams, volatility: Volatility, current: Candle, fetched: Result<seq<Candle>>): (c: Check)
    ensures fetched.Err? ==> c == Fail(SystemError, Some(fetched.error))
    ensures c.Crash? <==> fetched.Panic?
    ensures c.Pass? <==> (fetched.Ok? && |fetched.value| >= GoDiv(p.calmDurationHours, 2)
      && volatility(fetched.value) <= p.calmMaxVolatility
      && current.close - SMA(fetched.value) <= p.calmMaxCurvature)
    ensures c.Fail? && fetched.Ok? ==>
      c.error.None? && (c.reason == TooShortCalmPeriod <==> |fetched.value| < GoDiv(p.calmDurationHours, 2))
  {
    match fetched
    case Err(e) => Fail(SystemError, Some(e))
    case Panic => Crash
    case Ok(calm) =>
      if |calm| < GoDiv(p.calmDurationHours, 2) then Fail(TooShortCalmPeriod, None)
      else if volatility(calm) > p.calmMaxVolatility then Fail(NotCalmEnough, None)
      else if current.close - SMA(calm) > p.calmMaxCurvature then Fail(TooSteepCalmLine, None)
      else Pass(0)
  }

  /** The storm must be strong enough and not too strong; it fixes the
      direction. An empty storm window panics. */
  function CheckStorm(p: CBSParams, current: Candle, fetched: Result<seq<Candle>>): (c: Check)
    ensures fetched.Err? ==> c == Fail(SystemError, Some(fetched.error))
    ensures c.Crash? <==> fetched.Panic? || (fetched.Ok? && |fetched.value| == 0)
    ensures c.Pass? <==> (fetched.Ok? && |fetched.value| > 0
      && p.stormMinPower <= Abs(fetched.value[0].open - fetched.value[|fetched.value| - 1].close) <= p.stormMaxPower)
    ensures c.Pass? ==> c.direction == Direction(fetched.value[0].open, current.close)
    ensures c.Fail? && fetched.Ok? ==> c.error.None? && (c.reason == TooWeakStorm || c.reason == TooStrongStorm)
  {
    match fetched
    case Err(e) => Fail(SystemError, Some(e))
    case Panic => Crash
    case Ok(storm) =>
      if |storm| == 0 then Crash
      else if Abs(storm[0].open - storm[|storm| - 1].close) < p.stormMinPower then Fail(TooWeakStorm, None)
      else if Abs(storm[0].open - storm[|storm| - 1].close) > p.stormMaxPower then Fail(TooStrongStorm, None)
      else Pass(Direction(storm[0].open, current.close))
  }

  /** `GetAdvice`: calm first, then storm; the advice expires one storm
      duration after the current candle. */
  function GetAdvice(repo: RangeQuery, volatility: Volatility, params: seq<real>, current: Candle, symbol: string): (e: Evaluation)
    ensures |params| < Arity ==> e == Panicked([])
    ensures |params| >= Arity ==>
      var p := SetParams(params);
      var t := current.timestamp;
      e.queried == [CalmSpan(p, t)] || e.queried == [CalmSpan(p, t), StormSpan(p, t)]
    ensures e.Done? ==> (e.verdict.advice.Some? <==> e.verdict.reason == Ok)
    ensures e.Done? ==> (e.verdict.error.Some? <==> e.verdict.reason == SystemError)
    ensures e.Done? && e.verdict.error.Some? ==>
      Fetch(repo, symbol, e.queried[|e.queried| - 1]) == Err(e.verdict.error.value)
  {
    if |params| < Arity then Panicked([])
    else
      var p := SetParams(params);
      var c := CalmSpan(p, current.timestamp);
      var s := StormSpan(p, current.timestamp);
      var calm := CheckCalm(p, volatility, current, Fetch(repo, symbol, c));
      if !calm.Pass? then Conclude(calm, [c])
      else
        var storm := CheckStorm(p, current, Fetch(repo, symbol, s));
        if !storm.Pass? then Conclude(storm, [c, s])
        else
          var t := Targets(current.close, storm.direction, p.takeProfitDiff, p.stopLossDiff);
          Done(Verdict(Some(Advice(t.0, t.1, current.timestamp + p.stormDurationHours * Hour)), Ok, None), [c, s])
  }

  /** An advice is given exactly when both windows are fetched and pass;
      it expires one storm duration later and its targets follow the storm. */
  lemma AdviceIffAccepted(repo: RangeQuery, volatility: Volatility, params: seq<real>, current: Candle, symbol: string)
    requires |params| >= Arity
    ensures var p := SetParams(params);
      var calm := Fetch(repo, symbol, CalmSpan(p, current.timestamp));
      var storm := Fetch(repo, symbol, StormSpan(p, current.timestamp));
      var e := GetAdvice(repo, volatility, params, current, symbol);
      (e.Done? && e.verdict.reason == Ok) <==>
        (CheckCalm(p, volatility, current, calm).Pass? && CheckStorm(p, current, storm).Pass?)
    ensures var p := SetParams(params);
      var storm := Fetch(repo, symbol, StormSpan(p, current.timestamp));
      var e := GetAdvice(repo, volatility, params, current, symbol);
      e.Done? && e.verdict.reason == Ok ==>
        var d := Direction(storm.value[0].open, current.close);
        e.verdict.advice.value == Advice(
          Targets(current.close, d, p.takeProfitDiff, p.stopLossDiff).0,
          Targets(current.close, d, p.takeProfitDiff, p.stopLossDiff).1,
          current.timestamp + p.stormDurationHours * Hour)
  {
  }

  /** A rejected calm ends the evaluation before the storm window is queried. */
  lemma CalmFirst(repo: RangeQuery, volatility: Volatility, params: seq<real>, current: Candle, symbol: string)
    requires |params| >= Arity
    requires !CheckCalm(SetParams(params), volatility, current,
      Fetch(repo, symbol, CalmSpan(SetParams(params), current.timestamp))).Pass?
    ensures GetAdvice(repo, volatility, params, current, symbol).queried == [CalmSpan(SetParams(params), current.timestamp)]
  {
  }
}
