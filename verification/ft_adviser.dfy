/** The trend-following adviser: a trend check over the last hours, then a
    direction check over the last days. The order targets are computed
    between the two checks and given only when both pass. */
module FTAdviser {
  import opened Common
  import opened Candlestick
  import opened Calc
  import opened GreedyGetter
  import opened AdviceBase
  import opened ParamsFT

  const Ok: int := 1
  const TrendTooVolatile: int := 2
  const TrendTooStrong: int := 3
  const TrendTooWeak: int := 4
  const TrendWrongDirection: int := 5
  const SystemError: int := 6

  /** Every advice of this adviser expires three days after its candle. */
  const ExpirationHours: int := 72

  /** The names `GetReasonName` gives codes 1..6. */
  const ReasonNames: seq<string> := [
    "FTOk", "FTTrendTooVolatile", "FTTrendTooStrong", "FTTrendTooWeak", "FTTrendWrongDirection", "FTSystemError"]

  function ReasonName(reason: int): (name: string)
    ensures 1 <= reason <= |ReasonNames| ==> name == ReasonNames[reason - 1]
    ensures !(1 <= reason <= |ReasonNames|) ==> name == "FTUnknown"
  {
    if 1 <= reason <= |ReasonNames| then ReasonNames[reason - 1] else "FTUnknown"
  }

  /** Distinct codes are told apart by their names. */
  lemma ReasonNameInjective(a: int, b: int)
    requires 1 <= a <= |ReasonNames| && a != b
    ensures ReasonName(a) != ReasonName(b)
  {
  }

  function TrendSpan(p: FT, t: int): Span {
    Span(t - p.trendDurationHours * Hour, t)
  }

  function DirectionSpan(p: FT, t: int): Span {
    Span(t - p.checkDirectionHours * 24 * Hour, t)
  }

  /** How far the close moved from the trend's first open. */
  function Deviation(trend: seq<Candle>, current: Candle): real
    requires |trend| > 0
  {
    Abs(current.close - trend[0].open)
  }

  /** The trend must not be too volatile, and the close must have moved from
      the trend's first open by at least the minimum and at most the maximum
      curvature. The volatility test runs before the window is indexed, so an
      empty trend panics only when it passes that test. */
  function CheckTrend(p: FT, volatility: Volatility, current: Candle, fetched: Result<seq<Candle>>): (c: Check)
    ensures fetched.Err? ==> c == Fail(SystemError, Some(fetched.error))
    ensures c.Crash? <==> (fetched.Panic? || (fetched.Ok? && |fetched.value| == 0
      && volatility(fetched.value) <= p.trendMaxVolatility))
    ensures c.Pass? <==> (fetched.Ok? && |fetched.value| > 0
      && volatility(fetched.value) <= p.trendMaxVolatility
      && p.trendMinCurvature <= Deviation(fetched.value, current) <= p.trendMaxCurvature)
    ensures c.Pass? ==> c.direction == Direction(fetched.value[0].open, current.close)
    ensures c.Fail? && fetched.Ok? ==>
      c.error.None? && (c.reason == TrendTooVolatile <==> volatility(fetched.value) > p.trendMaxVolatility)
  {
    match fetched
    case Err(e) => Fail(SystemError, Some(e))
    case Panic => Crash
    case Ok(trend) =>
      if volatility(trend) > p.trendMaxVolatility then Fail(TrendTooVolatile, None)
      else if |trend| == 0 then Crash
      else if Deviation(trend, current) > p.trendMaxCurvature then Fail(TrendTooStrong, None)
      else if Deviation(trend, current) < p.trendMinCurvature then Fail(TrendTooWeak, None)
      else Pass(Direction(trend[0].open, current.close))
  }

  /** The same average-against-direction rule as the calm-before-storm adviser. */
  function CheckDirection(p: FT, current: Candle, direction: int, fetched: Result<seq<Candle>>): (c: Check)
    ensures fetched.Err? ==> c == Fail(SystemError, Some(fetched.error))
    ensures c.Crash? <==> fetched.Panic?
    ensures c.Pass? <==> fetched.Ok? && !WrongDirection(SMA(fetched.value), current.close, p.checkDirectionDiff, direction)
    ensures c.Fail? && fetched.Ok? ==> c == Fail(TrendWrongDirection, None)
  {
    match fetched
    case Err(e) => Fail(SystemError, Some(e))
    case Panic => Crash
    case Ok(period) =>
      if WrongDirection(SMA(period), current.close, p.checkDirectionDiff, direction) then Fail(TrendWrongDirection, None)
      else Pass(0)
  }

  /** `GetAdvice`: trend, then direction. */
  function GetAdvice(repo: RangeQuery, volatility: Volatility, params: seq<real>, current: Candle, symbol: string): (e: Evaluation)
    ensures |params| < Arity ==> e == Panicked([])
    ensures |params| >= Arity ==>
      var p := SetParams(params);
      var t := current.timestamp;
      e.queried == [TrendSpan(p, t)] || e.queried == [TrendSpan(p, t), DirectionSpan(p, t)]
    ensures e.Done? ==> (e.verdict.advice.Some? <==> e.verdict.reason == Ok)
    ensures e.Done? ==> (e.verdict.error.Some? <==> e.verdict.reason == SystemError)
    ensures e.Done? && e.verdict.reason == Ok ==> e.verdict.advice.value.expiration == current.timestamp + ExpirationHours * Hour
    ensures e.Done? && e.verdict.error.Some? ==>
      Fetch(repo, symbol, e.queried[|e.queried| - 1]) == Err(e.verdict.error.value)
  {
    if |params| < Arity then Panicked([])
    else
      var p := SetParams(params);
      var ts := TrendSpan(p, current.timestamp);
      var ds := DirectionSpan(p, current.timestamp);
      var trend := CheckTrend(p, volatility, current, Fetch(repo, symbol, ts));
      if !trend.Pass? then Conclude(trend, [ts])
      else
        var t := Targets(current.close, trend.direction, p.takeProfitDiff, p.stopLossDiff);
        var dir := CheckDirection(p, current, trend.direction, Fetch(repo, symbol, ds));
        if !dir.Pass? then Conclude(dir, [ts, ds])
        else Done(Verdict(Some(Advice(t.0, t.1, current.timestamp + ExpirationHours * Hour)), Ok, None), [ts, ds])
  }

  /** An advice is given exactly when the trend's deviation lies within the
      curvature bounds, the trend is calm enough and the direction check
      passes; the targets follow the trend's direction. */
  lemma AdviceIffAccepted(repo: RangeQuery, volatility: Volatility, params: seq<real>, current: Candle, symbol: string)
    requires |params| >= Arity
    ensures var p := SetParams(params);
      var trend := Fetch(repo, symbol, TrendSpan(p, current.timestamp));
      var period := Fetch(repo, symbol, DirectionSpan(p, current.timestamp));
      var e := GetAdvice(repo, volatility, params, current, symbol);
      (e.Done? && e.verdict.reason == Ok) <==>
        (trend.Ok? && |trend.value| > 0 && volatility(trend.value) <= p.trendMaxVolatility
         && p.trendMinCurvature <= Deviation(trend.value, current) <= p.trendMaxCurvature
         && period.Ok?
         && !WrongDirection(SMA(period.value), current.close, p.checkDirectionDiff,
                            Direction(trend.value[0].open, current.close)))
    ensures var p := SetParams(params);
      var trend := Fetch(repo, symbol, TrendSpan(p, current.timestamp));
      var e := GetAdvice(repo, volatility, params, current, symbol);
      e.Done? && e.verdict.reason == Ok ==>
        var d := Direction(trend.value[0].open, current.close);
        e.verdict.advice.value.takeProfit == Targets(current.close, d, p.takeProfitDiff, p.stopLossDiff).0
        && e.verdict.advice.value.stopLoss == Targets(current.close, d, p.takeProfitDiff, p.stopLossDiff).1
  {
  }
}
