/** The calm-before-storm adviser of the params generation: a storm check,
    then a calm check, then a direction check, each over its own window of
    hourly candles; the first failing check decides the reason. */
module CBSAdviser {
  import opened Common
  import opened Candlestick
  import opened Calc
  import opened GreedyGetter
  import opened AdviceBase
  import opened ParamsCBS

  const Ok: int := 1
  const CalmPeriodTooVolatile: int := 2
  const TooSteepCalmLine: int := 3
  const StormTooWeak: int := 4
  const StormTooStrong: int := 5
  const StormTooSmall: int := 6
  const WrongDirectionReason: int := 7
  const SystemError: int := 8

  /** The advice expires after three times the calm-plus-storm duration. */
  const ExpirationHoursCoeff: int := 3

  /** The names `GetReasonName` gives codes 1..8. */
  const ReasonNames: seq<string> := [
    "CBSOk", "CBSCalmPeriodTooVolatile", "CBSTooSteepCalmLine", "CBSStormTooWeak",
    "CBSStormTooStrong", "CBSStormTooSmall", "CBSWrongDirection", "CBSSystemError"]

  function ReasonName(reason: int): (name: string)
    ensures 1 <= reason <= |ReasonNames| ==> name == ReasonNames[reason - 1]
    ensures !(1 <= reason <= |ReasonNames|) ==> name == "CBSUnknown"
  {
    if 1 <= reason <= |ReasonNames| then ReasonNames[reason - 1] else "CBSUnknown"
  }

  /** Distinct known codes have distinct names, and no known code is named
      like an unknown one. */
  lemma ReasonNameInjective(a: int, b: int)
    requires 1 <= a <= |ReasonNames| && a != b
    ensures ReasonName(a) != ReasonName(b)
  {
  }

  // ---- the three windows -----------------------------------------------

  function StormSpan(p: CBS, t: int): Span {
    Span(t - p.stormDurationHours * Hour, t)
  }

  function CalmSpan(p: CBS, t: int): Span {
    Span(t - (p.calmDurationHours + p.stormDurationHours) * Hour, t - p.stormDurationHours * Hour)
  }

  function DirectionSpan(p: CBS, t: int): Span {
    Span(t - p.checkDirectionHours * 24 * Hour, t)
  }

  /** The windows in the order the checks query them. */
  function Windows(p: CBS, t: int): (w: seq<Span>)
    ensures |w| == 3
  {
    [StormSpan(p, t), CalmSpan(p, t), DirectionSpan(p, t)]
  }

  /** Storm power: how far the window moved from its first open to its last close. */
  function StormPower(storm: seq<Candle>): real
    requires |storm| > 0
  {
    Abs(storm[0].open - storm[|storm| - 1].close)
  }

  // ---- the checks ----------------------------------------------------------

  /** The storm must be strong enough, not too strong and heavy enough; it
      fixes the direction. An empty storm window panics (index out of range). */
  function CheckStorm(p: CBS, current: Candle, fetched: Result<seq<Candle>>): (c: Check)
    ensures fetched.Err? ==> c == Fail(SystemError, Some(fetched.error))
    ensures c.Crash? <==> fetched.Panic? || (fetched.Ok? && |fetched.value| == 0)
    ensures c.Pass? <==> (fetched.Ok? && |fetched.value| > 0
      && p.stormMinPower <= StormPower(fetched.value) <= p.stormMaxPower
      && Volume(fetched.value) >= p.stormMinVolume)
    ensures c.Pass? ==> c.direction == Direction(fetched.value[0].open, current.close)
    ensures c.Fail? && fetched.Ok? ==>
      c.error.None? && (c.reason == StormTooWeak <==> StormPower(fetched.value) < p.stormMinPower)
  {
    match fetched
    case Err(e) => Fail(SystemError, Some(e))
    case Panic => Crash
    case Ok(storm) =>
      if |storm| == 0 then Crash
      else if StormPower(storm) < p.stormMinPower then Fail(StormTooWeak, None)
      else if StormPower(storm) > p.stormMaxPower then Fail(StormTooStrong, None)
      else if Volume(storm) < p.stormMinVolume then Fail(StormTooSmall, None)
      else Pass(Direction(storm[0].open, current.close))
  }

  /** The calm must not be too volatile and must be nearly flat from its
      first open to its last close; an empty calm counts as too steep. */
  function CheckCalm(p: CBS, volatility: Volatility, fetched: Result<seq<Candle>>): (c: Check)
    ensures fetched.Err? ==> c == Fail(SystemError, Some(fetched.error))
    ensures c.Crash? <==> fetched.Panic?
    ensures c.Pass? <==> (fetched.Ok? && |fetched.value| > 0
      && volatility(fetched.value) <= p.calmMaxVolatility
      && Abs(fetched.value[0].open - fetched.value[|fetched.value| - 1].close) <= p.calmMaxCurvature)
    ensures c.Fail? && fetched.Ok? ==>
      c.error.None? && (c.reason == CalmPeriodTooVolatile <==> volatility(fetched.value) > p.calmMaxVolatility)
  {
    match fetched
    case Err(e) => Fail(SystemError, Some(e))
    case Panic => Crash
    case Ok(calm) =>
      if volatility(calm) > p.calmMaxVolatility then Fail(CalmPeriodTooVolatile, None)
      else if |calm| == 0 then Fail(TooSteepCalmLine, None)
      else if Abs(calm[0].open - calm[|calm| - 1].close) > p.calmMaxCurvature then Fail(TooSteepCalmLine, None)
      else Pass(0)
  }

  /** The average close of the look-back window must not contradict the direction. */
  function CheckDirection(p: CBS, current: Candle, direction: int, fetched: Result<seq<Candle>>): (c: Check)
    ensures fetched.Err? ==> c == Fail(SystemError, Some(fetched.error))
    ensures c.Crash? <==> fetched.Panic?
    ensures c.Pass? <==> fetched.Ok? && !WrongDirection(SMA(fetched.value), current.close, p.checkDirectionDiff, direction)
    ensures c.Fail? && fetched.Ok? ==> c == Fail(WrongDirectionReason, None)
  {
    match fetched
    case Err(e) => Fail(SystemError, Some(e))
    case Panic => Crash
    case Ok(period) =>
      if WrongDirection(SMA(period), current.close, p.checkDirectionDiff, direction) then Fail(WrongDirectionReason, None)
      else Pass(0)
  }

  // ---- the pipeline --------------------------------------------------------

  /** `GetAdvice`: the vector is read as the adviser's parameters (a vector
      shorter than the struct panics), then storm, calm and direction are
      checked in this order; each check queries its window only when the
      previous one passed. */
  function GetAdvice(repo: RangeQuery, volatility: Volatility, params: seq<real>, current: Candle, symbol: string): (e: Evaluation)
    ensures |params| < Arity ==> e == Panicked([])
    ensures |params| >= Arity ==>
      1 <= |e.queried| <= 3 && e.queried == Windows(SetParams(params), current.timestamp)[..|e.queried|]
    ensures e.Done? ==> (e.verdict.advice.Some? <==> e.verdict.reason == Ok)
    ensures e.Done? ==> (e.verdict.error.Some? <==> e.verdict.reason == SystemError)
    ensures e.Done? && e.verdict.reason == Ok ==> |e.queried| == 3
    ensures e.Done? && e.verdict.error.Some? ==>
      Fetch(repo, symbol, e.queried[|e.queried| - 1]) == Err(e.verdict.error.value)
  {
    if |params| < Arity then Panicked([])
    else
      var p := SetParams(params);
      var w := Windows(p, current.timestamp);
      var storm := CheckStorm(p, current, Fetch(repo, symbol, w[0]));
      if !storm.Pass? then Conclude(storm, w[..1])
      else
        var calm := CheckCalm(p, volatility, Fetch(repo, symbol, w[1]));
        if !calm.Pass? then Conclude(calm, w[..2])
        else
          var dir := CheckDirection(p, current, storm.direction, Fetch(repo, symbol, w[2]));
          if !dir.Pass? then Conclude(dir, w)
          else
            var t := Targets(current.close, storm.direction, p.takeProfitDiff, p.stopLossDiff);
            var expiration := current.timestamp + (p.calmDurationHours + p.stormDurationHours) * ExpirationHoursCoeff * Hour;
            Done(Verdict(Some(Advice(t.0, t.1, expiration)), Ok, None), w)
  }

  /** The conditions under which the adviser accepts, stated window by window. */
  predicate Accepts(p: CBS, volatility: Volatility, current: Candle, storm: seq<Candle>, calm: seq<Candle>, period: seq<Candle>) {
    && |storm| > 0
    && p.stormMinPower <= StormPower(storm) <= p.stormMaxPower
    && Volume(storm) >= p.stormMinVolume
    && |calm| > 0
    && volatility(calm) <= p.calmMaxVolatility
    && Abs(calm[0].open - calm[|calm| - 1].close) <= p.calmMaxCurvature
    && !WrongDirection(SMA(period), current.close, p.checkDirectionDiff, Direction(storm[0].open, current.close))
  }

  /** An advice is given exactly when all three windows are fetched and
      accepted; it then sits around the close on the side of the storm and
      expires three calm-plus-storm durations later. */
  lemma AdviceIffAccepted(repo: RangeQuery, volatility: Volatility, params: seq<real>, current: Candle, symbol: string)
    requires |params| >= Arity
    ensures var p := SetParams(params);
      var w := Windows(p, current.timestamp);
      var e := GetAdvice(repo, volatility, params, current, symbol);
      (e.Done? && e.verdict.reason == Ok) <==>
        (Fetch(repo, symbol, w[0]).Ok? && Fetch(repo, symbol, w[1]).Ok? && Fetch(repo, symbol, w[2]).Ok?
         && Accepts(p, volatility, current, Fetch(repo, symbol, w[0]).value, Fetch(repo, symbol, w[1]).value,
                    Fetch(repo, symbol, w[2]).value))
    ensures var p := SetParams(params);
      var e := GetAdvice(repo, volatility, params, current, symbol);
      e.Done? && e.verdict.reason == Ok ==>
        var storm := Fetch(repo, symbol, StormSpan(p, current.timestamp)).value;
        var d := Direction(storm[0].open, current.close);
        e.verdict.advice.value == Advice(
          Targets(current.close, d, p.takeProfitDiff, p.stopLossDiff).0,
          Targets(current.close, d, p.takeProfitDiff, p.stopLossDiff).1,
          current.timestamp + (p.calmDurationHours + p.stormDurationHours) * 3 * Hour)
  {
  }

  /** A rejected storm ends the evaluation before the calm window is queried. */
  lemma StormFirst(repo: RangeQuery, volatility: Volatility, params: seq<real>, current: Candle, symbol: string)
    requires |params| >= Arity
    requires !CheckStorm(SetParams(params), current, Fetch(repo, symbol, StormSpan(SetParams(params), current.timestamp))).Pass?
    ensures GetAdvice(repo, volatility, params, current, symbol).queried == [StormSpan(SetParams(params), current.timestamp)]
  {
  }
}
