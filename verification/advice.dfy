/** The shapes the advisers share: the advice an adviser gives, the verdict
    of one evaluation (advice or typed rejection reason, plus a propagated
    repository error), the record the backtester keeps per hour, and the
    direction and order-target rules every adviser applies. */
module AdviceBase {
  import opened Common
  import opened Candlestick
  import opened Calc
  import opened GreedyGetter

  /** The status the backtester gives an advice the adviser accepted. */
  const StatusOK: string := "ok"

  /** One backtested hour: what was advised and how the order closed. */
  datatype InternalAdvice = InternalAdvice(
    status: string,
    quoteSymbol: string,
    hoursBefore: int,
    hoursAfter: int,
    timestamp: int,
    currentPrice: real,
    takeProfit: real,
    stopLoss: real,
    leverage: int,
    orderResult: string,
    orderClosed: int,
    adviserType: string,
    adviserParams: seq<real>)

  /** An order suggestion: its two exit prices and when it expires. */
  datatype Advice = Advice(takeProfit: real, stopLoss: real, expiration: int)

  /** What `GetAdvice` returns: an advice or none, a reason code, and an
      error when a repository call failed. */
  datatype Verdict = Verdict(advice: Option<Advice>, reason: int, error: Option<RepoError>)

  /** An evaluation ends with a verdict or with a Go runtime panic; either
      way it records the windows it queried, in order. */
  datatype Evaluation =
    | Done(verdict: Verdict, queried: seq<Span>)
    | Panicked(queried: seq<Span>)

  /** The outcome of one check of an adviser's pipeline. */
  datatype Check =
    | Pass(direction: int)
    | Fail(reason: int, error: Option<RepoError>)
    | Crash

  /** `CalculateVolatility`: its float computation is not modelled, so it is
      a parameter of every adviser. */
  type Volatility = seq<Candle> -> real

  /** The hourly candles in a window, as the adviser's repository returns them. */
  function Fetch(repo: RangeQuery, symbol: string, s: Span): Result<seq<Candle>> {
    repo(symbol, IntervalHour, s.from, s.to)
  }

  /** A failed or crashed check ends the evaluation with the windows queried so far. */
  function Conclude(c: Check, queried: seq<Span>): (e: Evaluation)
    requires !c.Pass?
    ensures e.queried == queried
    ensures c.Crash? <==> e.Panicked?
    ensures e.Done? ==> e.verdict == Verdict(None, c.reason, c.error)
  {
    if c.Crash? then Panicked(queried) else Done(Verdict(None, c.reason, c.error), queried)
  }

  /** The move of a window: down (-1) when its first open lies above the
      current close, otherwise up (+1). */
  function Direction(firstOpen: real, close: real): (d: int)
    ensures d == 1 || d == -1
    ensures d == -1 <==> firstOpen > close
  {
    if firstOpen > close then -1 else 1
  }

  /** Take-profit and stop-loss prices around the current close: on the side
      of the move for the take profit, on the other side for the stop loss. */
  function Targets(close: real, direction: int, takeProfitDiff: real, stopLossDiff: real): (t: (real, real))
    ensures direction > 0 ==> t == (close + takeProfitDiff, close - stopLossDiff)
    ensures direction <= 0 ==> t == (close - takeProfitDiff, close + stopLossDiff)
  {
    if direction > 0 then (close + takeProfitDiff, close - stopLossDiff)
    else (close - takeProfitDiff, close + stopLossDiff)
  }

  /** The direction check: the average of the look-back window lies more than
      `diff` above the close for a down move, or more than `diff` below it for
      an up move. */
  predicate WrongDirection(sma: real, close: real, diff: real, direction: int) {
    (sma - close > diff && direction < 0) || (sma - close < -diff && direction > 0)
  }

  /** With non-negative diffs the take profit lies on the side of the move
      and the stop loss on the other side. */
  lemma TargetsStraddleClose(close: real, direction: int, takeProfitDiff: real, stopLossDiff: real)
    requires takeProfitDiff >= 0.0 && stopLossDiff >= 0.0
    ensures var t := Targets(close, direction, takeProfitDiff, stopLossDiff);
      direction > 0 ==> t.1 <= close <= t.0
    ensures var t := Targets(close, direction, takeProfitDiff, stopLossDiff);
      direction <= 0 ==> t.0 <= close <= t.1
  {
  }

  /** A window whose average sits within `diff` of the close passes the
      direction check whatever the direction. */
  lemma NearAveragePasses(sma: real, close: real, diff: real, direction: int)
    requires -diff <= sma - close <= diff
    ensures !WrongDirection(sma, close, diff, direction)
  {
  }

  /** An average on the side of the move never fails the check when diff is
      non-negative: up moves fail only on an average below the close, down
      moves only on one above it. */
  lemma WrongDirectionSide(sma: real, close: real, diff: real, direction: int)
    requires diff >= 0.0
    ensures WrongDirection(sma, close, diff, direction) && direction > 0 ==> sma < close
    ensures WrongDirection(sma, close, diff, direction) && direction < 0 ==> sma > close
    ensures direction == 0 ==> !WrongDirection(sma, close, diff, direction)
  {
  }
}
