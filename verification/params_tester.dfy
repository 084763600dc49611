/** The per-hour backtest of one parameter vector on one quote: for every
    hourly candle of the range the adviser is asked for advices, every
    accepted advice is settled against the thirty days that follow, and the
    hour's advices are emitted as one batch. */
module ParamsTester {
  import opened Common
  import opened Candlestick
  import opened Calc
  import opened GreedyGetter
  import opened AdviceBase

  /** How long a backtested order stays open. */
  const TestOrderExpirationPeriod: int := 30 * 24 * Hour

  /** The adviser's `GetAdvices`, which is not part of this model. */
  type Advise = (seq<real>, Candle, string) -> Result<seq<InternalAdvice>>

  /** The batches sent on the channel, in order, and whether the run ended
      in a panic (a repository or adviser error). */
  datatype Run = Run(batches: seq<seq<InternalAdvice>>, panicked: bool)

  /** The candles an order opened at hour t is settled against. */
  function ExpirationSpan(t: int): Span {
    Span(t + Hour, t + TestOrderExpirationPeriod)
  }

  /** One advice of the hour t: an accepted advice gets the outcome of its
      order, computed from its own price and levels; any other advice passes
      unchanged. `None` is the panic on a repository error. */
  function Settle(repo: RangeQuery, symbol: string, a: InternalAdvice, t: int, now: int): (r: Option<InternalAdvice>)
    ensures a.status != StatusOK ==> r == Some(a)
    ensures r.Some? ==> r.value == a.(orderResult := r.value.orderResult, orderClosed := r.value.orderClosed)
    ensures a.status == StatusOK ==> (r.Some? <==> Fetch(repo, symbol, ExpirationSpan(t)).Ok?)
    ensures a.status == StatusOK && r.Some? ==>
      var o := OrderResult(a.currentPrice, a.takeProfit, a.stopLoss, Fetch(repo, symbol, ExpirationSpan(t)).value, now);
      r.value.orderResult == o.result && r.value.orderClosed == o.closedAt
  {
    if a.status != StatusOK then Some(a)
    else
      match Fetch(repo, symbol, ExpirationSpan(t))
      case Ok(period) =>
        var o := OrderResult(a.currentPrice, a.takeProfit, a.stopLoss, period, now);
        Some(a.(orderResult := o.result, orderClosed := o.closedAt))
      case _ => None
  }

  /** All advices of the hour t, in order; `None` when one of them panics. */
  function SettleAll(repo: RangeQuery, symbol: string, advices: seq<InternalAdvice>, t: int, now: int): (r: Option<seq<InternalAdvice>>)
    ensures r.Some? ==> |r.value| == |advices|
    ensures r.Some? <==> forall j :: 0 <= j < |advices| ==> Settle(repo, symbol, advices[j], t, now).Some?
    ensures r.Some? ==> forall j :: 0 <= j < |advices| ==> Settle(repo, symbol, advices[j], t, now) == Some(r.value[j])
    decreases |advices|
  {
    if |advices| == 0 then Some([])
    else
      match Settle(repo, symbol, advices[0], t, now)
      case None => None
      case Some(a) =>
        var rest := SettleAll(repo, symbol, advices[1..], t, now);
        assert forall j :: 1 <= j < |advices| ==> advices[1..][j - 1] == advices[j];
        if rest.None? then None else Some([a] + rest.value)
  }

  /** The loop over the hours: one batch per hour until an error. */
  function Emit(repo: RangeQuery, advise: Advise, prms: seq<real>, symbol: string, hours: seq<Candle>, now: int): (r: Run)
    ensures !r.panicked ==> |r.batches| == |hours|
    ensures r.panicked ==> |r.batches| < |hours|
    decreases |hours|
  {
    if |hours| == 0 then Run([], false)
    else
      match advise(prms, hours[0], symbol)
      case Ok(advices) =>
        (match SettleAll(repo, symbol, advices, hours[0].timestamp, now)
         case Some(batch) =>
           var rest := Emit(repo, advise, prms, symbol, hours[1..], now);
           Run([batch] + rest.batches, rest.panicked)
         case None => Run([], true))
      case _ => Run([], true)
  }

  /** `TestParams`: the hourly candles of [from, to], then one batch each. */
  function TestParams(repo: RangeQuery, advise: Advise, prms: seq<real>, symbol: string, from: int, to: int, now: int): (r: Run)
    ensures !Fetch(repo, symbol, Span(from, to)).Ok? ==> r == Run([], true)
  {
    match Fetch(repo, symbol, Span(from, to))
    case Ok(hours) => Emit(repo, advise, prms, symbol, hours, now)
    case _ => Run([], true)
  }

  /** `GetTotalSteps`: the number of hourly candles of the range. */
  function GetTotalSteps(repo: RangeQuery, symbol: string, from: int, to: int): (r: Result<int>)
    ensures Fetch(repo, symbol, Span(from, to)).Err? ==> r == Err(Fetch(repo, symbol, Span(from, to)).error)
    ensures r.Ok? ==> r.value >= 0
  {
    match Fetch(repo, symbol, Span(from, to))
    case Ok(hours) => Ok(|hours|)
    case Err(e) => Err(e)
    case Panic => Panic
  }

  /** A run that does not panic emits as many batches as the total reports. */
  lemma TotalCountsBatches(repo: RangeQuery, advise: Advise, prms: seq<real>, symbol: string, from: int, to: int, now: int)
    requires !TestParams(repo, advise, prms, symbol, from, to, now).panicked
    ensures GetTotalSteps(repo, symbol, from, to) == Ok(|TestParams(repo, advise, prms, symbol, from, to, now).batches|)
  {
  }

  /** Batch i holds the adviser's advices for hour i, in order, each settled
      at that hour. */
  lemma {:induction false} BatchesFollowHours(repo: RangeQuery, advise: Advise, prms: seq<real>, symbol: string, hours: seq<Candle>, now: int, i: nat)
    requires !Emit(repo, advise, prms, symbol, hours, now).panicked && i < |hours|
    ensures advise(prms, hours[i], symbol).Ok?
    ensures var batch := Emit(repo, advise, prms, symbol, hours, now).batches[i];
      var advices := advise(prms, hours[i], symbol).value;
      |batch| == |advices|
      && forall j :: 0 <= j < |advices| ==> Settle(repo, symbol, advices[j], hours[i].timestamp, now) == Some(batch[j])
    decreases i
  {
    if i > 0 {
      BatchesFollowHours(repo, advise, prms, symbol, hours[1..], now, i - 1);
      assert hours[1..][i - 1] == hours[i];
    }
  }

  /** The run ends at the first hour whose adviser call fails, after the
      batches of the hours before it. */
  lemma {:induction false} AdviserErrorStops(repo: RangeQuery, advise: Advise, prms: seq<real>, symbol: string, hours: seq<Candle>, now: int, k: nat)
    requires k < |hours| && !advise(prms, hours[k], symbol).Ok?
    requires forall i :: 0 <= i < k ==>
      (advise(prms, hours[i], symbol).Ok?
       && SettleAll(repo, symbol, advise(prms, hours[i], symbol).value, hours[i].timestamp, now).Some?)
    ensures Emit(repo, advise, prms, symbol, hours, now).panicked
    ensures |Emit(repo, advise, prms, symbol, hours, now).batches| == k
    decreases k
  {
    if k > 0 {
      forall i | 0 <= i < k - 1
        ensures advise(prms, hours[1..][i], symbol).Ok? &&
          SettleAll(repo, symbol, advise(prms, hours[1..][i], symbol).value, hours[1..][i].timestamp, now).Some?
      {
        assert hours[1..][i] == hours[i + 1];
      }
      assert hours[1..][k - 1] == hours[k];
      AdviserErrorStops(repo, advise, prms, symbol, hours[1..], now, k - 1);
    }
  }
}
