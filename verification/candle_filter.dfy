/** The repository decorator that drops candles with a zero close and, for
    hourly candles, those outside trading hours. */
module CandleFilter {
  import opened Common
  import opened Candlestick

  const TradingStartHour: int := 1
  const TradingEndHour: int := 21

  /** Whether a candle of the given interval survives the filter; its hour
      is read in the zone of its timestamp. */
  predicate Tradable(zone: Zone, interval: Interval, c: Candle) {
    c.close != 0.0
    && (interval == IntervalHour ==> TradingStartHour <= HourOfDay(zone, c.timestamp) <= TradingEndHour)
  }

  function KeepFor(zone: Zone, interval: Interval): Candle -> bool {
    c => Tradable(zone, interval, c)
  }

  /** The inner repository's range query with untradable candles removed;
      `zone` is the location the inner repository's timestamps carry. */
  function GetCandlesticks(inner: RangeQuery, zone: Zone, symbol: string, interval: Interval, from: int, to: int): (r: Result<seq<Candle>>)
    ensures inner(symbol, interval, from, to).Err? ==> r == inner(symbol, interval, from, to)
    ensures inner(symbol, interval, from, to).Panic? ==> r.Panic?
    ensures inner(symbol, interval, from, to).Ok? ==> r.Ok?
    ensures r.Ok? ==> forall i :: 0 <= i < |r.value| ==> r.value[i].close != 0.0
    ensures r.Ok? && interval == IntervalHour ==>
      forall i :: 0 <= i < |r.value| ==> 1 <= HourOfDay(zone, r.value[i].timestamp) <= 21
    ensures r.Ok? ==> IsSubsequence(r.value, inner(symbol, interval, from, to).value)
    ensures r.Ok? ==>
      forall i :: 0 <= i < |inner(symbol, interval, from, to).value| && Tradable(zone, interval, inner(symbol, interval, from, to).value[i]) ==>
        inner(symbol, interval, from, to).value[i] in r.value
    ensures r.Ok? ==> forall c ::
      multiset(r.value)[c] == if Tradable(zone, interval, c) then multiset(inner(symbol, interval, from, to).value)[c] else 0
  {
    var q := inner(symbol, interval, from, to);
    match q
    case Ok(cs) =>
      FilterIsSubsequence(cs, KeepFor(zone, interval));
      FilterCount(cs, KeepFor(zone, interval));
      Ok(Filter(cs, KeepFor(zone, interval)))
    case Err(e) => Err(e)
    case Panic => Panic
  }

  /** The filter as a repository in its own right. */
  function Filtered(inner: RangeQuery, zone: Zone): RangeQuery {
    (symbol, interval, from, to) => GetCandlesticks(inner, zone, symbol, interval, from, to)
  }

  /** Filtering an already-filtered repository changes nothing. */
  lemma FilterIdempotentQuery(inner: RangeQuery, zone: Zone, symbol: string, interval: Interval, from: int, to: int)
    ensures GetCandlesticks(Filtered(inner, zone), zone, symbol, interval, from, to) == GetCandlesticks(inner, zone, symbol, interval, from, to)
  {
    var q := inner(symbol, interval, from, to);
    if q.Ok? {
      FilterIdempotent(q.value, KeepFor(zone, interval));
    }
  }
}
