/** The in-memory candle repository the backtests read from: candles per
    symbol and interval, answered by inclusive timestamp range. */
module CacheRepository {
  import opened Common
  import opened Candlestick
  import GreedyGetter

  type Cache = map<string, map<Interval, seq<Candle>>>

  predicate Covers(from: int, to: int, c: Candle) {
    from <= c.timestamp <= to
  }

  function InRange(from: int, to: int): Candle -> bool {
    c => Covers(from, to, c)
  }

  /** The cached candles of a symbol and interval; empty when either is unknown. */
  function Cached(cache: Cache, symbol: string, interval: Interval): seq<Candle> {
    if symbol in cache && interval in cache[symbol] then cache[symbol][interval] else []
  }

  /** Exactly the cached candles with from <= timestamp <= to, in cache order.
      The query never fails. */
  function GetCandlesticks(cache: Cache, symbol: string, interval: Interval, from: int, to: int): (r: Result<seq<Candle>>)
    ensures r.Ok?
    ensures symbol !in cache || interval !in cache[symbol] ==> r.value == []
    ensures forall i :: 0 <= i < |r.value| ==> from <= r.value[i].timestamp <= to
    ensures IsSubsequence(r.value, Cached(cache, symbol, interval))
    ensures forall i :: 0 <= i < |Cached(cache, symbol, interval)| && Covers(from, to, Cached(cache, symbol, interval)[i]) ==>
      Cached(cache, symbol, interval)[i] in r.value
    ensures forall c ::
      multiset(r.value)[c] == if Covers(from, to, c) then multiset(Cached(cache, symbol, interval))[c] else 0
  {
    var cs := Cached(cache, symbol, interval);
    FilterIsSubsequence(cs, InRange(from, to));
    FilterCount(cs, InRange(from, to));
    Ok(Filter(cs, InRange(from, to)))
  }

  /** Widening the range never loses a candle. */
  lemma RangeMonotone(cache: Cache, symbol: string, interval: Interval, from: int, to: int, from': int, to': int)
    requires from' <= from && to <= to'
    ensures IsSubsequence(GetCandlesticks(cache, symbol, interval, from, to).value,
                          GetCandlesticks(cache, symbol, interval, from', to').value)
  {
    FilterMonotone(Cached(cache, symbol, interval), InRange(from, to), InRange(from', to'));
  }

  /** The cache as a range query. */
  function Query(cache: Cache): RangeQuery {
    (symbol, interval, from, to) => GetCandlesticks(cache, symbol, interval, from, to)
  }

  /** Count queries over the cache go through the greedy getter. Since the
      range query never fails, neither does a count query with a
      non-negative count; forward and backward answers stay inside the
      fetched window. */
  function GetCandlesticksByCount(cache: Cache, symbol: string, interval: Interval, start: int, direction: GetterDirection, count: int): (r: Result<seq<Candle>>)
    ensures !r.Err?
    ensures count >= 0 <==> r.Ok?
    ensures r.Ok? ==> |r.value| <= count
    ensures r.Ok? && direction == DirectionForward ==>
      forall i :: 0 <= i < |r.value| ==> start <= r.value[i].timestamp <= start + count * 10 * Hour
    ensures r.Ok? && direction == DirectionBackward ==>
      forall i :: 0 <= i < |r.value| ==> start - count * 10 * Hour <= r.value[i].timestamp <= start
  {
    var span := GreedyGetter.QuerySpan(start, direction, count);
    var q := GetCandlesticks(cache, symbol, interval, span.from, span.to);
    assert Query(cache)(symbol, interval, span.from, span.to) == q;
    var r := GreedyGetter.GetCandlesticksByCount(Query(cache), symbol, interval, start, direction, count);
    assert r.Ok? && (direction == DirectionForward || direction == DirectionBackward) ==>
      forall i :: 0 <= i < |r.value| ==> r.value[i] in q.value;
    r
  }
}
