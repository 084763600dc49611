/** Count-based candle queries built on a range query: fetch a window ten
    hours per wanted candle wide, then keep the requested number. */
module GreedyGetter {
  import opened Common
  import opened Candlestick

  /** The [from, to] window fetched for a count query. */
  datatype Span = Span(from: int, to: int)

  function QuerySpan(start: int, direction: GetterDirection, count: int): (s: Span)
    ensures direction == DirectionForward ==> s == Span(start, start + count * 10 * Hour)
    ensures direction == DirectionBackward ==> s == Span(start - count * 10 * Hour, start)
    ensures direction != DirectionForward && direction != DirectionBackward ==> s == Span(start, start)
    ensures direction == DirectionForward || direction == DirectionBackward ==> s.to - s.from == count * 10 * Hour
    ensures s.from == start || s.to == start
    ensures count >= 0 ==> s.from <= start <= s.to
  {
    if direction == DirectionForward then Span(start, start + count * 10 * Hour)
    else if direction == DirectionBackward then Span(start - count * 10 * Hour, start)
    else Span(start, start)
  }

  /** What is kept of a fetch: at most `count` candles next to `start` in
      the given direction. A negative count is shorter than every fetch, so
      it reaches Go's `make` with a negative length and panics. */
  function Take(q: Result<seq<Candle>>, direction: GetterDirection, count: int): (r: Result<seq<Candle>>)
    ensures q.Err? ==> r == q
    ensures q.Panic? ==> r.Panic?
    ensures q.Ok? && |q.value| <= count ==> r == q
    ensures q.Ok? && count < 0 ==> r.Panic?
    ensures q.Ok? && count >= 0 ==> r.Ok? && |r.value| == Min(count, |q.value|)
    ensures q.Ok? && direction == DirectionForward && r.Ok? ==>
      forall i :: 0 <= i < |r.value| ==> r.value[i] == q.value[i]
    ensures q.Ok? && direction == DirectionBackward && r.Ok? ==>
      forall i :: 0 <= i < |r.value| ==> r.value[i] == q.value[|q.value| - |r.value| + i]
    ensures q.Ok? && direction != DirectionForward && direction != DirectionBackward && |q.value| > count >= 0 ==>
      forall i :: 0 <= i < |r.value| ==> r.value[i] == ZeroCandle
  {
    match q
    case Err(e) => Err(e)
    case Panic => Panic
    case Ok(cs) =>
      if |cs| <= count then Ok(cs)
      else if count < 0 then Panic
      else if direction == DirectionForward then Ok(cs[..count])
      else if direction == DirectionBackward then Ok(cs[|cs| - count..])
      else Ok(seq(count, _ => ZeroCandle))
  }

  /** `GetCandlesticksByCount`: the range query over the window of
      `QuerySpan`, then `Take`. A failed fetch is passed on; a fetch no
      longer than `count` is returned whole; otherwise a non-negative count
      keeps the first (forward) or last (backward) `count` fetched candles
      and a negative one panics. */
  function GetCandlesticksByCount(repo: RangeQuery, symbol: string, interval: Interval, start: int, direction: GetterDirection, count: int): (r: Result<seq<Candle>>)
    ensures var span := QuerySpan(start, direction, count);
      var q := repo(symbol, interval, span.from, span.to);
      && (q.Err? ==> r == q)
      && (q.Panic? ==> r.Panic?)
      && (q.Ok? && |q.value| <= count ==> r == q)
      && (q.Ok? ==> (r.Ok? <==> count >= 0))
      && (q.Ok? && count < 0 ==> r.Panic?)
      && (r.Ok? ==> q.Ok? && |r.value| == Min(count, |q.value|))
      && (r.Ok? && direction == DirectionForward ==> r.value == q.value[..|r.value|])
      && (r.Ok? && direction == DirectionBackward ==> r.value == q.value[|q.value| - |r.value|..])
      && (r.Ok? && direction != DirectionForward && direction != DirectionBackward && |q.value| > count ==>
            forall i :: 0 <= i < |r.value| ==> r.value[i] == ZeroCandle)
  {
    var span := QuerySpan(start, direction, count);
    Take(repo(symbol, interval, span.from, span.to), direction, count)
  }

  /** For the two real directions a successful answer never invents candles:
      it is a contiguous piece of what the range query returned. */
  lemma CountQueryTakesFromFetch(repo: RangeQuery, symbol: string, interval: Interval, start: int, direction: GetterDirection, count: int)
    requires direction == DirectionForward || direction == DirectionBackward
    requires GetCandlesticksByCount(repo, symbol, interval, start, direction, count).Ok?
    ensures var span := QuerySpan(start, direction, count);
      var q := repo(symbol, interval, span.from, span.to);
      q.Ok? && IsSubsequence(GetCandlesticksByCount(repo, symbol, interval, start, direction, count).value, q.value)
  {
    var span := QuerySpan(start, direction, count);
    var cs := repo(symbol, interval, span.from, span.to).value;
    var r := GetCandlesticksByCount(repo, symbol, interval, start, direction, count).value;
    if |cs| <= count {
      SubsequenceRefl(cs);
    } else if direction == DirectionForward {
      PrefixIsSubsequence(cs, count);
    } else {
      SuffixIsSubsequence(cs, |cs| - count);
    }
  }

  lemma {:induction false} SubsequenceRefl(s: seq<Candle>)
    ensures IsSubsequence(s, s)
  {
    if |s| > 0 {
      SubsequenceRefl(s[1..]);
    }
  }

  lemma {:induction false} PrefixIsSubsequence(s: seq<Candle>, k: nat)
    requires k <= |s|
    ensures IsSubsequence(s[..k], s)
  {
    if k > 0 {
      PrefixIsSubsequence(s[1..], k - 1);
      assert s[..k][1..] == s[1..][..k - 1];
    }
  }

  lemma {:induction false} SuffixIsSubsequence(s: seq<Candle>, k: nat)
    requires k <= |s|
    ensures IsSubsequence(s[k..], s)
    decreases k
  {
    if k == 0 {
      SubsequenceRefl(s);
    } else {
      SuffixIsSubsequence(s[1..], k - 1);
      assert s[1..][k - 1..] == s[k..];
      SubsequenceSkip(s[k..], s);
    }
  }
}
