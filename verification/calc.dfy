/** The statistics the advisers compute over a window of candles, and the
    classifier that decides how an order placed at some price would close. */
module Calc {
  import opened Common
  import opened Candlestick

  /** Total traded volume of a window, as a decimal. */
  function Volume(cs: seq<Candle>): (v: real)
    ensures |cs| == 0 ==> v == 0.0
    ensures |cs| == 1 ==> v == cs[0].volume as real
  {
    if |cs| == 0 then 0.0 else Volume(cs[..|cs| - 1]) + cs[|cs| - 1].volume as real
  }

  /** Volume is additive over concatenation of windows. */
  lemma {:induction false} VolumeAppend(a: seq<Candle>, b: seq<Candle>)
    ensures Volume(a + b) == Volume(a) + Volume(b)
  {
    if |b| == 0 {
      assert a + b == a;
    } else {
      assert (a + b)[..|a + b| - 1] == a + b[..|b| - 1];
      VolumeAppend(a, b[..|b| - 1]);
    }
  }

  /** Sum of the close prices of a window. */
  function SumClose(cs: seq<Candle>): real {
    if |cs| == 0 then 0.0 else SumClose(cs[..|cs| - 1]) + cs[|cs| - 1].close
  }

  /** Simple moving average of the close prices; 0 on an empty window. */
  function SMA(cs: seq<Candle>): (r: real)
    ensures |cs| == 0 ==> r == 0.0
    ensures |cs| > 0 ==> r * |cs| as real == SumClose(cs)
  {
    if |cs| == 0 then 0.0 else SumClose(cs) / |cs| as real
  }

  lemma {:induction false} SumCloseAbove(cs: seq<Candle>, x: real)
    requires |cs| > 0
    requires forall i :: 0 <= i < |cs| ==> cs[i].close > x
    ensures SumClose(cs) > |cs| as real * x
  {
    if |cs| > 1 {
      SumCloseAbove(cs[..|cs| - 1], x);
    }
  }

  lemma {:induction false} SumCloseBelow(cs: seq<Candle>, x: real)
    requires |cs| > 0
    requires forall i :: 0 <= i < |cs| ==> cs[i].close < x
    ensures SumClose(cs) < |cs| as real * x
  {
    if |cs| > 1 {
      SumCloseBelow(cs[..|cs| - 1], x);
    }
  }

  /** The average of a non-empty window lies between its smallest and its
      largest close. */
  lemma SMABetweenCloses(cs: seq<Candle>)
    requires |cs| > 0
    ensures exists i :: 0 <= i < |cs| && cs[i].close <= SMA(cs)
    ensures exists j :: 0 <= j < |cs| && SMA(cs) <= cs[j].close
  {
    if forall i :: 0 <= i < |cs| ==> cs[i].close > SMA(cs) {
      SumCloseAbove(cs, SMA(cs));
      assert false;
    }
    if forall j :: 0 <= j < |cs| ==> cs[j].close < SMA(cs) {
      SumCloseBelow(cs, SMA(cs));
      assert false;
    }
  }

  /** The highest High of a window; 0 on an empty window. */
  function Height(cs: seq<Candle>): (h: real)
    ensures |cs| == 0 ==> h == 0.0
    ensures |cs| > 0 ==> exists i :: 0 <= i < |cs| && cs[i].high == h
    ensures forall i :: 0 <= i < |cs| ==> cs[i].high <= h
  {
    if |cs| == 0 then 0.0
    else if |cs| == 1 then cs[0].high
    else
      var h := Height(cs[..|cs| - 1]);
      assert forall i :: 0 <= i < |cs| - 1 ==> cs[..|cs| - 1][i] == cs[i];
      if h < cs[|cs| - 1].high then cs[|cs| - 1].high else h
  }

  /** The lowest Low of a window; 0 on an empty window. */
  function Depth(cs: seq<Candle>): (d: real)
    ensures |cs| == 0 ==> d == 0.0
    ensures |cs| > 0 ==> exists i :: 0 <= i < |cs| && cs[i].low == d
    ensures forall i :: 0 <= i < |cs| ==> d <= cs[i].low
  {
    if |cs| == 0 then 0.0
    else if |cs| == 1 then cs[0].low
    else
      var d := Depth(cs[..|cs| - 1]);
      assert forall i :: 0 <= i < |cs| - 1 ==> cs[..|cs| - 1][i] == cs[i];
      if d > cs[|cs| - 1].low then cs[|cs| - 1].low else d
  }

  /** The full price range of a window: highest High minus lowest Low. */
  function MaxChange(cs: seq<Candle>): (r: real)
    ensures |cs| == 0 ==> r == 0.0
    ensures |cs| > 0 ==> exists i, j :: 0 <= i < |cs| && 0 <= j < |cs| && r == cs[i].high - cs[j].low
    ensures forall i, j :: 0 <= i < |cs| && 0 <= j < |cs| ==> cs[i].high - cs[j].low <= r
    ensures (forall i :: 0 <= i < |cs| ==> cs[i].low <= cs[i].high) ==> r >= 0.0
  {
    Height(cs) - Depth(cs)
  }

  /** A candle that closes against the given direction: below its open for an
      upward direction, above it for a downward one. */
  predicate Against(c: Candle, direction: int) {
    (direction > 0 && c.close < c.open) || (direction < 0 && c.close > c.open)
  }

  /** First index of the trailing window that the rising check inspects: it
      always looks at the last candle, and at the last `countLast` candles
      when that is more. */
  function RisingWindowStart(n: nat, countLast: int): (s: nat)
    ensures s <= n
    ensures n > 0 ==> s < n
  {
    Max(0, n - Max(1, countLast))
  }

  /** Whether none of the last max(1, countLast) candles closes against
      `direction`, scanning from the newest candle backwards. */
  method IsRising(cs: seq<Candle>, countLast: int, direction: int) returns (rising: bool)
    ensures rising <==> forall i :: RisingWindowStart(|cs|, countLast) <= i < |cs| ==> !Against(cs[i], direction)
    ensures direction == 0 ==> rising
    ensures |cs| == 0 ==> rising
  {
    var start := RisingWindowStart(|cs|, countLast);
    var i := |cs| - 1;
    var c := countLast;
    while i >= 0
      invariant start - 1 <= i < |cs|
      invariant c == countLast - (|cs| - 1 - i)
      invariant i >= 0 && i < |cs| - 1 ==> c > 0
      invariant forall k :: i < k < |cs| ==> !Against(cs[k], direction)
      decreases i
    {
      if Against(cs[i], direction) {
        return false;
      }
      c := c - 1;
      if c <= 0 {
        assert i == start;
        break;
      }
      i := i - 1;
    }
    rising := true;
  }

  const OrderResultNone: string := "none"
  const OrderResultTakeProfit: string := "profit"
  const OrderResultStopLoss: string := "loss"
  const OrderResultExpired: string := "expired"

  /** How an order would close, and when. */
  datatype Outcome = Outcome(result: string, closedAt: int)

  /** Direction of a trade opened at `current` towards `takeProfit`: 1 is a
      buy, -1 a sell, 0 when the two prices coincide. */
  function TradeDirection(current: real, takeProfit: real): (d: int)
    ensures d == 1 <==> current < takeProfit
    ensures d == -1 <==> current > takeProfit
    ensures d == 0 <==> current == takeProfit
  {
    if current > takeProfit then -1 else if current < takeProfit then 1 else 0
  }

  /** What a single candle does to an order in the given direction: the
      stop-loss test comes first, so a candle that breaches both levels stops
      the order out. A direction of 0 is handled as a buy. */
  function Trigger(c: Candle, direction: int, takeProfit: real, stopLoss: real): (r: Option<string>)
    ensures r.Some? ==> r.value == OrderResultStopLoss || r.value == OrderResultTakeProfit
    ensures direction >= 0 ==> (r == Some(OrderResultStopLoss) <==> c.low <= stopLoss)
    ensures direction < 0 ==> (r == Some(OrderResultStopLoss) <==> c.high >= stopLoss)
    ensures direction >= 0 ==> (r == None <==> c.low > stopLoss && c.high < takeProfit)
    ensures direction < 0 ==> (r == None <==> c.high < stopLoss && c.low > takeProfit)
  {
    if direction >= 0 && c.low <= stopLoss then Some(OrderResultStopLoss)
    else if direction >= 0 && c.high >= takeProfit then Some(OrderResultTakeProfit)
    else if direction < 0 && c.high >= stopLoss then Some(OrderResultStopLoss)
    else if direction < 0 && c.low <= takeProfit then Some(OrderResultTakeProfit)
    else None
  }

  /** Index of the first candle at or after `from` that closes the order, or
      |period| when none does. */
  function FirstTrigger(period: seq<Candle>, direction: int, takeProfit: real, stopLoss: real, from: nat): (k: nat)
    requires from <= |period|
    ensures from <= k <= |period|
    ensures forall j :: from <= j < k ==> Trigger(period[j], direction, takeProfit, stopLoss).None?
    ensures k < |period| ==> Trigger(period[k], direction, takeProfit, stopLoss).Some?
    decreases |period| - from
  {
    if from == |period| then from
    else if Trigger(period[from], direction, takeProfit, stopLoss).Some? then from
    else FirstTrigger(period, direction, takeProfit, stopLoss, from + 1)
  }

  /** The outcome of an order opened at `current` with the given levels over
      the candles of its expiration period; `now` is the clock reading used
      when the period is empty. */
  function OrderResult(current: real, takeProfit: real, stopLoss: real, period: seq<Candle>, now: int): (o: Outcome)
    ensures o.result != OrderResultNone
    ensures |period| == 0 ==> o == Outcome(OrderResultExpired, now)
    ensures o.result == OrderResultExpired <==>
      forall j :: 0 <= j < |period| ==> Trigger(period[j], TradeDirection(current, takeProfit), takeProfit, stopLoss).None?
    ensures o.result == OrderResultExpired && |period| > 0 ==> o.closedAt == period[|period| - 1].timestamp
    ensures o.result != OrderResultExpired ==>
      exists k :: 0 <= k < |period|
        && Trigger(period[k], TradeDirection(current, takeProfit), takeProfit, stopLoss) == Some(o.result)
        && o.closedAt == period[k].timestamp
        && forall j :: 0 <= j < k ==> Trigger(period[j], TradeDirection(current, takeProfit), takeProfit, stopLoss).None?
  {
    if |period| == 0 then Outcome(OrderResultExpired, now)
    else
      var direction := TradeDirection(current, takeProfit);
      var k := FirstTrigger(period, direction, takeProfit, stopLoss, 0);
      if k == |period| then Outcome(OrderResultExpired, period[|period| - 1].timestamp)
      else Outcome(Trigger(period[k], direction, takeProfit, stopLoss).value, period[k].timestamp)
  }
}
