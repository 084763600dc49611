/** The double loop the recursive and the scaled advisers share: periods
    from the longest down to the shortest and, inside each period, storm
    durations from the largest allowed share down to just above the
    smallest; the rest of the period is the calm. */
module SplitSearch {
  import opened Common

  /** One storm/calm division of a period, in hours. */
  datatype Split = Split(period: int, calm: int, storm: int)

  /** The storm durations tried for period p lie in (Lower, Upper]; both
      bounds are the truncated share of `TruncatedShare`. */
  function Lower(p: int, stormToCalmMin: real): int {
    TruncatedShare(p, stormToCalmMin)
  }

  function Upper(p: int, stormToCalmMax: real): int {
    TruncatedShare(p, stormToCalmMax)
  }

  /** Ordered ratios give ordered bounds: the lower storm bound never lies
      above the upper one. */
  lemma BoundsOrdered(p: int, toMin: real, toMax: real)
    requires p >= 0 && 0.0 <= toMin <= toMax
    ensures Lower(p, toMin) <= Upper(p, toMax)
  {
    var lo, hi := TruncatedShare(p, toMin), TruncatedShare(p, toMax);
    var d := toMax - toMin;
    assert p as real * d >= 0.0;
    assert p as real * toMax == p as real * toMin + p as real * d;
    assert lo as real < hi as real + 1.0;
  }

  /** `p * ratio` truncated toward zero, as `IntPart` does: for a share
      between nothing and all of p, the whole hours of that share. */
  function TruncatedShare(p: int, ratio: real): (n: int)
    ensures p >= 0 && ratio >= 0.0 ==> 0 <= n && n as real <= p as real * ratio < n as real + 1.0
    ensures p >= 0 && 0.0 <= ratio <= 1.0 ==> n <= p
  {
    var x := p as real * ratio;
    ShareBound(p, ratio);
    IntPart(x)
  }

  lemma ShareBound(p: int, ratio: real)
    ensures p >= 0 && ratio >= 0.0 ==> p as real * ratio >= 0.0
    ensures p >= 0 && 0.0 <= ratio <= 1.0 ==> p as real * ratio <= p as real
  {
    if p >= 0 && 0.0 <= ratio <= 1.0 {
      assert p as real - p as real * ratio == p as real * (1.0 - ratio);
    }
  }

  /** The inner loop of period p: storm from s down while above lo, calm
      growing by one hour as the storm shrinks by one. */
  function StormSplits(p: int, lo: int, s: int): (r: seq<Split>)
    ensures |r| == if s > lo then s - lo else 0
    ensures forall i :: 0 <= i < |r| ==> r[i] == Split(p, p - (s - i), s - i)
    decreases s - lo
  {
    if s <= lo then [] else [Split(p, p - s, s)] + StormSplits(p, lo, s - 1)
  }

  /** The split is one the loops try: its period lies in the range, its storm
      in the period's bounds, and calm and storm fill the period. */
  predicate Tried(minP: int, maxP: int, toMin: real, toMax: real, x: Split) {
    && minP <= x.period <= maxP
    && Lower(x.period, toMin) < x.storm <= Upper(x.period, toMax)
    && x.calm + x.storm == x.period
  }

  /** x comes strictly earlier than y in loop order: a longer period, or the
      same period with a longer storm. */
  predicate Earlier(x: Split, y: Split) {
    x.period > y.period || (x.period == y.period && x.storm > y.storm)
  }

  /** Strictly decreasing in loop order. */
  predicate Ordered(r: seq<Split>) {
    forall i, j :: 0 <= i < j < |r| ==> Earlier(r[i], r[j])
  }

  /** Every split both loops try, in the order they try them. */
  function Splits(minP: int, maxP: int, toMin: real, toMax: real): (r: seq<Split>)
    ensures forall i :: 0 <= i < |r| ==> Tried(minP, maxP, toMin, toMax, r[i])
    ensures minP > maxP ==> r == []
    decreases maxP - minP
  {
    if maxP < minP then []
    else StormSplits(maxP, Lower(maxP, toMin), Upper(maxP, toMax)) + Splits(minP, maxP - 1, toMin, toMax)
  }

  /** The number of inner iterations of one period. */
  function InnerCount(p: int, toMin: real, toMax: real): (n: nat)
    ensures n == |StormSplits(p, Lower(p, toMin), Upper(p, toMax))|
  {
    if Upper(p, toMax) > Lower(p, toMin) then Upper(p, toMax) - Lower(p, toMin) else 0
  }

  /** The loops try exactly the splits `Tried` describes. */
  lemma {:induction false} SplitsComplete(minP: int, maxP: int, toMin: real, toMax: real, x: Split)
    requires Tried(minP, maxP, toMin, toMax, x)
    ensures x in Splits(minP, maxP, toMin, toMax)
    decreases maxP - minP
  {
    var head := StormSplits(maxP, Lower(maxP, toMin), Upper(maxP, toMax));
    var tail := Splits(minP, maxP - 1, toMin, toMax);
    assert Splits(minP, maxP, toMin, toMax) == head + tail;
    if x.period == maxP {
      var i := Upper(maxP, toMax) - x.storm;
      assert head[i] == x;
    } else {
      SplitsComplete(minP, maxP - 1, toMin, toMax, x);
    }
  }

  /** The loops try the splits in strictly decreasing (period, storm) order,
      so no split is tried twice. */
  lemma {:induction false} SplitsOrdered(minP: int, maxP: int, toMin: real, toMax: real)
    ensures Ordered(Splits(minP, maxP, toMin, toMax))
    decreases maxP - minP
  {
    if maxP >= minP {
      var head := StormSplits(maxP, Lower(maxP, toMin), Upper(maxP, toMax));
      var tail := Splits(minP, maxP - 1, toMin, toMax);
      SplitsOrdered(minP, maxP - 1, toMin, toMax);
      forall y | y in tail
        ensures y.period < maxP
      {
        var k :| 0 <= k < |tail| && tail[k] == y;
        assert Tried(minP, maxP - 1, toMin, toMax, tail[k]);
      }
      StormSplitsOrdered(maxP, Lower(maxP, toMin), Upper(maxP, toMax));
      OrderedAppend(head, tail, maxP);
      assert Splits(minP, maxP, toMin, toMax) == head + tail;
    }
  }

  lemma StormSplitsOrdered(p: int, lo: int, s: int)
    ensures var head := StormSplits(p, lo, s);
      (forall i :: 0 <= i < |head| ==> head[i].period == p)
      && forall i, j :: 0 <= i < j < |head| ==> head[i].storm > head[j].storm
  {
    var head := StormSplits(p, lo, s);
    forall i, j | 0 <= i < j < |head|
      ensures head[i].storm > head[j].storm
    {
      assert head[i] == Split(p, p - (s - i), s - i);
      assert head[j] == Split(p, p - (s - j), s - j);
    }
  }

  /** Splits of one period in decreasing storm order, followed by ordered
      splits of shorter periods, stay ordered. */
  lemma OrderedAppend(head: seq<Split>, tail: seq<Split>, p: int)
    requires forall i :: 0 <= i < |head| ==> head[i].period == p
    requires forall i, j :: 0 <= i < j < |head| ==> head[i].storm > head[j].storm
    requires forall y :: y in tail ==> y.period < p
    requires Ordered(tail)
    ensures Ordered(head + tail)
  {
    var r := head + tail;
    forall i, j | 0 <= i < j < |r|
      ensures Earlier(r[i], r[j])
    {
      if j < |head| {
        assert r[i] == head[i] && r[j] == head[j];
      } else if i < |head| {
        assert r[i] == head[i] && r[j] == tail[j - |head|];
        assert tail[j - |head|] in tail;
      } else {
        assert r[i] == tail[i - |head|] && r[j] == tail[j - |head|];
      }
    }
  }

  /** Per period the inner loop runs max(0, Upper − Lower) times, so the
      whole search tries the sum of those counts. */
  lemma SplitsLength(minP: int, maxP: int, toMin: real, toMax: real)
    requires minP <= maxP
    ensures |Splits(minP, maxP, toMin, toMax)| == InnerCount(maxP, toMin, toMax) + |Splits(minP, maxP - 1, toMin, toMax)|
  {
  }
}
