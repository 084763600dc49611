/** The default advice selector: among the advices the adviser gave for one
    hour, prefer the shortest look-back period and, among those, the lowest
    take profit. */
module Selector {
  import opened Common
  import opened AdviceBase

  /** The shortest look-back period among the first k advices. */
  function PrefixMin(advices: seq<InternalAdvice>, k: nat): (m: int)
    requires 0 < k <= |advices|
    ensures forall i :: 0 <= i < k ==> m <= advices[i].hoursBefore
    ensures exists i :: 0 <= i < k && m == advices[i].hoursBefore
  {
    if k == 1 then advices[0].hoursBefore else Min(PrefixMin(advices, k - 1), advices[k - 1].hoursBefore)
  }

  /** The pool the loop builds from the first k advices: each advice whose
      period equals the running minimum when it is visited. The pool is never
      emptied when the minimum drops, so it keeps advices of longer periods. */
  function StalePool(advices: seq<InternalAdvice>, k: nat): (pool: seq<InternalAdvice>)
    requires k <= |advices|
    ensures forall a :: a in pool ==> a in advices
    ensures k > 0 ==> advices[0] in pool
  {
    if k == 0 then []
    else StalePool(advices, k - 1) + (if advices[k - 1].hoursBefore == PrefixMin(advices, k) then [advices[k - 1]] else [])
  }

  /** The intended pool: the advices of the shortest period, in order. */
  function MinPeriodPool(advices: seq<InternalAdvice>): (pool: seq<InternalAdvice>)
    requires |advices| > 0
    ensures |pool| > 0
    ensures forall a :: a in pool <==> a in advices && a.hoursBefore == PrefixMin(advices, |advices|)
  {
    var m := PrefixMin(advices, |advices|);
    var pool := Filter(advices, (a: InternalAdvice) => a.hoursBefore == m);
    var i :| 0 <= i < |advices| && m == advices[i].hoursBefore;
    assert advices[i] in pool;
    pool
  }

  /** The position the take-profit loop settles on among the first k of the
      pool: the first of the lowest take profits, since only a strictly
      lower one replaces the current choice. */
  function LowestIndex(pool: seq<InternalAdvice>, k: nat): (at: nat)
    requires 0 < k <= |pool|
    ensures at < k
    ensures forall i :: 0 <= i < k ==> pool[at].takeProfit <= pool[i].takeProfit
    ensures forall i :: 0 <= i < at ==> pool[i].takeProfit > pool[at].takeProfit
  {
    if k == 1 then 0
    else
      var b := LowestIndex(pool, k - 1);
      if pool[b].takeProfit > pool[k - 1].takeProfit then k - 1 else b
  }

  /** `SelectAdvice` as written: the first advice of the lowest take profit
      in the pool. */
  function SelectAsWritten(advices: seq<InternalAdvice>): (r: Option<InternalAdvice>)
    ensures r.None? <==> |advices| == 0
    ensures r.Some? ==> r.value in advices
    ensures r.Some? ==> forall a :: a in StalePool(advices, |advices|) ==> r.value.takeProfit <= a.takeProfit
    ensures r.Some? ==> var pool := StalePool(advices, |advices|);
      exists at :: 0 <= at < |pool| && pool[at] == r.value && forall i :: 0 <= i < at ==> pool[i].takeProfit > r.value.takeProfit
  {
    if |advices| == 0 then None
    else
      var pool := StalePool(advices, |advices|);
      var at := LowestIndex(pool, |pool|);
      assert pool[at] in pool;
      Some(pool[at])
  }

  /** `SelectAdvice` with the pool restarted whenever the minimum drops: an
      advice of the shortest period and, among those, of the lowest take
      profit, the earliest one on a tie. */
  function SelectCorrected(advices: seq<InternalAdvice>): (r: Option<InternalAdvice>)
    ensures r.None? <==> |advices| == 0
    ensures r.Some? ==> r.value in advices
    ensures r.Some? ==> forall a :: a in advices ==> r.value.hoursBefore <= a.hoursBefore
    ensures r.Some? ==> forall a :: a in advices && a.hoursBefore == r.value.hoursBefore ==> r.value.takeProfit <= a.takeProfit
  {
    if |advices| == 0 then None
    else
      var pool := MinPeriodPool(advices);
      var at := LowestIndex(pool, |pool|);
      assert pool[at] in pool;
      Some(pool[at])
  }

  /** The first loop of `SelectAdvice`: the running minimum and its pool. */
  method CollectPool(advices: seq<InternalAdvice>) returns (pool: seq<InternalAdvice>)
    requires |advices| > 0
    ensures pool == StalePool(advices, |advices|)
  {
    var minPeriod := advices[0].hoursBefore;
    pool := [];
    var i := 0;
    while i < |advices|
      invariant 0 <= i <= |advices|
      invariant minPeriod == PrefixMin(advices, Max(i, 1))
      invariant pool == StalePool(advices, i)
    {
      if minPeriod > advices[i].hoursBefore {
        minPeriod := advices[i].hoursBefore;
      }
      assert minPeriod == PrefixMin(advices, i + 1);
      if advices[i].hoursBefore == minPeriod {
        pool := pool + [advices[i]];
      }
      i := i + 1;
    }
  }

  /** The second loop of `SelectAdvice`: the first lowest take profit. */
  method LowestTakeProfit(pool: seq<InternalAdvice>) returns (best: nat)
    requires |pool| > 0
    ensures best == LowestIndex(pool, |pool|)
  {
    best := 0;
    var j := 0;
    while j < |pool|
      invariant 0 <= j <= |pool|
      invariant best == LowestIndex(pool, Max(j, 1))
    {
      if pool[best].takeProfit > pool[j].takeProfit {
        best := j;
      }
      j := j + 1;
    }
  }

  /** `SelectAdvice`, as written. */
  method SelectAdvice(advices: seq<InternalAdvice>) returns (r: Option<InternalAdvice>)
    ensures r == SelectAsWritten(advices)
  {
    if |advices| == 0 {
      return None;
    }
    var pool := CollectPool(advices);
    var best := LowestTakeProfit(pool);
    r := Some(pool[best]);
  }

  /** Every advice of the shortest period is in the pool as written. */
  lemma {:induction false} StalePoolHoldsShortest(advices: seq<InternalAdvice>, k: nat, i: nat)
    requires 0 < k <= |advices| && i < k
    requires advices[i].hoursBefore == PrefixMin(advices, k)
    ensures advices[i] in StalePool(advices, k)
    decreases k
  {
    if i < k - 1 {
      assert advices[i].hoursBefore <= PrefixMin(advices, k - 1);
      StalePoolHoldsShortest(advices, k - 1, i);
    }
  }

  /** Two advices where the pool as written keeps the longer period and the
      selection returns it, although a shorter period is on offer. */
  lemma StalePoolExample(a: InternalAdvice, b: InternalAdvice)
    requires a.hoursBefore == 5 && a.takeProfit == 1.0
    requires b.hoursBefore == 3 && b.takeProfit == 2.0
    ensures SelectAsWritten([a, b]) == Some(a)
    ensures SelectCorrected([a, b]) == Some(b)
  {
    var s := [a, b];
    assert StalePool(s, 1) == [a];
    assert StalePool(s, 2) == [a, b];
  }
}
