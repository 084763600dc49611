/** The tester application's tally: every batch the per-quote testers emit
    is counted, its advice statuses are tallied, and the selector's pick
    among its accepted advices is classified by how its order closed. The
    progress bar, the printing and the saving of the advice lists are left
    out; the batches arrive in any interleaving of the quotes' runs. */
module TesterApp {
  import opened Common
  import opened Calc
  import opened AdviceBase
  import opened Selector

  /** The accepted advices of a batch, in order. */
  function OkAdvices(batch: seq<InternalAdvice>): (ok: seq<InternalAdvice>)
    ensures forall a :: a in ok <==> a in batch && a.status == StatusOK
  {
    Filter(batch, IsOk)
  }

  predicate IsOk(a: InternalAdvice) {
    a.status == StatusOK
  }

  /** The advice a batch contributes: the selector's pick among its
      accepted advices, if any. The applications call the default selector
      as written (`corrected` false): the lowest take profit within the pool
      its first loop builds. The corrected selector picks the lowest take
      profit among the shortest-period accepted advices. */
  function Pick(batch: seq<InternalAdvice>, corrected: bool): (p: Option<InternalAdvice>)
    ensures p.Some? <==> exists a :: a in batch && a.status == StatusOK
    ensures p.Some? ==> p.value in batch && p.value.status == StatusOK
    ensures p.Some? && !corrected ==>
      forall a :: a in StalePool(OkAdvices(batch), |OkAdvices(batch)|) ==> p.value.takeProfit <= a.takeProfit
    ensures p.Some? && corrected ==>
      forall a :: a in batch && a.status == StatusOK ==>
        p.value.hoursBefore <= a.hoursBefore
        && (a.hoursBefore == p.value.hoursBefore ==> p.value.takeProfit <= a.takeProfit)
  {
    var ok := OkAdvices(batch);
    if |ok| == 0 then None
    else
      assert ok[0] in ok;
      if corrected then SelectCorrected(ok) else SelectAsWritten(ok)
  }

  /** A pick is a buy when its take profit lies above its price. */
  predicate IsBuy(a: InternalAdvice) {
    a.takeProfit > a.currentPrice
  }

  predicate IsProfit(a: InternalAdvice) {
    a.orderResult == OrderResultTakeProfit
  }

  predicate IsLoss(a: InternalAdvice) {
    a.orderResult == OrderResultStopLoss
  }

  predicate IsExpired(a: InternalAdvice) {
    a.orderResult == OrderResultExpired
  }

  datatype Counters = Counters(count: int, advicesOK: int, profitBuy: int, profitSell: int, lossBuy: int, lossSell: int)

  /** The loop's variables. */
  datatype Tally = Tally(
    counters: Counters,
    statuses: map<string, int>,
    profit: seq<InternalAdvice>,
    loss: seq<InternalAdvice>,
    expired: seq<InternalAdvice>)

  const Start: Tally := Tally(Counters(0, 0, 0, 0, 0, 0), map[], [], [], [])

  function Count(m: map<string, int>, s: string): int {
    if s in m then m[s] else 0
  }

  /** The statuses of a batch added to the tally. */
  function AddStatuses(m: map<string, int>, batch: seq<InternalAdvice>): (r: map<string, int>)
    ensures forall s :: Count(r, s) == Count(m, s) + |Filter(batch, (a: InternalAdvice) => a.status == s)|
    decreases |batch|
  {
    if |batch| == 0 then m
    else
      var m' := m[batch[0].status := Count(m, batch[0].status) + 1];
      var r := AddStatuses(m', batch[1..]);
      assert forall s :: Count(m', s) == Count(m, s) + (if batch[0].status == s then 1 else 0);
      r
  }

  function Plus(a: Counters, b: Counters): Counters {
    Counters(a.count + b.count, a.advicesOK + b.advicesOK, a.profitBuy + b.profitBuy,
             a.profitSell + b.profitSell, a.lossBuy + b.lossBuy, a.lossSell + b.lossSell)
  }

  function Indicator(b: bool): int {
    if b then 1 else 0
  }

  /** What one batch adds to the counters, given its pick: the batch, the
      pick if any, and the pick's side when its order hit take profit or
      stop loss. */
  function Delta(p: Option<InternalAdvice>): Counters {
    match p
    case None => Counters(1, 0, 0, 0, 0, 0)
    case Some(a) =>
      Counters(1, 1, Indicator(IsProfit(a) && IsBuy(a)), Indicator(IsProfit(a) && !IsBuy(a)),
               Indicator(IsLoss(a) && IsBuy(a)), Indicator(IsLoss(a) && !IsBuy(a)))
  }

  /** The pick as a list of zero or one advices. */
  function PickList(p: Option<InternalAdvice>): seq<InternalAdvice> {
    if p.Some? then [p.value] else []
  }

  /** One received batch: it is counted, its statuses are tallied, and its
      pick goes to the list of its order result. */
  function Receive(t: Tally, batch: seq<InternalAdvice>, corrected: bool): (r: Tally)
    ensures r.counters.count == t.counters.count + 1
    ensures t.profit <= r.profit && t.loss <= r.loss && t.expired <= r.expired
  {
    var p := Pick(batch, corrected);
    Tally(Plus(t.counters, Delta(p)), AddStatuses(t.statuses, batch),
          t.profit + Filter(PickList(p), IsProfit), t.loss + Filter(PickList(p), IsLoss),
          t.expired + Filter(PickList(p), IsExpired))
  }

  /** A batch with an ok advice is accepted; a batch without one only
      counts and adds its statuses; every status count grows by the batch's
      advices of that status; the lists grow by at most the one pick. */
  lemma ReceiveMeaning(t: Tally, batch: seq<InternalAdvice>, corrected: bool)
    ensures var r := Receive(t, batch, corrected);
      (exists a :: a in batch && a.status == StatusOK) ==> r.counters.advicesOK == t.counters.advicesOK + 1
    ensures var r := Receive(t, batch, corrected);
      !(exists a :: a in batch && a.status == StatusOK) ==>
        r == t.(statuses := r.statuses, counters := r.counters)
        && r.counters == Plus(t.counters, Counters(1, 0, 0, 0, 0, 0))
    ensures var r := Receive(t, batch, corrected);
      forall s :: Count(r.statuses, s) == Count(t.statuses, s) + |Filter(batch, (a: InternalAdvice) => a.status == s)|
    ensures var r := Receive(t, batch, corrected);
      |r.profit| + |r.loss| + |r.expired| <= |t.profit| + |t.loss| + |t.expired| + 1
  {
  }

  /** The receive loop over the batches in arrival order, without the
      progress-bar update. */
  function Fold(batches: seq<seq<InternalAdvice>>, corrected: bool): (t: Tally)
    ensures t.counters.count == |batches|
    decreases |batches|
  {
    if |batches| == 0 then Start
    else Receive(Fold(batches[..|batches| - 1], corrected), batches[|batches| - 1], corrected)
  }

  /** At most every batch is accepted, and every accepted batch adds at most
      one advice to the lists. */
  lemma {:induction false} FoldBounds(batches: seq<seq<InternalAdvice>>, corrected: bool)
    ensures var t := Fold(batches, corrected);
      0 <= t.counters.advicesOK <= t.counters.count
      && |t.profit| + |t.loss| + |t.expired| <= t.counters.advicesOK
    decreases |batches|
  {
    if |batches| > 0 {
      var init := batches[..|batches| - 1];
      FoldBounds(init, corrected);
      ReceiveMeaning(Fold(init, corrected), batches[|batches| - 1], corrected);
    }
  }

  /** The picks of the batches, in arrival order. */
  function Picks(batches: seq<seq<InternalAdvice>>, corrected: bool): (p: seq<InternalAdvice>)
    ensures |p| <= |batches|
    decreases |batches|
  {
    if |batches| == 0 then []
    else Picks(batches[..|batches| - 1], corrected) + PickList(Pick(batches[|batches| - 1], corrected))
  }

  /** How many advices of all batches carry status s. */
  function StatusTotal(batches: seq<seq<InternalAdvice>>, s: string): (n: nat)
    ensures n == 0 <==> forall i, j :: 0 <= i < |batches| && 0 <= j < |batches[i]| ==> batches[i][j].status != s
    decreases |batches|
  {
    if |batches| == 0 then 0
    else
      var last := batches[|batches| - 1];
      var here := Filter(last, (a: InternalAdvice) => a.status == s);
      FilterEmpty(last, (a: InternalAdvice) => a.status == s);
      var init := batches[..|batches| - 1];
      assert forall i :: 0 <= i < |init| ==> init[i] == batches[i];
      StatusTotal(init, s) + |here|
  }

  /** Every batch is counted, with one pick per batch that has an accepted
      advice. */
  lemma {:induction false} CountsMeaning(batches: seq<seq<InternalAdvice>>, corrected: bool)
    ensures Fold(batches, corrected).counters.count == |batches|
    ensures Fold(batches, corrected).counters.advicesOK == |Picks(batches, corrected)|
    decreases |batches|
  {
    if |batches| > 0 {
      CountsMeaning(batches[..|batches| - 1], corrected);
    }
  }

  /** The three lists hold the picks of each order result, in arrival order. */
  lemma {:induction false} ListsMeaning(batches: seq<seq<InternalAdvice>>, corrected: bool)
    ensures Fold(batches, corrected).profit == Filter(Picks(batches, corrected), IsProfit)
    ensures Fold(batches, corrected).loss == Filter(Picks(batches, corrected), IsLoss)
    ensures Fold(batches, corrected).expired == Filter(Picks(batches, corrected), IsExpired)
    decreases |batches|
  {
    if |batches| > 0 {
      var init := batches[..|batches| - 1];
      ListsMeaning(init, corrected);
      var extra := PickList(Pick(batches[|batches| - 1], corrected));
      FilterAppend(Picks(init, corrected), extra, IsProfit);
      FilterAppend(Picks(init, corrected), extra, IsLoss);
      FilterAppend(Picks(init, corrected), extra, IsExpired);
    }
  }

  /** Buys and sells split each list: profitBuy + profitSell is the number of
      profitable picks, lossBuy + lossSell the number of stopped ones. */
  lemma {:induction false} SidesMeaning(batches: seq<seq<InternalAdvice>>, corrected: bool)
    ensures Fold(batches, corrected).counters.profitBuy + Fold(batches, corrected).counters.profitSell == |Fold(batches, corrected).profit|
    ensures Fold(batches, corrected).counters.lossBuy + Fold(batches, corrected).counters.lossSell == |Fold(batches, corrected).loss|
    ensures Fold(batches, corrected).counters.profitBuy == |Filter(Fold(batches, corrected).profit, IsBuy)|
    ensures Fold(batches, corrected).counters.lossBuy == |Filter(Fold(batches, corrected).loss, IsBuy)|
    decreases |batches|
  {
    if |batches| > 0 {
      var init := batches[..|batches| - 1];
      SidesMeaning(init, corrected);
      var t := Fold(init, corrected);
      var p := Pick(batches[|batches| - 1], corrected);
      DeltaSides(p);
      FilterAppend(t.profit, Filter(PickList(p), IsProfit), IsBuy);
      FilterAppend(t.loss, Filter(PickList(p), IsLoss), IsBuy);
    }
  }

  /** The sides one pick adds agree with the list it joins. */
  lemma DeltaSides(p: Option<InternalAdvice>)
    ensures Delta(p).profitBuy == |Filter(Filter(PickList(p), IsProfit), IsBuy)|
    ensures Delta(p).profitBuy + Delta(p).profitSell == |Filter(PickList(p), IsProfit)|
    ensures Delta(p).lossBuy == |Filter(Filter(PickList(p), IsLoss), IsBuy)|
    ensures Delta(p).lossBuy + Delta(p).lossSell == |Filter(PickList(p), IsLoss)|
  {
    if p.Some? {
      var a := p.value;
      assert PickList(p)[1..] == [];
      if IsProfit(a) {
        assert Filter(PickList(p), IsProfit) == [a];
        assert [a][1..] == [];
      }
      if IsLoss(a) {
        assert Filter(PickList(p), IsLoss) == [a];
        assert [a][1..] == [];
      }
    }
  }

  /** Every status is counted once per advice that carries it. */
  lemma {:induction false} StatusesCount(batches: seq<seq<InternalAdvice>>, corrected: bool)
    ensures forall s :: Count(Fold(batches, corrected).statuses, s) == StatusTotal(batches, s)
    decreases |batches|
  {
    if |batches| > 0 {
      StatusesCount(batches[..|batches| - 1], corrected);
    }
  }

  /** At most one pick per batch, and the three lists never hold more than
      the picks. */
  lemma Bounds(batches: seq<seq<InternalAdvice>>, corrected: bool)
    ensures var t := Fold(batches, corrected);
      t.counters.advicesOK <= t.counters.count
      && |t.profit| + |t.loss| + |t.expired| <= t.counters.advicesOK
  {
    CountsMeaning(batches, corrected);
    ListsMeaning(batches, corrected);
    ClassesDisjoint(Picks(batches, corrected));
  }

  lemma {:induction false} ClassesDisjoint(p: seq<InternalAdvice>)
    ensures |Filter(p, IsProfit)| + |Filter(p, IsLoss)| + |Filter(p, IsExpired)| <= |p|
    decreases |p|
  {
    if |p| > 0 {
      ClassesDisjoint(p[1..]);
    }
  }

  /** What one batch adds to the counters. */
  function BatchDelta(corrected: bool): seq<InternalAdvice> -> Counters {
    batch => Delta(Pick(batch, corrected))
  }

  /** The sum of what each batch adds, for any per-batch contribution. */
  function SumOf(batches: seq<seq<InternalAdvice>>, f: seq<InternalAdvice> -> Counters): Counters
    decreases |batches|
  {
    if |batches| == 0 then Counters(0, 0, 0, 0, 0, 0)
    else Plus(SumOf(batches[..|batches| - 1], f), f(batches[|batches| - 1]))
  }

  /** The counters are the sum of what each batch adds. */
  lemma {:induction false} FoldCounters(batches: seq<seq<InternalAdvice>>, corrected: bool)
    ensures Fold(batches, corrected).counters == SumOf(batches, BatchDelta(corrected))
    decreases |batches|
  {
    if |batches| > 0 {
      FoldCounters(batches[..|batches| - 1], corrected);
    }
  }

  /** A sum over a concatenation is the sum of the parts' sums. */
  lemma {:induction false} SumAppend(a: seq<seq<InternalAdvice>>, b: seq<seq<InternalAdvice>>, f: seq<InternalAdvice> -> Counters)
    ensures SumOf(a + b, f) == Plus(SumOf(a, f), SumOf(b, f))
    decreases |b|
  {
    if |b| == 0 {
      assert a + b == a;
    } else {
      var b0, last := b[..|b| - 1], b[|b| - 1];
      assert (a + b)[..|a + b| - 1] == a + b0;
      assert (a + b)[|a + b| - 1] == last;
      SumAppend(a, b0, f);
    }
  }

  /** The counters do not depend on the order in which the quotes' runs arrive. */
  lemma OrderIndependent(a: seq<seq<InternalAdvice>>, b: seq<seq<InternalAdvice>>, corrected: bool)
    ensures Fold(a + b, corrected).counters == Fold(b + a, corrected).counters
  {
    FoldCounters(a + b, corrected);
    FoldCounters(b + a, corrected);
    SumAppend(a, b, BatchDelta(corrected));
    SumAppend(b, a, BatchDelta(corrected));
  }

  /** Neither does the number of profitable picks. */
  lemma ProfitsOrderIndependent(a: seq<seq<InternalAdvice>>, b: seq<seq<InternalAdvice>>, corrected: bool)
    ensures |Fold(a + b, corrected).profit| == |Fold(b + a, corrected).profit|
  {
    OrderIndependent(a, b, corrected);
    SidesMeaning(a + b, corrected);
    SidesMeaning(b + a, corrected);
  }

  // ---- the summary figures -------------------------------------------------------

  /** The exact quotient num / den * 100, with `None` for the NaN of 0/0;
      the callers only divide by zero when the numerator is zero too. The
      program computes it in float64, rounding twice, which this value does
      not follow. */
  function Ratio(num: int, den: int): (r: Option<real>)
    ensures r.None? <==> den == 0
    ensures r.Some? ==> r.value * den as real == num as real * 100.0
  {
    if den == 0 then None else Some(num as real / den as real * 100.0)
  }

  /** Percentage of batches with a pick. */
  function Frequency(t: Tally): Option<real> {
    Ratio(t.counters.advicesOK, t.counters.count)
  }

  /** Percentage of picks whose order hit the take profit. */
  function Accuracy(t: Tally): Option<real> {
    Ratio(|t.profit|, t.counters.advicesOK)
  }

  lemma RatioBounds(num: int, den: int)
    requires 0 <= num <= den && den > 0
    ensures 0.0 <= Ratio(num, den).value <= 100.0
  {
    var r := Ratio(num, den).value;
    assert r * den as real <= 100.0 * den as real;
  }

  /** Frequency is a percentage defined once a batch arrived; accuracy is a
      percentage defined once a pick was made, and zero exactly when no pick
      hit its take profit. */
  lemma {:induction false} FiguresMeaning(batches: seq<seq<InternalAdvice>>, corrected: bool)
    ensures Frequency(Fold(batches, corrected)).None? <==> |batches| == 0
    ensures Frequency(Fold(batches, corrected)).Some? ==> 0.0 <= Frequency(Fold(batches, corrected)).value <= 100.0
    ensures Accuracy(Fold(batches, corrected)).None? <==> |Picks(batches, corrected)| == 0
    ensures Accuracy(Fold(batches, corrected)).Some? ==> 0.0 <= Accuracy(Fold(batches, corrected)).value <= 100.0
    ensures Accuracy(Fold(batches, corrected)).Some? ==>
      (Accuracy(Fold(batches, corrected)).value == 0.0 <==> |Filter(Picks(batches, corrected), IsProfit)| == 0)
  {
    CountsMeaning(batches, corrected);
    ListsMeaning(batches, corrected);
    Bounds(batches, corrected);
    FiguresOf(Fold(batches, corrected));
  }

  lemma FiguresOf(t: Tally)
    requires 0 <= t.counters.advicesOK <= t.counters.count
    requires |t.profit| <= t.counters.advicesOK
    ensures Frequency(t).Some? ==> 0.0 <= Frequency(t).value <= 100.0
    ensures Accuracy(t).Some? ==> 0.0 <= Accuracy(t).value <= 100.0
    ensures Accuracy(t).Some? ==> (Accuracy(t).value == 0.0 <==> |t.profit| == 0)
  {
    if t.counters.count > 0 {
      RatioBounds(t.counters.advicesOK, t.counters.count);
    }
    if t.counters.advicesOK > 0 {
      RatioBounds(|t.profit|, t.counters.advicesOK);
    }
  }

  /** `getTotalSteps`: the quotes' totals added up in order; the first quote
      whose total fails ends the loop with its outcome. */
  function SumTotals(totals: seq<Result<int>>): (r: Result<int>)
    ensures r.Ok? <==> forall i :: 0 <= i < |totals| ==> totals[i].Ok?
    ensures !r.Ok? ==> exists i :: 0 <= i < |totals| && totals[i] == r && AllOk(totals[..i])
    decreases |totals|
  {
    if |totals| == 0 then Ok(0)
    else
      var rest := SumTotals(totals[1..]);
      assert forall i :: 1 <= i < |totals| ==> totals[1..][i - 1] == totals[i];
      if !totals[0].Ok? then
        assert AllOk(totals[..0]);
        totals[0]
      else if !rest.Ok? then
        var i :| 0 <= i < |totals[1..]| && totals[1..][i] == rest && AllOk(totals[1..][..i]);
        assert totals[..i + 1] == [totals[0]] + totals[1..][..i];
        rest
      else Ok(totals[0].value + rest.value)
  }

  predicate AllOk(totals: seq<Result<int>>) {
    forall i :: 0 <= i < |totals| ==> totals[i].Ok?
  }

  /** The total of all quotes is the total of the first ones plus that of the
      rest. */
  lemma {:induction false} SumTotalsAppend(a: seq<Result<int>>, b: seq<Result<int>>)
    requires AllOk(a) && AllOk(b)
    ensures SumTotals(a + b).value == SumTotals(a).value + SumTotals(b).value
    decreases |a|
  {
    if |a| > 0 {
      assert (a + b)[1..] == a[1..] + b;
      assert AllOk(a[1..]);
      SumTotalsAppend(a[1..], b);
    } else {
      assert a + b == b;
    }
  }

  // ---- the progress-bar update as written ----------------------------------------

  /** The receive loop with `count % (total/100)` evaluated for each batch:
      `None` is the integer-division panic. */
  function FoldAsWritten(total: int, batches: seq<seq<InternalAdvice>>): (r: Option<Tally>)
    ensures r.Some? ==> r.value == Fold(batches, false)
    decreases |batches|
  {
    if |batches| == 0 then Some(Start)
    else
      match FoldAsWritten(total, batches[..|batches| - 1])
      case None => None
      case Some(t) =>
        if GoDiv(total, 100) == 0 then None
        else Some(Receive(t, batches[|batches| - 1], false))
  }

  /** The run panics exactly when a batch arrives while `total/100` is zero. */
  lemma {:induction false} FoldAsWrittenPanics(total: int, batches: seq<seq<InternalAdvice>>)
    ensures FoldAsWritten(total, batches).None? <==> |batches| > 0 && GoDiv(total, 100) == 0
    decreases |batches|
  {
    if |batches| > 0 {
      FoldAsWrittenPanics(total, batches[..|batches| - 1]);
    }
  }

  /** Fewer than a hundred tested hours make the first batch panic. */
  lemma {:induction false} SmallTotalPanics(total: int, batches: seq<seq<InternalAdvice>>)
    requires 0 <= total < 100 && |batches| > 0
    ensures FoldAsWritten(total, batches) == None
  {
    var init := batches[..|batches| - 1];
    if FoldAsWritten(total, init).Some? {
      assert GoDiv(total, 100) == 0;
    }
  }

  /** With a hundred hours or more the progress update is harmless. */
  lemma {:induction false} LargeTotalAgrees(total: int, batches: seq<seq<InternalAdvice>>)
    requires total >= 100
    ensures FoldAsWritten(total, batches) == Some(Fold(batches, false))
    decreases |batches|
  {
    if |batches| > 0 {
      LargeTotalAgrees(total, batches[..|batches| - 1]);
      assert GoDiv(total, 100) >= 1;
    }
  }
}
