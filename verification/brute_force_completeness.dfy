/** One call of the corrected params-package modifier, seen on the grid:
    from the point of rank j it moves to the point of rank j + 1, or answers
    false when j is the last rank. */
module BruteForceCompleteness {
  import opened Common
  import opened GridRank
  import opened GridSearch
  import opened BruteForceModifier

  /** The state the corrected modifier keeps between calls: every coordinate
      after the current one is at its minimum; the current one is at its
      minimum too unless no varying coordinate follows it; and it is varying,
      unless the cycle has just started at coordinate 0. */
  predicate InvCp(min: seq<real>, max: seq<real>, cp: int, d: seq<int>)
    requires |min| == |max| == |d| && 0 <= cp < |d|
  {
    (forall i :: cp < i < |d| ==> d[i] == 0)
    && (d[cp] == 0 || forall i :: cp < i < |d| ==> !Varying(min, max, i))
    && (Varying(min, max, cp) || (cp == 0 && forall i :: 0 <= i < |d| ==> d[i] == 0))
  }

  /** After j + 1 true answers of a cycle: the point has digits d of rank j. */
  predicate Reach(m: Modifier, v: seq<real>, d: seq<int>, j: int) {
    GridBounds(m.min, m.max, m.rate) && Fits(m, v) && m.started && m.step == j
    && OnGrid(m.min, m.max, m.rate, v, d)
    && Rank(d, Radices(m.min, m.max, m.rate), |d|) == j
    && InvCp(m.min, m.max, m.currentParam, d)
  }

  /** Digit facts of a grid point: a varying coordinate is at its maximum
      exactly at the last digit and at its minimum exactly at digit 0; a
      fixed coordinate holds its minimum with digit 0. */
  lemma GridDigits(min: seq<real>, max: seq<real>, rate: real, v: seq<real>, d: seq<int>)
    requires GridBounds(min, max, rate) && OnGrid(min, max, rate, v, d)
    ensures forall i :: 0 <= i < |v| && Varying(min, max, i) ==>
      min[i] < max[i] && 0 <= d[i] <= Steps(rate)
      && (v[i] >= max[i] <==> d[i] == Steps(rate)) && (v[i] == min[i] <==> d[i] == 0)
    ensures forall i :: 0 <= i < |v| && !Varying(min, max, i) ==> d[i] == 0 && v[i] == min[i] && v[i] == max[i]
  {
    var r := Radices(min, max, rate);
    forall i | 0 <= i < |v| && Varying(min, max, i)
      ensures min[i] < max[i] && 0 <= d[i] <= Steps(rate)
      ensures v[i] >= max[i] <==> d[i] == Steps(rate)
      ensures v[i] == min[i] <==> d[i] == 0
    {
      assert r[i] == Steps(rate) + 1;
      AtMaxIff(min[i], max[i], rate, d[i]);
      AtMinIff(min[i], max[i], rate, d[i]);
    }
    forall i | 0 <= i < |v| && !Varying(min, max, i)
      ensures d[i] == 0 && v[i] == min[i] && v[i] == max[i]
    {
      assert r[i] == 1;
      assert Delta(min, max, rate, i) == 0.0;
    }
  }

  /** Coordinate arithmetic of one step: kept, advanced by one, or reset. */
  lemma CoordKept(lo: real, x: real, vi: real, wi: real, di: int, ei: int)
    requires vi == lo + di as real * x && wi == vi && ei == di
    ensures wi == lo + ei as real * x
  {
  }

  lemma CoordAdvanced(lo: real, x: real, vi: real, wi: real, di: int, ei: int)
    requires vi == lo + di as real * x && wi == vi + x && ei == di + 1
    ensures wi == lo + ei as real * x
  {
  }

  lemma CoordReset(lo: real, x: real, wi: real, ei: int)
    requires wi == lo && ei == 0
    ensures wi == lo + ei as real * x
  {
  }

  /** The successor point: digit p advanced, the later digits zero. */
  function SuccDigits(d: seq<int>, p: int): (e: seq<int>)
    requires 0 <= p < |d|
    ensures |e| == |d|
    ensures forall i :: 0 <= i < p ==> e[i] == d[i]
    ensures e[p] == d[p] + 1
    ensures forall i :: p < i < |d| ==> e[i] == 0
  {
    seq(|d|, i requires 0 <= i < |d| => if i < p then d[i] else if i == p then d[p] + 1 else 0)
  }

  lemma SuccInRange(d: seq<int>, r: seq<int>, p: int)
    requires InRange(d, r) && 0 <= p < |d| && d[p] + 1 < r[p]
    ensures InRange(SuccDigits(d, p), r)
  {
  }

  lemma SuccCoordinate(min: seq<real>, max: seq<real>, rate: real, v: seq<real>, w: seq<real>, d: seq<int>, p: int, i: int)
    requires GridBounds(min, max, rate) && OnGrid(min, max, rate, v, d)
    requires |w| == |v| && IncrementsAt(min, max, rate, v, w, p) && 0 <= i < |w|
    ensures w[i] == min[i] + SuccDigits(d, p)[i] as real * Delta(min, max, rate, i)
  {
    var e := SuccDigits(d, p);
    var x := Delta(min, max, rate, i);
    if i < p {
      CoordKept(min[i], x, v[i], w[i], d[i], e[i]);
    } else if i == p {
      CoordAdvanced(min[i], x, v[i], w[i], d[i], e[i]);
    } else {
      CoordReset(min[i], x, w[i], e[i]);
    }
  }

  /** Advancing digit p of a grid point and zeroing the later digits is the
      point that `IncrementsAt` describes. */
  lemma OnGridSucc(min: seq<real>, max: seq<real>, rate: real, v: seq<real>, w: seq<real>, d: seq<int>, p: int)
    requires GridBounds(min, max, rate) && OnGrid(min, max, rate, v, d)
    requires |w| == |v| && IncrementsAt(min, max, rate, v, w, p)
    requires Varying(min, max, p) && d[p] < Steps(rate)
    ensures OnGrid(min, max, rate, w, SuccDigits(d, p))
  {
    SuccInRange(d, Radices(min, max, rate), p);
    SuccCoordinates(min, max, rate, v, w, d, p);
  }

  lemma SuccCoordinates(min: seq<real>, max: seq<real>, rate: real, v: seq<real>, w: seq<real>, d: seq<int>, p: int)
    requires GridBounds(min, max, rate) && OnGrid(min, max, rate, v, d)
    requires |w| == |v| && IncrementsAt(min, max, rate, v, w, p)
    ensures forall i :: 0 <= i < |w| ==> w[i] == min[i] + SuccDigits(d, p)[i] as real * Delta(min, max, rate, i)
  {
    forall i | 0 <= i < |w|
      ensures w[i] == min[i] + SuccDigits(d, p)[i] as real * Delta(min, max, rate, i)
    {
      SuccCoordinate(min, max, rate, v, w, d, p, i);
    }
  }

  /** The successor digits have the successor rank. */
  lemma RankOfSucc(min: seq<real>, max: seq<real>, rate: real, d: seq<int>, p: int)
    requires GridBounds(min, max, rate) && |d| == |min| && 0 <= p < |d|
    requires InRange(d, Radices(min, max, rate)) && d[p] + 1 < Radices(min, max, rate)[p]
    requires forall i :: p < i < |d| ==> d[i] == Radices(min, max, rate)[i] - 1
    ensures Rank(SuccDigits(d, p), Radices(min, max, rate), |d|) == Rank(d, Radices(min, max, rate), |d|) + 1
  {
    RankSucc(d, SuccDigits(d, p), Radices(min, max, rate), p);
  }

  /** After a step at p the current coordinate satisfies the invariant for
      the successor digits. */
  lemma InvCpSucc(min: seq<real>, max: seq<real>, d: seq<int>, p: int, cp: int)
    requires |min| == |max| == |d| && 0 <= p < |d| && Varying(min, max, p)
    requires cp == if p < |d| - 1 then Next(min, max, p) else p
    ensures 0 <= cp < |d| && InvCp(min, max, cp, SuccDigits(d, p))
  {
    if p < |d| - 1 && exists i :: p < i < |d| && Varying(min, max, i) {
      assert p < cp && Varying(min, max, cp);
    } else if p < |d| - 1 {
      assert cp == p;
    }
  }

  /** A step at a varying coordinate p whose digit is not yet maximal while
      every later digit is, moves the point to the successor rank and keeps
      the between-calls invariant. */
  lemma StepAtSuccessor(m: Modifier, v: seq<real>, d: seq<int>, j: int, p: int) returns (e: seq<int>)
    requires Reach(m, v, d, j)
    requires 0 <= p < |v| && Varying(m.min, m.max, p) && d[p] < Steps(m.rate)
    requires forall i :: p < i < |v| ==> d[i] == Radices(m.min, m.max, m.rate)[i] - 1
    ensures Reach(StepAt(m, v, p).modifier, StepAt(m, v, p).point, e, j + 1)
  {
    var c := StepAt(m, v, p);
    e := SuccDigits(d, p);
    OnGridSucc(m.min, m.max, m.rate, v, c.point, d, p);
    RankOfSucc(m.min, m.max, m.rate, d, p);
    InvCpSucc(m.min, m.max, d, p, c.modifier.currentParam);
  }

  /** Where the call starts looking: unless nothing varies, the coordinate
      `current` picks is varying, every later digit is zero, and its own
      digit is zero unless no varying coordinate follows it. */
  lemma CurrentFacts(m: Modifier, v: seq<real>, d: seq<int>, j: int)
    requires Reach(m, v, d, j) && exists i :: 0 <= i < |v| && Varying(m.min, m.max, i)
    ensures var cur := Current(m.min, m.max, m.currentParam);
      Varying(m.min, m.max, cur) && (forall i :: cur < i < |v| ==> d[i] == 0)
      && (d[cur] == 0 || forall i :: cur < i < |v| ==> !Varying(m.min, m.max, i))
  {
    var cp := m.currentParam;
    if Varying(m.min, m.max, cp) {
      assert Current(m.min, m.max, cp) == cp;
    }
  }

  /** When `current` and the backward scan find every varying coordinate at
      its maximum, the point has the largest rank. */
  lemma ExhaustedAtLast(m: Modifier, v: seq<real>, d: seq<int>, j: int)
    requires Reach(m, v, d, j) && exists i :: 0 <= i < |v| && Varying(m.min, m.max, i)
    requires Backtrack(m.min, m.max, v, Current(m.min, m.max, m.currentParam)).None?
    ensures j == Prod(Radices(m.min, m.max, m.rate), |v|) - 1
  {
    var r := Radices(m.min, m.max, m.rate);
    var cur := Current(m.min, m.max, m.currentParam);
    GridDigits(m.min, m.max, m.rate, v, d);
    CurrentFacts(m, v, d, j);
    assert d[cur] == Steps(m.rate);
    assert forall i :: 0 <= i < |v| ==> d[i] == r[i] - 1;
    RankAllMax(d, r, |v|);
  }

  /** While a varying coordinate follows the current one, the backward scan
      stops at the current coordinate and the forward loop runs to the last
      varying coordinate, all of whose digits are still zero. */
  lemma ChosenAfterCurrent(m: Modifier, v: seq<real>, d: seq<int>, j: int, b: int)
    requires Reach(m, v, d, j) && 0 <= b < |v| && Varying(m.min, m.max, b)
    requires Backtrack(m.min, m.max, v, Current(m.min, m.max, m.currentParam)) == Some(b)
    requires var cur := Current(m.min, m.max, m.currentParam);
      Varying(m.min, m.max, cur) && (forall i :: cur < i < |v| ==> d[i] == 0)
      && exists i :: cur < i < |v| && Varying(m.min, m.max, i)
    ensures var p := AdvanceCorrected(m.min, m.max, v, b);
      Varying(m.min, m.max, p) && d[p] < Steps(m.rate)
      && forall i :: p < i < |v| ==> d[i] == Radices(m.min, m.max, m.rate)[i] - 1
  {
    var min, max := m.min, m.max;
    GridDigits(min, max, m.rate, v, d);
    assert b == Current(min, max, m.currentParam);
  }

  /** When no varying coordinate follows the current one, the forward loop
      stays where the backward scan stopped. */
  lemma ChosenAtBacktrack(m: Modifier, v: seq<real>, d: seq<int>, j: int, b: int)
    requires Reach(m, v, d, j) && 0 <= b < |v| && Varying(m.min, m.max, b)
    requires Backtrack(m.min, m.max, v, Current(m.min, m.max, m.currentParam)) == Some(b)
    requires var cur := Current(m.min, m.max, m.currentParam);
      forall i :: cur < i < |v| ==> !Varying(m.min, m.max, i)
    ensures var p := AdvanceCorrected(m.min, m.max, v, b);
      p == b && d[p] < Steps(m.rate)
      && forall i :: p < i < |v| ==> d[i] == Radices(m.min, m.max, m.rate)[i] - 1
  {
    var min, max := m.min, m.max;
    GridDigits(min, max, m.rate, v, d);
  }

  /** One call of the corrected modifier from a reached state: it answers
      true exactly when the rank is not yet the last one, and then reaches
      the next rank. */
  lemma StepCorrected(m: Modifier, v: seq<real>, d: seq<int>, j: int) returns (e: seq<int>)
    requires Reach(m, v, d, j)
    ensures Modify(m, v, true).modified <==> j < GridSize(m.min, m.max, m.rate) - 1
    ensures Modify(m, v, true).modified ==> Reach(Modify(m, v, true).modifier, Modify(m, v, true).point, e, j + 1)
  {
    var cur := Current(m.min, m.max, m.currentParam);
    var bt := Backtrack(m.min, m.max, v, cur);
    if bt.None? {
      // the backward scan finds nothing only at the last grid point
      CorrectedExhausted(m, v);
      if forall i :: 0 <= i < |v| ==> !Varying(m.min, m.max, i) {
        NothingVaries(m, v, d, j);
      } else {
        ExhaustedAtLast(m, v, d, j);
      }
      e := d;
    } else {
      // it stops only at a varying coordinate, and the corrected forward
      // loop then ends at a varying coordinate whose digit can still grow
      // while every later digit is maximal
      var b := bt.value;
      GridDigits(m.min, m.max, m.rate, v, d);
      assert Varying(m.min, m.max, b);
      CurrentFacts(m, v, d, j);
      if exists i :: cur < i < |v| && Varying(m.min, m.max, i) {
        ChosenAfterCurrent(m, v, d, j, b);
      } else {
        ChosenAtBacktrack(m, v, d, j, b);
      }
      var p := AdvanceCorrected(m.min, m.max, v, b);
      CorrectedSteps(m, v, b);
      e := StepAtSuccessor(m, v, d, j, p);
      RankBounds(e, Radices(m.min, m.max, m.rate), |v|);
    }
  }

  /** With no varying coordinate the single grid point is the last one. */
  lemma NothingVaries(m: Modifier, v: seq<real>, d: seq<int>, j: int)
    requires Reach(m, v, d, j) && forall i :: 0 <= i < |v| ==> !Varying(m.min, m.max, i)
    ensures j == Prod(Radices(m.min, m.max, m.rate), |v|) - 1
  {
    GridDigits(m.min, m.max, m.rate, v, d);
    RankAllMax(d, Radices(m.min, m.max, m.rate), |v|);
  }

  lemma CorrectedExhausted(m: Modifier, v: seq<real>)
    requires Fits(m, v) && m.started
    requires Backtrack(m.min, m.max, v, Current(m.min, m.max, m.currentParam)).None?
    ensures !Modify(m, v, true).modified
  {
  }

  lemma CorrectedSteps(m: Modifier, v: seq<real>, b: int)
    requires Fits(m, v) && m.started
    requires Backtrack(m.min, m.max, v, Current(m.min, m.max, m.currentParam)) == Some(b)
    ensures Modify(m, v, true) == StepAt(m, v, AdvanceCorrected(m.min, m.max, v, b))
  {
  }

  // ---- the start of a cycle -------------------------------------------

  /** Number of points of the grid the bounds describe. */
  function GridSize(min: seq<real>, max: seq<real>, rate: real): (t: int)
    requires GridBounds(min, max, rate)
    ensures t >= 1
  {
    var r := Radices(min, max, rate);
    RankBounds(seq(|min|, _ => 0), r, |min|);
    Prod(r, |min|)
  }

  /** The minimum corner is the grid point with all digits zero. */
  lemma MinimumOnGrid(min: seq<real>, max: seq<real>, rate: real, d: seq<int>)
    requires GridBounds(min, max, rate) && |d| == |min| && forall i :: 0 <= i < |d| ==> d[i] == 0
    ensures OnGrid(min, max, rate, min, d)
  {
    forall i | 0 <= i < |min|
      ensures min[i] == min[i] + d[i] as real * Delta(min, max, rate, i)
    {
      CoordReset(min[i], Delta(min, max, rate, i), min[i], d[i]);
    }
  }

  /** A modifier at the start of a cycle: freshly built by
      `NewBruteForceModifier`, or just reset by an exhausted call. */
  predicate Idle(m: Modifier) {
    GridBounds(m.min, m.max, m.rate) && |m.min| > 0 && !m.started && m.currentParam == 0
  }

  lemma NewModifierIdle(min: seq<real>, max: seq<real>, rate: real)
    requires GridBounds(min, max, rate) && |min| > 0
    ensures Idle(NewModifier(min, max, rate))
  {
  }

  /** The first call of a cycle puts the point at the minimum corner,
      the grid point of rank 0. */
  lemma FirstCall(m: Modifier, v: seq<real>) returns (c: Call, d: seq<int>)
    requires Idle(m) && |v| == |m.min|
    ensures c == Modify(m, v, true)
    ensures c.modified && Reach(c.modifier, c.point, d, 0)
    ensures GridSize(c.modifier.min, c.modifier.max, c.modifier.rate) == GridSize(m.min, m.max, m.rate)
  {
    c := Modify(m, v, true);
    d := seq(|m.min|, _ => 0);
    MinimumOnGrid(m.min, m.max, m.rate, d);
    RankZero(d, Radices(m.min, m.max, m.rate), |d|);
  }

}
