/** The params-package modifier as written, compared with the corrected
    forward loop. The two agree whenever the varying coordinates form one
    contiguous block, so for such bounds the code as written enumerates the
    whole grid; a fixed coordinate between two varying ones makes it skip
    points, while `GetTotalSteps` still counts them. */
module BruteForceAsWritten {
  import opened Common
  import opened GridRank
  import opened GridSearch
  import opened BruteForceModifier
  import opened BruteForceCompleteness
  import opened BruteForceCycle

  /** No fixed coordinate lies between two varying ones: once a run of
      varying coordinates ends, no varying coordinate follows. */
  predicate Contiguous(min: seq<real>, max: seq<real>)
    requires |min| == |max|
  {
    forall j :: 0 <= j < |min| - 1 && Varying(min, max, j) && !Varying(min, max, j + 1) ==>
      ScanVarying(min, max, j + 1) == |min|
  }

  /** The same property, stated over all triples of coordinates. */
  lemma ContiguousIff(min: seq<real>, max: seq<real>)
    requires |min| == |max|
    ensures Contiguous(min, max) <==>
      forall i, j, k :: 0 <= i < j < k < |min| && Varying(min, max, i) && Varying(min, max, k) ==> Varying(min, max, j)
  {
    if Contiguous(min, max) {
      forall i, j, k | 0 <= i < j < k < |min| && Varying(min, max, i) && Varying(min, max, k)
        ensures Varying(min, max, j)
      {
        if !Varying(min, max, j) {
          var b := LastVaryingBefore(min, max, i, j);
          assert false;
        }
      }
    } else {
      var j :| 0 <= j < |min| - 1 && Varying(min, max, j) && !Varying(min, max, j + 1) && ScanVarying(min, max, j + 1) != |min|;
      var k := ScanVarying(min, max, j + 1);
      assert 0 <= j < j + 1 < k < |min| && Varying(min, max, j) && Varying(min, max, k) && !Varying(min, max, j + 1);
    }
  }

  /** From a varying coordinate i below a fixed coordinate j, the last
      varying coordinate before j is followed by a fixed one. */
  lemma {:induction false} LastVaryingBefore(min: seq<real>, max: seq<real>, i: int, j: int) returns (b: int)
    requires |min| == |max| && 0 <= i < j < |min|
    requires Varying(min, max, i) && !Varying(min, max, j)
    ensures i <= b < j && Varying(min, max, b) && !Varying(min, max, b + 1)
    decreases j - i
  {
    if Varying(min, max, i + 1) {
      b := LastVaryingBefore(min, max, i + 1, j);
    } else {
      b := i;
    }
  }

  /** With contiguous varying coordinates, the forward loop as written stops
      where the corrected loop stops. */
  lemma {:induction false} AdvanceAgree(min: seq<real>, max: seq<real>, v: seq<real>, cp: int)
    requires |min| == |max| == |v| && 0 <= cp < |v|
    requires Contiguous(min, max) && Varying(min, max, cp)
    ensures AdvanceAsWritten(min, max, v, cp) == AdvanceCorrected(min, max, v, cp)
    decreases |v| - cp
  {
    if cp < |v| - 1 {
      if Varying(min, max, cp + 1) {
        assert Next(min, max, cp) == cp + 1;
        if v[cp + 1] == min[cp + 1] {
          AdvanceAgree(min, max, v, cp + 1);
        }
      } else {
        assert ScanVarying(min, max, cp + 1) == |min|;
      }
    }
  }

  /** Under contiguity, once the point holds fixed coordinates at their
      minimum, a call as written equals a corrected call, and the state it
      leaves satisfies the same conditions. */
  lemma ModifyAgree(m: Modifier, v: seq<real>) returns (c: Call)
    requires Fits(m, v) && Contiguous(m.min, m.max)
    requires m.started ==> FixedHoldMin(m.min, m.max, v)
    ensures c == Modify(m, v, false) && c == Modify(m, v, true)
    ensures Fits(c.modifier, c.point) && Contiguous(c.modifier.min, c.modifier.max)
    ensures c.modifier.started ==> FixedHoldMin(c.modifier.min, c.modifier.max, c.point)
  {
    if m.started {
      var cur := Current(m.min, m.max, m.currentParam);
      var bt := Backtrack(m.min, m.max, v, cur);
      if bt.Some? {
        AdvanceAgree(m.min, m.max, v, bt.value);
      }
    }
    c := Modify(m, v, true);
  }

  /** Under contiguity the two versions answer alike over any number of calls. */
  lemma {:induction false} RunAgree(m: Modifier, v: seq<real>, k: nat)
    requires Fits(m, v) && Contiguous(m.min, m.max)
    requires m.started ==> FixedHoldMin(m.min, m.max, v)
    ensures Run(m, v, k, false) == Run(m, v, k, true)
    decreases k
  {
    if k > 0 {
      var c := ModifyAgree(m, v);
      RunAgree(c.modifier, c.point, k - 1);
      assert Run(m, v, k, false) == [c.modified] + Run(c.modifier, c.point, k - 1, false);
    }
  }

  /** Under contiguity the two versions reach the same state after any
      number of calls. */
  lemma {:induction false} AfterAgree(m: Modifier, v: seq<real>, k: nat)
    requires Fits(m, v) && Contiguous(m.min, m.max) && k >= 1
    requires m.started ==> FixedHoldMin(m.min, m.max, v)
    ensures After(m, v, k, false) == After(m, v, k, true)
    decreases k
  {
    var c := ModifyAgree(m, v);
    if k > 1 {
      AfterAgree(c.modifier, c.point, k - 1);
      assert After(m, v, k, false) == After(c.modifier, c.point, k - 1, false);
    }
  }

  /** With contiguous varying coordinates the code as written runs a full
      cycle: as many true answers as `GetTotalSteps` reports, then false. */
  lemma AsWrittenCycleContiguous(m: Modifier, v: seq<real>)
    requires Idle(m) && |v| == |m.min| && Contiguous(m.min, m.max)
    ensures Run(m, v, GridSize(m.min, m.max, m.rate) + 1, false) == Cycle(GridSize(m.min, m.max, m.rate))
  {
    CorrectedCycleLength(m, v);
    AgreeOnCycle(m, v, GridSize(m.min, m.max, m.rate) + 1, GridSize(m.min, m.max, m.rate));
  }

  /** From a new modifier, whatever answers the corrected code gives the
      code as written gives too. */
  lemma AgreeOnCycle(m: Modifier, v: seq<real>, k: nat, n: nat)
    requires Idle(m) && |v| == |m.min| && Contiguous(m.min, m.max)
    requires Run(m, v, k, true) == Cycle(n)
    ensures Run(m, v, k, false) == Cycle(n)
  {
    RunAgree(m, v, k);
  }

  /** With contiguous varying coordinates the code as written produces every
      grid point. */
  lemma AsWrittenVisitsContiguous(m: Modifier, v: seq<real>, w: seq<real>, d: seq<int>) returns (k: nat)
    requires Idle(m) && |v| == |m.min| && Contiguous(m.min, m.max)
    requires OnGrid(m.min, m.max, m.rate, w, d)
    ensures 1 <= k <= GridSize(m.min, m.max, m.rate)
    ensures After(m, v, k, false).point == w
  {
    k := CorrectedVisitsEveryPoint(m, v, w, d);
    AfterAgree(m, v, k);
  }

  // ---- a skipped point ------------------------------------------------

  /** Three coordinates, the middle one fixed, one step per coordinate. */
  const ExampleMin: seq<real> := [0.0, 0.0, 0.0]
  const ExampleMax: seq<real> := [1.0, 0.0, 1.0]

  function ExampleState(step: int, started: bool, cp: int): Modifier {
    Modifier(step, started, cp, Space(1.0, ExampleMin, ExampleMax))
  }

  lemma ExampleFirst(m: Modifier, v: seq<real>)
    requires m == ExampleState(0, false, 0) && v == ExampleMin
    ensures Modify(m, v, false) == Call(ExampleState(0, true, 0), [0.0, 0.0, 0.0], true)
  {
  }

  /** Coordinate 0 is stepped; the forward loop stops at the fixed
      coordinate 1, and `next` then moves the current coordinate to 2. */
  lemma ExampleSecond(m: Modifier, v: seq<real>)
    requires m == ExampleState(0, true, 0) && v == [0.0, 0.0, 0.0]
    ensures Modify(m, v, false) == Call(ExampleState(1, true, 2), [1.0, 0.0, 0.0], true)
  {
    assert AdvanceAsWritten(ExampleMin, ExampleMax, [0.0, 0.0, 0.0], 0) == 0;
    assert Next(ExampleMin, ExampleMax, 0) == 2;
  }

  lemma ExampleThird(m: Modifier, v: seq<real>)
    requires m == ExampleState(1, true, 2) && v == [1.0, 0.0, 0.0]
    ensures Modify(m, v, false) == Call(ExampleState(2, true, 2), [1.0, 0.0, 1.0], true)
  {
    assert Backtrack(ExampleMin, ExampleMax, [1.0, 0.0, 0.0], 2) == Some(2);
  }

  /** Both varying coordinates are at their maximum: the cycle ends. */
  lemma ExampleFourth(m: Modifier, v: seq<real>)
    requires m == ExampleState(2, true, 2) && v == [1.0, 0.0, 1.0]
    ensures Modify(m, v, false) == Call(ExampleState(2, false, 0), [1.0, 0.0, 1.0], false)
  {
    assert Prev(ExampleMin, ExampleMax, 2) == 0;
    assert Backtrack(ExampleMin, ExampleMax, [1.0, 0.0, 1.0], 2) == None;
  }

  /** The four calls of the example cycle. */
  lemma ExampleChain(m: Modifier, v: seq<real>) returns (c1: Call, c2: Call, c3: Call, c4: Call)
    requires m == ExampleState(0, false, 0) && v == ExampleMin
    ensures c1 == Modify(m, v, false) && c1.modified && c1.point == [0.0, 0.0, 0.0]
    ensures c2 == Modify(c1.modifier, c1.point, false) && c2.modified && c2.point == [1.0, 0.0, 0.0]
    ensures c3 == Modify(c2.modifier, c2.point, false) && c3.modified && c3.point == [1.0, 0.0, 1.0]
    ensures c4 == Modify(c3.modifier, c3.point, false) && !c4.modified && c4.point == [1.0, 0.0, 1.0]
  {
    c1 := Modify(m, v, false);
    ExampleFirst(m, v);
    c2 := Modify(c1.modifier, c1.point, false);
    ExampleSecond(c1.modifier, c1.point);
    c3 := Modify(c2.modifier, c2.point, false);
    ExampleThird(c2.modifier, c2.point);
    c4 := Modify(c3.modifier, c3.point, false);
    ExampleFourth(c3.modifier, c3.point);
  }

  /** The grid of the example has four points, [0, 0, 1] among them, and
      `GetTotalSteps` reports four. */
  lemma ExampleGrid()
    ensures GridBounds(ExampleMin, ExampleMax, 1.0)
    ensures TotalSteps(NewModifier(ExampleMin, ExampleMax, 1.0)) == Ok(4)
    ensures GridSize(ExampleMin, ExampleMax, 1.0) == 4
    ensures OnGrid(ExampleMin, ExampleMax, 1.0, [0.0, 0.0, 1.0], [0, 0, 1])
  {
    TotalIsGridSize(ExampleMin, ExampleMax, 1.0);
    assert Steps(1.0) == 1;
    assert VaryingCount(ExampleMin, ExampleMax, 3) == 2;
  }

  /** One more call: the answers and the states after k + 1 calls are those
      of the first call followed by those of k calls from its result. */
  lemma CallThen(m: Modifier, v: seq<real>, k: nat, corrected: bool, c: Call)
    requires Fits(m, v) && c == Modify(m, v, corrected) && k >= 1
    ensures Run(m, v, k + 1, corrected) == [c.modified] + Run(c.modifier, c.point, k, corrected)
    ensures After(m, v, k + 1, corrected) == After(c.modifier, c.point, k, corrected)
  {
  }

  /** The points and answers of the example cycle. */
  lemma ExamplePoints(m: Modifier, v: seq<real>)
    requires m == ExampleState(0, false, 0) && v == ExampleMin
    ensures After(m, v, 1, false).point == [0.0, 0.0, 0.0] && After(m, v, 1, false).modified
    ensures After(m, v, 2, false).point == [1.0, 0.0, 0.0] && After(m, v, 2, false).modified
    ensures After(m, v, 3, false).point == [1.0, 0.0, 1.0] && After(m, v, 3, false).modified
    ensures After(m, v, 4, false).point == [1.0, 0.0, 1.0] && !After(m, v, 4, false).modified
  {
    var c1, c2, c3, c4 := ExampleChain(m, v);
    CallThen(c2.modifier, c2.point, 1, false, c3);
    CallThen(c1.modifier, c1.point, 2, false, c2);
    CallThen(m, v, 3, false, c1);
    CallThen(c1.modifier, c1.point, 1, false, c2);
    CallThen(m, v, 2, false, c1);
    CallThen(m, v, 1, false, c1);
  }

  /** The code as written: with bounds [0, 0, 0] .. [1, 0, 1] and rate 1,
      `GetTotalSteps` reports 4 points, but a cycle answers true only three
      times, producing [0, 0, 0], [1, 0, 0] and [1, 0, 1]; the grid point
      [0, 0, 1] is never produced. */
  lemma SkippedPointExample(m: Modifier, v: seq<real>)
    requires m == ExampleState(0, false, 0) && v == ExampleMin
    ensures m == NewModifier(ExampleMin, ExampleMax, 1.0) && GridBounds(m.min, m.max, m.rate) && Fits(m, v)
    ensures TotalSteps(m) == Ok(4) && GridSize(m.min, m.max, m.rate) == 4
    ensures OnGrid(m.min, m.max, m.rate, [0.0, 0.0, 1.0], [0, 0, 1])
    ensures After(m, v, 3, false).modified && !After(m, v, 4, false).modified
    ensures forall k :: 1 <= k <= 4 ==> After(m, v, k, false).point != [0.0, 0.0, 1.0]
  {
    ExampleGrid();
    ExamplePoints(m, v);
    forall k | 1 <= k <= 4
      ensures After(m, v, k, false).point != [0.0, 0.0, 1.0]
    {
      assert k == 1 || k == 2 || k == 3 || k == 4;
    }
  }
}
