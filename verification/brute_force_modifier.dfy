/** The brute-force parameter modifier of the params package: an odometer
    over the parameter vector that skips coordinates whose bounds coincide.
    Each call either moves the vector to the next point of the grid and
    answers true, or reports exhaustion with false. */
module BruteForceModifier {
  import opened Common
  import opened GridRank
  import opened GridSearch

  // ---- locating coordinates -------------------------------------------

  /** First varying coordinate at or after j; |min| when there is none. */
  function ScanVarying(min: seq<real>, max: seq<real>, j: int): (k: int)
    requires |min| == |max| && 0 <= j <= |min|
    ensures j <= k <= |min|
    ensures k < |min| ==> Varying(min, max, k)
    ensures forall i :: j <= i < k ==> !Varying(min, max, i)
    decreases |min| - j
  {
    if j == |min| then j
    else if min[j] != max[j] then j
    else ScanVarying(min, max, j + 1)
  }

  /** Last varying coordinate at or before j; -1 when there is none. */
  function ScanVaryingBack(min: seq<real>, max: seq<real>, j: int): (k: int)
    requires |min| == |max| && -1 <= j < |min|
    ensures -1 <= k <= j
    ensures k >= 0 ==> Varying(min, max, k)
    ensures forall i :: k < i <= j ==> !Varying(min, max, i)
    decreases j + 1
  {
    if j < 0 then -1
    else if min[j] != max[j] then j
    else ScanVaryingBack(min, max, j - 1)
  }

  /** `current`: the first varying coordinate from cp on, or 0 when the
      coordinates from cp on are all fixed. */
  function Current(min: seq<real>, max: seq<real>, cp: int): (c: int)
    requires |min| == |max| && 0 <= cp < |min|
    ensures 0 <= c < |min|
    ensures (exists j :: cp <= j < |min| && Varying(min, max, j)) ==>
      cp <= c && Varying(min, max, c) && forall i :: cp <= i < c ==> !Varying(min, max, i)
    ensures (forall j :: cp <= j < |min| ==> !Varying(min, max, j)) ==> c == 0
  {
    var k := ScanVarying(min, max, cp);
    if k == |min| then 0 else k
  }

  /** `next`: the first varying coordinate after cp, or cp itself when there
      is none. */
  function Next(min: seq<real>, max: seq<real>, cp: int): (c: int)
    requires |min| == |max| && 0 <= cp < |min| - 1
    ensures cp <= c < |min|
    ensures (exists j :: cp < j < |min| && Varying(min, max, j)) ==>
      cp < c && Varying(min, max, c) && forall i :: cp < i < c ==> !Varying(min, max, i)
    ensures (forall j :: cp < j < |min| ==> !Varying(min, max, j)) <==> c == cp
  {
    var k := ScanVarying(min, max, cp + 1);
    if k == |min| then cp else k
  }

  /** `prev`: the last varying coordinate before cp, or 0 when there is none. */
  function Prev(min: seq<real>, max: seq<real>, cp: int): (c: int)
    requires |min| == |max| && 0 < cp < |min|
    ensures 0 <= c < cp
    ensures (exists j :: 0 <= j < cp && Varying(min, max, j)) ==>
      Varying(min, max, c) && forall i :: c < i < cp ==> !Varying(min, max, i)
    ensures (forall j :: 0 <= j < cp ==> !Varying(min, max, j)) ==> c == 0
  {
    var k := ScanVaryingBack(min, max, cp - 1);
    if k < 0 then 0 else k
  }

  // ---- the phases of a call -------------------------------------------

  /** The backtracking loop: from cp, step back over coordinates that have
      reached their maximum. None means coordinate 0 was reached at its
      maximum, so the search is exhausted. */
  function Backtrack(min: seq<real>, max: seq<real>, v: seq<real>, cp: int): (b: Option<int>)
    requires |min| == |max| == |v| && 0 <= cp < |v|
    ensures b.Some? ==> 0 <= b.value <= cp && v[b.value] < max[b.value]
    ensures b.Some? ==> forall j :: b.value < j <= cp && Varying(min, max, j) ==> v[j] >= max[j]
    ensures b.None? ==> v[0] >= max[0]
    ensures b.None? ==> forall j :: 0 <= j <= cp && Varying(min, max, j) ==> v[j] >= max[j]
    decreases cp
  {
    if v[cp] < max[cp] then Some(cp)
    else if cp == 0 then None
    else Backtrack(min, max, v, Prev(min, max, cp))
  }

  /** The forward loop as written: it moves right only while the coordinate
      immediately to the right is at its minimum and differs from its
      maximum, so a fixed coordinate stops it. */
  function AdvanceAsWritten(min: seq<real>, max: seq<real>, v: seq<real>, cp: int): (q: int)
    requires |min| == |max| == |v| && 0 <= cp < |v|
    ensures cp <= q < |v|
    ensures forall j :: cp < j <= q ==> Varying(min, max, j) && v[j] == min[j]
    ensures q == |v| - 1 || v[q + 1] != min[q + 1] || v[q + 1] == max[q + 1]
    decreases |v| - cp
  {
    if cp < |v| - 1 && v[cp + 1] == min[cp + 1] && v[cp + 1] != max[cp + 1] then
      var j := Next(min, max, cp);
      assert j == cp + 1;
      AdvanceAsWritten(min, max, v, j)
    else cp
  }

  /** The forward loop as intended: it moves to the next varying coordinate
      while that one is at its minimum, stepping over fixed coordinates. */
  function AdvanceCorrected(min: seq<real>, max: seq<real>, v: seq<real>, cp: int): (q: int)
    requires |min| == |max| == |v| && 0 <= cp < |v|
    ensures cp <= q < |v|
    ensures forall j :: cp < j <= q && Varying(min, max, j) ==> v[j] == min[j]
    ensures Varying(min, max, cp) ==> Varying(min, max, q)
    ensures q == |v| - 1 || Next(min, max, q) == q || v[Next(min, max, q)] != min[Next(min, max, q)]
    decreases |v| - cp
  {
    if cp < |v| - 1 then
      var j := Next(min, max, cp);
      if j != cp && v[j] == min[j] then AdvanceCorrected(min, max, v, j) else cp
    else cp
  }

  /** What one call returns: the modifier's new fields, the modified vector
      and the boolean answer. */
  datatype Call = Call(modifier: Modifier, point: seq<real>, modified: bool)

  /** The tail of a successful call: advance coordinate p by one step, set
      the coordinates after it to their minimum, count the step and move the
      current coordinate on to the next varying one. */
  function StepAt(m: Modifier, v: seq<real>, p: int): (c: Call)
    requires Fits(m, v) && 0 <= p < |v|
    ensures Fits(c.modifier, c.point) && c.modified
    ensures c.modifier == m.(step := m.step + 1, currentParam := c.modifier.currentParam)
    ensures IncrementsAt(m.min, m.max, m.rate, v, c.point, p)
    ensures c.modifier.currentParam == if p < |v| - 1 then Next(m.min, m.max, p) else p
    ensures FixedHoldMin(m.min, m.max, v) ==> FixedHoldMin(m.min, m.max, c.point)
  {
    var stepped := m.(step := m.step + 1, currentParam := p);
    var w := Reset(m.min, v[p := v[p] + Rate(stepped)], p + 1);
    var cp := if p < |v| - 1 then Next(m.min, m.max, p) else p;
    IncrementKeepsFixed(m.min, m.max, m.rate, v, w, p);
    Call(stepped.(currentParam := cp), w, true)
  }

  /** A step leaves fixed coordinates at their minimum: the step of a
      fixed coordinate is zero. */
  lemma IncrementKeepsFixed(min: seq<real>, max: seq<real>, rate: real, v: seq<real>, w: seq<real>, p: int)
    requires |min| == |max| == |v| == |w|
    requires IncrementsAt(min, max, rate, v, w, p)
    ensures FixedHoldMin(min, max, v) ==> FixedHoldMin(min, max, w)
  {
  }

  /** One call of `Modify`. With `corrected` false this is the code as
      written; with `corrected` true the forward loop skips fixed
      coordinates the way `next` does. */
  function Modify(m: Modifier, v: seq<real>, corrected: bool): (c: Call)
    requires Fits(m, v)
    ensures Fits(c.modifier, c.point)
    ensures c.modifier.min == m.min && c.modifier.max == m.max && c.modifier.rate == m.rate
    ensures !m.started ==>
      (c.modified && c.point == m.min && c.modifier.started
       && c.modifier.step == 0 && c.modifier.currentParam == m.currentParam)
    ensures m.started && !c.modified ==>
      (c.point == v && !c.modifier.started && c.modifier.currentParam == 0
       && c.modifier.step == m.step && v[0] >= m.max[0])
    ensures m.started && c.modified ==>
      (c.modifier.started && c.modifier.step == m.step + 1
       && exists i :: IncrementsAt(m.min, m.max, m.rate, v, c.point, i))
    ensures (!m.started || FixedHoldMin(m.min, m.max, v)) ==> FixedHoldMin(m.min, m.max, c.point)
  {
    if !m.started then
      Call(m.(step := 0, started := true), Reset(m.min, v, 0), true)
    else
      var cur := Current(m.min, m.max, m.currentParam);
      match Backtrack(m.min, m.max, v, cur)
      case None =>
        Call(m.(started := false, currentParam := 0), v, false)
      case Some(b) =>
        var p := if corrected then AdvanceCorrected(m.min, m.max, v, b) else AdvanceAsWritten(m.min, m.max, v, b);
        StepAt(m, v, p)
  }
}
