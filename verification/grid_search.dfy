/** State and arithmetic shared by the two brute-force parameter modifiers:
    the modifier record, the per-coordinate step, the advertised number of
    points, and the grid of points the search is meant to visit. */
module GridSearch {
  import opened Common
  import opened GridRank

  /** The fields a modifier is created with and never changes. */
  datatype Space = Space(rate: real, min: seq<real>, max: seq<real>)

  /** The modifier's fields; the vector being modified is passed to each call.
      The three fixed fields are kept in `space`, apart from the cursor that
      every call updates. */
  datatype Modifier = Modifier(
    step: int,
    started: bool,
    currentParam: int,
    space: Space)
  {
    const rate: real := space.rate
    const min: seq<real> := space.min
    const max: seq<real> := space.max
  }

  function NewModifier(min: seq<real>, max: seq<real>, rate: real): (m: Modifier)
    ensures !m.started && m.step == 0 && m.currentParam == 0
    ensures m.min == min && m.max == max && m.rate == rate
  {
    Modifier(0, false, 0, Space(rate, min, max))
  }

  /** Bounds of equal, non-zero length and a current coordinate inside them. */
  predicate WellFormed(m: Modifier) {
    |m.min| == |m.max| > 0 && 0 <= m.currentParam < |m.min|
  }

  /** A vector the modifier can work on. */
  predicate Fits(m: Modifier, v: seq<real>) {
    WellFormed(m) && |v| == |m.min|
  }

  predicate Varying(min: seq<real>, max: seq<real>, i: int)
    requires 0 <= i < |min| == |max|
  {
    min[i] != max[i]
  }

  /** Coordinates with min == max hold their minimum. */
  predicate FixedHoldMin(min: seq<real>, max: seq<real>, v: seq<real>)
    requires |min| == |max| == |v|
  {
    forall i :: 0 <= i < |v| && !Varying(min, max, i) ==> v[i] == min[i]
  }

  /** Coordinates from `offset` on set back to their minimum. */
  function Reset(min: seq<real>, v: seq<real>, offset: int): (w: seq<real>)
    requires |v| == |min| && 0 <= offset <= |v|
    ensures |w| == |v|
    ensures forall i :: 0 <= i < offset ==> w[i] == v[i]
    ensures forall i :: offset <= i < |w| ==> w[i] == min[i]
  {
    v[..offset] + min[offset..]
  }

  /** The amount one step adds to coordinate i. */
  function Delta(min: seq<real>, max: seq<real>, rate: real, i: int): real
    requires 0 <= i < |min| == |max|
  {
    (max[i] - min[i]) * rate
  }

  /** The step of the current coordinate. */
  function Rate(m: Modifier): (d: real)
    requires WellFormed(m)
    ensures d == Delta(m.min, m.max, m.rate, m.currentParam)
    ensures m.rate > 0.0 && m.min[m.currentParam] < m.max[m.currentParam] ==> d > 0.0
  {
    (m.max[m.currentParam] - m.min[m.currentParam]) * m.rate
  }

  /** The vector after a successful step at coordinate i: earlier coordinates
      kept, coordinate i advanced by one step, later coordinates at minimum. */
  predicate IncrementsAt(min: seq<real>, max: seq<real>, rate: real, v: seq<real>, w: seq<real>, i: int)
    requires |min| == |max| == |v| == |w|
  {
    0 <= i < |v|
    && (forall j :: 0 <= j < i ==> w[j] == v[j])
    && w[i] == v[i] + Delta(min, max, rate, i)
    && (forall j :: i < j < |w| ==> w[j] == min[j])
  }

  /** Number of coordinates below k whose bounds differ. */
  function VaryingCount(min: seq<real>, max: seq<real>, k: nat): (c: nat)
    requires k <= |min| == |max|
    ensures c <= k
  {
    if k == 0 then 0 else VaryingCount(min, max, k - 1) + (if min[k - 1] != max[k - 1] then 1 else 0)
  }

  /** Steps per varying coordinate: ⌈1/rate⌉. */
  function Steps(rate: real): (k: int)
    requires rate > 0.0
    ensures k >= 1
    ensures 1.0 / rate <= k as real < 1.0 / rate + 1.0
  {
    var q := 1.0 / rate;
    InverseProduct(q, rate);
    Ceil(q)
  }
  lemma InverseProduct(q: real, rate: real)
    requires rate > 0.0 && q == 1.0 / rate
    ensures q * rate == 1.0 && q > 0.0
  {
  }
  lemma ScaleUp(q: real, rate: real, x: real)
    requires rate > 0.0 && q * rate == 1.0 && q <= x
    ensures x * rate >= 1.0
  {
    assert q * rate <= x * rate;
  }
  lemma ScaleDown(q: real, rate: real, t: real)
    requires rate > 0.0 && q * rate == 1.0 && t < q
    ensures t * rate < 1.0
  {
    var a := t * rate;
    var b := q * rate;
    assert a < b;
    assert b == 1.0;
    assert a < 1.0;
  }
  lemma MulRealMono(a: real, b: real, c: real)
    requires a <= b && c >= 0.0
    ensures a * c <= b * c
  {
  }

  lemma MulRealStrict(a: real, b: real, c: real)
    requires a < b && c > 0.0
    ensures a * c < b * c
  {
  }

  /** The number of points the modifier advertises: (⌈1/rate⌉ + 1) raised to
      the number of varying coordinates. A zero rate makes the decimal
      division panic. */
  function TotalSteps(m: Modifier): (t: Result<int>)
    requires |m.min| == |m.max|
    ensures m.rate == 0.0 <==> t.Panic?
    ensures m.rate > 0.0 ==> t == Ok(Pow(Steps(m.rate) + 1, VaryingCount(m.min, m.max, |m.min|)))
  {
    if m.rate == 0.0 then Panic
    else Ok(Pow(Ceil(1.0 / m.rate) + 1, VaryingCount(m.min, m.max, |m.min|)))
  }

  /** The step counter the optimizer shows as progress. */
  function CurrentStep(m: Modifier): int {
    m.step
  }

  // ---- the grid -------------------------------------------------------

  /** Bounds the search can enumerate: a positive rate and min <= max. */
  predicate GridBounds(min: seq<real>, max: seq<real>, rate: real) {
    |min| == |max| && rate > 0.0 && forall i :: 0 <= i < |min| ==> min[i] <= max[i]
  }

  /** Number of values coordinate i takes: ⌈1/rate⌉ + 1 when it varies, 1 otherwise. */
  function Radices(min: seq<real>, max: seq<real>, rate: real): (r: seq<int>)
    requires GridBounds(min, max, rate)
    ensures |r| == |min|
    ensures forall i :: 0 <= i < |r| ==> r[i] == if Varying(min, max, i) then Steps(rate) + 1 else 1
  {
    seq(|min|, i requires 0 <= i < |min| => if min[i] != max[i] then Steps(rate) + 1 else 1)
  }

  /** Point v sits on the grid with digit vector d: each coordinate is its
      minimum plus d[i] steps, and d[i] is below its radix. */
  predicate OnGrid(min: seq<real>, max: seq<real>, rate: real, v: seq<real>, d: seq<int>)
    requires GridBounds(min, max, rate)
  {
    |v| == |min| && InRange(d, Radices(min, max, rate))
    && forall i :: 0 <= i < |v| ==> v[i] == min[i] + d[i] as real * Delta(min, max, rate, i)
  }

  /** The grid has (⌈1/rate⌉ + 1)^(varying coordinates) points. */
  lemma {:induction false} ProdRadices(min: seq<real>, max: seq<real>, rate: real, k: nat)
    requires GridBounds(min, max, rate) && k <= |min|
    ensures Prod(Radices(min, max, rate), k) == Pow(Steps(rate) + 1, VaryingCount(min, max, k))
  {
    if k > 0 {
      ProdRadices(min, max, rate, k - 1);
      if min[k - 1] != max[k - 1] {
        assert Prod(Radices(min, max, rate), k) == Pow(Steps(rate) + 1, VaryingCount(min, max, k - 1)) * (Steps(rate) + 1);
      }
    }
  }

  /** d steps reach the maximum exactly when d*rate >= 1. */
  lemma ReachIff(lo: real, hi: real, rate: real, d: real)
    requires lo < hi && rate > 0.0
    ensures lo + d * ((hi - lo) * rate) >= hi <==> d * rate >= 1.0
  {
    var w := hi - lo;
    var a := d * rate;
    assert d * (w * rate) == a * w;
    if a >= 1.0 {
      assert a * w >= 1.0 * w;
    } else {
      assert a * w < 1.0 * w;
    }
  }

  lemma StepsIff(rate: real, d: int)
    requires rate > 0.0 && 0 <= d <= Steps(rate)
    ensures d as real * rate >= 1.0 <==> d == Steps(rate)
  {
    var q := 1.0 / rate;
    InverseProduct(q, rate);
    if d == Steps(rate) {
      ScaleUp(q, rate, d as real);
    } else {
      ScaleDown(q, rate, d as real);
    }
  }

  /** On a varying coordinate, the value is at or past the maximum exactly at
      the last digit ⌈1/rate⌉. */
  lemma AtMaxIff(lo: real, hi: real, rate: real, d: int)
    requires lo < hi && rate > 0.0 && 0 <= d <= Steps(rate)
    ensures lo + d as real * ((hi - lo) * rate) >= hi <==> d == Steps(rate)
  {
    ReachIff(lo, hi, rate, d as real);
    StepsIff(rate, d);
  }

  /** On a varying coordinate, the value is at the minimum exactly at digit 0. */
  lemma AtMinIff(lo: real, hi: real, rate: real, d: int)
    requires lo < hi && rate > 0.0 && 0 <= d
    ensures lo + d as real * ((hi - lo) * rate) == lo <==> d == 0
  {
    if d > 0 {
      var x := (hi - lo) * rate;
      assert x > 0.0;
      MulRealStrict(0.0, d as real, x);
    }
  }

  /** Grid points with equal coordinates have equal digits. */
  lemma OnGridUnique(min: seq<real>, max: seq<real>, rate: real, v: seq<real>, d: seq<int>, e: seq<int>)
    requires GridBounds(min, max, rate)
    requires OnGrid(min, max, rate, v, d) && OnGrid(min, max, rate, v, e)
    ensures d == e
  {
    forall i | 0 <= i < |d|
      ensures d[i] == e[i]
    {
      DigitAt(min, max, rate, v, d, e, i);
    }
  }

  /** Coordinate i of a grid point determines digit i. */
  lemma DigitAt(min: seq<real>, max: seq<real>, rate: real, v: seq<real>, d: seq<int>, e: seq<int>, i: int)
    requires GridBounds(min, max, rate)
    requires OnGrid(min, max, rate, v, d) && OnGrid(min, max, rate, v, e)
    requires 0 <= i < |d|
    ensures d[i] == e[i]
  {
    var r := Radices(min, max, rate);
    assert 0 <= d[i] < r[i] && 0 <= e[i] < r[i];
    if min[i] != max[i] {
      var x := Delta(min, max, rate, i);
      MulRealStrict(0.0, max[i] - min[i], rate);
      assert v[i] == min[i] + d[i] as real * x;
      assert v[i] == min[i] + e[i] as real * x;
      DigitUnique(min[i], x, d[i], e[i]);
    }
  }

  /** The digits determine the grid point. */
  lemma OnGridPoint(min: seq<real>, max: seq<real>, rate: real, v: seq<real>, w: seq<real>, d: seq<int>)
    requires GridBounds(min, max, rate)
    requires OnGrid(min, max, rate, v, d) && OnGrid(min, max, rate, w, d)
    ensures v == w
  {
    assert forall i :: 0 <= i < |v| ==> v[i] == w[i];
  }

  lemma DigitUnique(lo: real, x: real, a: int, b: int)
    requires x > 0.0 && lo + a as real * x == lo + b as real * x
    ensures a == b
  {
    if a < b {
      MulRealStrict(a as real, b as real, x);
    } else if a > b {
      MulRealStrict(b as real, a as real, x);
    }
  }
}
