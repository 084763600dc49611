/** Min-max scaling of the dataset's inputs. The normalizer records, per
    input column, the smallest and largest original value, with both bounds
    starting at zero; normalizing rewrites every normalized input as its
    original value's position between those bounds. An index past the end of
    a bound or of a row's normalized inputs panics, modelled as `None`. */
module Normalizer {
  import opened Common
  import opened DatasetBuilder

  datatype Normalizer = Normalizer(inputsMin: seq<real>, inputsMax: seq<real>)

  /** The bounds before any row is seen: `ds.Inputs` zeros each. */
  function Zeros(n: nat): (z: seq<real>)
    ensures |z| == n && forall j :: 0 <= j < n ==> z[j] == 0.0
  {
    seq(n, _ => 0.0)
  }

  /** One pass of the inner loop over a row's original inputs: each bound
      moves out to the value when the value lies beyond it. A row with more
      inputs than the bounds have columns panics. */
  function Widen(b: Normalizer, xs: seq<real>): (r: Option<Normalizer>)
    requires |b.inputsMin| == |b.inputsMax|
    ensures r.Some? <==> |xs| <= |b.inputsMin|
    ensures r.Some? ==> |r.value.inputsMin| == |r.value.inputsMax| == |b.inputsMin|
  {
    if |xs| > |b.inputsMin| then None
    else
      var n := |b.inputsMin|;
      Some(Normalizer(
        seq(n, j requires 0 <= j < n => if j < |xs| && b.inputsMin[j] > xs[j] then xs[j] else b.inputsMin[j]),
        seq(n, j requires 0 <= j < n => if j < |xs| && b.inputsMax[j] < xs[j] then xs[j] else b.inputsMax[j])))
  }

  /** The outer loop over the rows, first row first. */
  function Scan(b: Normalizer, rows: seq<Row>): (r: Option<Normalizer>)
    requires |b.inputsMin| == |b.inputsMax|
    ensures r.Some? ==> |r.value.inputsMin| == |r.value.inputsMax| == |b.inputsMin|
    decreases |rows|
  {
    if |rows| == 0 then Some(b)
    else
      match Scan(b, rows[..|rows| - 1])
      case None => None
      case Some(c) => Widen(c, rows[|rows| - 1].originalInputs)
  }

  /** `NewDatasetNormalizer`: a negative `ds.Inputs` makes the allocation panic. */
  function NewNormalizer(ds: Dataset): (r: Option<Normalizer>)
    ensures r.Some? ==> |r.value.inputsMin| == |r.value.inputsMax| == ds.inputs
  {
    if ds.inputs < 0 then None else Scan(Normalizer(Zeros(ds.inputs), Zeros(ds.inputs)), ds.rows)
  }

  /** Every row has at most `width` original inputs. */
  predicate RowsWithin(rows: seq<Row>, width: int) {
    forall i :: 0 <= i < |rows| ==> |rows[i].originalInputs| <= width
  }

  /** Column j of row i holds v. */
  predicate At(rows: seq<Row>, i: int, j: int, v: real) {
    0 <= i < |rows| && 0 <= j < |rows[i].originalInputs| && rows[i].originalInputs[j] == v
  }

  /** The bounds enclose zero and every value of their column. */
  predicate Encloses(n: Normalizer, rows: seq<Row>) {
    && |n.inputsMin| == |n.inputsMax|
    && (forall j :: 0 <= j < |n.inputsMin| ==> n.inputsMin[j] <= 0.0 <= n.inputsMax[j])
    && (forall i, j :: 0 <= i < |rows| && 0 <= j < |rows[i].originalInputs| && j < |n.inputsMin| ==>
          n.inputsMin[j] <= rows[i].originalInputs[j] <= n.inputsMax[j])
  }

  /** Each bound is the starting zero or a value of its column. */
  ghost predicate Attained(n: Normalizer, rows: seq<Row>) {
    && |n.inputsMin| == |n.inputsMax|
    && (forall j :: 0 <= j < |n.inputsMin| ==>
          n.inputsMin[j] == 0.0 || exists i :: At(rows, i, j, n.inputsMin[j]))
    && (forall j :: 0 <= j < |n.inputsMax| ==>
          n.inputsMax[j] == 0.0 || exists i :: At(rows, i, j, n.inputsMax[j]))
  }

  /** The scan succeeds exactly when no row is wider than the bounds, and then
      its bounds are the tightest ones enclosing zero and every value. */
  lemma {:induction false} ScanMeaning(width: nat, rows: seq<Row>)
    ensures var r := Scan(Normalizer(Zeros(width), Zeros(width)), rows);
      && (r.Some? <==> RowsWithin(rows, width))
      && (r.Some? ==> Encloses(r.value, rows) && Attained(r.value, rows))
    decreases |rows|
  {
    var start := Normalizer(Zeros(width), Zeros(width));
    if |rows| > 0 {
      var init := rows[..|rows| - 1];
      var last := rows[|rows| - 1];
      ScanMeaning(width, init);
      assert RowsWithin(rows, width) <==> RowsWithin(init, width) && |last.originalInputs| <= width by {
        if RowsWithin(init, width) && |last.originalInputs| <= width {
          forall i | 0 <= i < |rows|
            ensures |rows[i].originalInputs| <= width
          {
            if i < |init| {
              assert rows[i] == init[i];
            }
          }
        }
        if RowsWithin(rows, width) {
          forall i | 0 <= i < |init|
            ensures |init[i].originalInputs| <= width
          {
            assert init[i] == rows[i];
          }
        }
      }
      var s := Scan(start, init);
      if s.Some? && |last.originalInputs| <= width {
        WidenMeaning(s.value, init, last);
        assert init + [last] == rows;
      }
    }
  }

  /** One more row keeps the bounds enclosing and attained. */
  lemma WidenMeaning(b: Normalizer, rows: seq<Row>, last: Row)
    requires Encloses(b, rows) && Attained(b, rows)
    requires |last.originalInputs| <= |b.inputsMin|
    ensures Widen(b, last.originalInputs).Some?
    ensures Encloses(Widen(b, last.originalInputs).value, rows + [last])
    ensures Attained(Widen(b, last.originalInputs).value, rows + [last])
  {
    var c := Widen(b, last.originalInputs).value;
    var all := rows + [last];
    var xs := last.originalInputs;
    forall i, j | 0 <= i < |all| && 0 <= j < |all[i].originalInputs| && j < |c.inputsMin|
      ensures c.inputsMin[j] <= all[i].originalInputs[j] <= c.inputsMax[j]
    {
      if i < |rows| {
        assert all[i] == rows[i];
      }
    }
    forall j | 0 <= j < |c.inputsMin|
      ensures c.inputsMin[j] == 0.0 || exists i :: At(all, i, j, c.inputsMin[j])
    {
      if j < |xs| && b.inputsMin[j] > xs[j] {
        assert At(all, |rows|, j, c.inputsMin[j]);
      } else if b.inputsMin[j] != 0.0 {
        var i :| At(rows, i, j, b.inputsMin[j]);
        assert all[i] == rows[i];
        assert At(all, i, j, c.inputsMin[j]);
      }
    }
    forall j | 0 <= j < |c.inputsMax|
      ensures c.inputsMax[j] == 0.0 || exists i :: At(all, i, j, c.inputsMax[j])
    {
      if j < |xs| && b.inputsMax[j] < xs[j] {
        assert At(all, |rows|, j, c.inputsMax[j]);
      } else if b.inputsMax[j] != 0.0 {
        var i :| At(rows, i, j, b.inputsMax[j]);
        assert all[i] == rows[i];
        assert At(all, i, j, c.inputsMax[j]);
      }
    }
  }

  /** The normalizer exists exactly when `ds.Inputs` is not negative and no
      row has more inputs than it; its bounds then have `ds.Inputs` columns,
      enclose zero and every value, and are each zero or a value of the column. */
  lemma NewNormalizerMeaning(ds: Dataset)
    ensures NewNormalizer(ds).Some? <==> ds.inputs >= 0 && RowsWithin(ds.rows, ds.inputs)
    ensures NewNormalizer(ds).Some? ==>
      var n := NewNormalizer(ds).value;
      |n.inputsMin| == ds.inputs && Encloses(n, ds.rows) && Attained(n, ds.rows)
  {
    if ds.inputs >= 0 {
      ScanMeaning(ds.inputs, ds.rows);
    }
  }

  // ---- normalizing -----------------------------------------------------------

  /** A value's position between the bounds; a column whose bounds coincide maps to 1. */
  function Scale(lo: real, hi: real, x: real): (y: real)
    ensures hi - lo == 0.0 ==> y == 1.0
    ensures hi - lo != 0.0 ==> lo + y * (hi - lo) == x
  {
    if hi - lo == 0.0 then 1.0 else (x - lo) / (hi - lo)
  }

  /** A value between the bounds scales into the unit interval, the lower
      bound to 0 and the upper to 1. */
  lemma ScaleBounds(lo: real, hi: real, x: real)
    requires lo <= x <= hi
    ensures 0.0 <= Scale(lo, hi, x) <= 1.0
    ensures lo < hi && x == lo ==> Scale(lo, hi, x) == 0.0
    ensures lo < hi && x == hi ==> Scale(lo, hi, x) == 1.0
  {
    if lo < hi {
      var d := hi - lo;
      var y := Scale(lo, hi, x);
      assert y * d == x - lo;
      if y < 0.0 {
        Positive(0.0 - y, d);
      }
      if y > 1.0 {
        Positive(y - 1.0, d);
      }
      if x == hi && y != 1.0 {
        if y < 1.0 {
          Positive(1.0 - y, d);
        }
      }
      if x == lo && y != 0.0 {
        Positive(y, d);
      }
    }
  }

  lemma Positive(a: real, b: real)
    requires a > 0.0 && b > 0.0
    ensures a * b > 0.0
  {
  }

  /** The inner loop for one row: every original input is scaled into the
      normalized input at the same index. Bounds or normalized inputs
      shorter than the originals panic. */
  predicate RowFits(n: Normalizer, row: Row) {
    && |row.originalInputs| <= |n.inputsMin|
    && |row.originalInputs| <= |n.inputsMax|
    && |row.originalInputs| <= |row.normalizedInputs|
  }

  function NormalizeRow(n: Normalizer, row: Row): (r: Option<Row>)
    ensures r.Some? <==> RowFits(n, row)
  {
    if !RowFits(n, row) then None
    else
      var xs := row.originalInputs;
      Some(row.(normalizedInputs := seq(|row.normalizedInputs|, j requires 0 <= j < |row.normalizedInputs| =>
        if j < |xs| then Scale(n.inputsMin[j], n.inputsMax[j], xs[j]) else row.normalizedInputs[j])))
  }

  function NormalizeRows(n: Normalizer, rows: seq<Row>): (r: Option<seq<Row>>)
    ensures r.Some? ==> |r.value| == |rows|
    ensures r.Some? ==> forall i :: 0 <= i < |rows| ==> NormalizeRow(n, rows[i]) == Some(r.value[i])
    ensures r.None? ==> exists i :: 0 <= i < |rows| && !RowFits(n, rows[i])
    decreases |rows|
  {
    if |rows| == 0 then Some([])
    else
      match NormalizeRow(n, rows[0])
      case None => None
      case Some(first) =>
        match NormalizeRows(n, rows[1..])
        case None => None
        case Some(rest) => Some([first] + rest)
  }

  /** `NormalizeDataset`. An empty dataset is left as it is. Otherwise it
      panics only on a row that does not fit, and it keeps the widths, the
      number of rows and every row's original inputs, outputs and debug
      values, rewriting exactly the normalized inputs that have an original
      counterpart. */
  function NormalizeDataset(n: Normalizer, ds: Dataset): (r: Option<Dataset>)
    ensures |ds.rows| == 0 ==> r == Some(ds)
    ensures r.None? <==> exists i :: 0 <= i < |ds.rows| && !RowFits(n, ds.rows[i])
    ensures r.Some? ==>
      var out := r.value;
      && Widths(out) == Widths(ds)
      && |out.rows| == |ds.rows|
      && forall i :: 0 <= i < |ds.rows| ==>
           var a := ds.rows[i];
           var b := out.rows[i];
           && b.originalInputs == a.originalInputs && b.outputs == a.outputs && b.debug == a.debug
           && |b.normalizedInputs| == |a.normalizedInputs|
           && (forall j :: 0 <= j < |a.originalInputs| ==>
                 b.normalizedInputs[j] == Scale(n.inputsMin[j], n.inputsMax[j], a.originalInputs[j]))
           && (forall j :: |a.originalInputs| <= j < |a.normalizedInputs| ==>
                 b.normalizedInputs[j] == a.normalizedInputs[j])
  {
    if |ds.rows| == 0 then Some(ds)
    else
      match NormalizeRows(n, ds.rows)
      case None => None
      case Some(rows) => Some(ds.(rows := rows))
  }

  /** A normalizer built from a dataset whose rows have their normalized
      inputs aligned with the originals normalizes that dataset without
      panicking, and every rewritten input lies in the unit interval. */
  lemma NormalizedInUnitInterval(ds: Dataset)
    requires NewNormalizer(ds).Some?
    requires forall i :: 0 <= i < |ds.rows| ==> Aligned(ds.rows[i])
    ensures NormalizeDataset(NewNormalizer(ds).value, ds).Some?
    ensures var out := NormalizeDataset(NewNormalizer(ds).value, ds).value;
      forall i, j :: 0 <= i < |out.rows| && 0 <= j < |out.rows[i].normalizedInputs| ==>
        0.0 <= out.rows[i].normalizedInputs[j] <= 1.0
  {
    var n := NewNormalizer(ds).value;
    NewNormalizerMeaning(ds);
    forall i | 0 <= i < |ds.rows|
      ensures RowFits(n, ds.rows[i])
    {
    }
    var out := NormalizeDataset(n, ds).value;
    forall i, j | 0 <= i < |out.rows| && 0 <= j < |out.rows[i].normalizedInputs|
      ensures 0.0 <= out.rows[i].normalizedInputs[j] <= 1.0
    {
      var a := ds.rows[i];
      assert j < |a.originalInputs|;
      ScaleBounds(n.inputsMin[j], n.inputsMax[j], a.originalInputs[j]);
    }
  }
}
