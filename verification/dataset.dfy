/** Training-set rows for the neural adviser: a dataset declares how many
    inputs, outputs and debug values a row carries, and rows are built by
    appending values one at a time. Every input is written twice, once as
    the original value and once as the value the normalizer later rescales. */
module DatasetBuilder {
  import opened Common

  /** One training row. */
  datatype Row = Row(originalInputs: seq<real>, normalizedInputs: seq<real>, outputs: seq<real>, debug: seq<real>)

  /** The declared widths of a row, and the rows collected so far. */
  datatype Dataset = Dataset(inputs: int, outputs: int, debug: int, rows: seq<Row>)

  /** The widths of the calm-before-storm network: one input, three outputs
      (the network's CBSInputs and CBSOutputs) and five debug values. */
  const CBSInputs: int := 1
  const CBSOutputs: int := 3
  const CBSDebug: int := 5

  function NewCBSDataset(): (ds: Dataset)
    ensures ds.rows == []
    ensures Widths(ds) == (1, 3, 5)
  {
    Dataset(CBSInputs, CBSOutputs, CBSDebug, [])
  }

  function Widths(ds: Dataset): (int, int, int) {
    (ds.inputs, ds.outputs, ds.debug)
  }

  /** Original and normalized inputs line up one to one. */
  predicate Aligned(row: Row) {
    |row.originalInputs| == |row.normalizedInputs|
  }

  /** The row has exactly the widths the dataset declares. */
  predicate Fits(ds: Dataset, row: Row) {
    && |row.originalInputs| == ds.inputs
    && |row.outputs| == ds.outputs
    && |row.debug| == ds.debug
    && Aligned(row)
  }

  /** `NewRow`: four empty sequences whose capacities are the declared widths;
      a negative width makes the allocation panic, modelled as `None`. */
  function NewRow(ds: Dataset): (r: Option<Row>)
    ensures r.Some? <==> ds.inputs >= 0 && ds.outputs >= 0 && ds.debug >= 0
    ensures r.Some? ==> r.value == Row([], [], [], [])
  {
    if ds.inputs < 0 || ds.outputs < 0 || ds.debug < 0 then None else Some(Row([], [], [], []))
  }

  /** `NewInput`: the value goes to the end of both input sequences. */
  function NewInput(row: Row, value: real): (r: Row)
    ensures Aligned(row) ==> Aligned(r)
    ensures |r.originalInputs| == |row.originalInputs| + 1 && |r.normalizedInputs| == |row.normalizedInputs| + 1
    ensures r.originalInputs[|row.originalInputs|] == value && r.normalizedInputs[|row.normalizedInputs|] == value
    ensures r.originalInputs[..|row.originalInputs|] == row.originalInputs
    ensures r.normalizedInputs[..|row.normalizedInputs|] == row.normalizedInputs
    ensures r.outputs == row.outputs && r.debug == row.debug
  {
    row.(originalInputs := row.originalInputs + [value], normalizedInputs := row.normalizedInputs + [value])
  }

  /** `NewOutput`: only the outputs grow. */
  function NewOutput(row: Row, value: real): (r: Row)
    ensures |r.outputs| == |row.outputs| + 1
    ensures r.outputs[..|row.outputs|] == row.outputs && r.outputs[|row.outputs|] == value
    ensures r.originalInputs == row.originalInputs && r.normalizedInputs == row.normalizedInputs && r.debug == row.debug
  {
    row.(outputs := row.outputs + [value])
  }

  /** `NewDebug`: only the debug values grow. */
  function NewDebug(row: Row, value: real): (r: Row)
    ensures |r.debug| == |row.debug| + 1
    ensures r.debug[..|row.debug|] == row.debug && r.debug[|row.debug|] == value
    ensures r.originalInputs == row.originalInputs && r.normalizedInputs == row.normalizedInputs && r.outputs == row.outputs
  {
    row.(debug := row.debug + [value])
  }

  /** A chain of `NewInput` calls, first value first. */
  function AddInputs(row: Row, values: seq<real>): Row
    decreases |values|
  {
    if |values| == 0 then row else NewInput(AddInputs(row, values[..|values| - 1]), values[|values| - 1])
  }

  function AddOutputs(row: Row, values: seq<real>): Row
    decreases |values|
  {
    if |values| == 0 then row else NewOutput(AddOutputs(row, values[..|values| - 1]), values[|values| - 1])
  }

  function AddDebug(row: Row, values: seq<real>): Row
    decreases |values|
  {
    if |values| == 0 then row else NewDebug(AddDebug(row, values[..|values| - 1]), values[|values| - 1])
  }

  /** Chained inputs land in call order in both input sequences. */
  lemma {:induction false} AddInputsMeaning(row: Row, values: seq<real>)
    ensures AddInputs(row, values).originalInputs == row.originalInputs + values
    ensures AddInputs(row, values).normalizedInputs == row.normalizedInputs + values
    ensures AddInputs(row, values).outputs == row.outputs && AddInputs(row, values).debug == row.debug
    decreases |values|
  {
    if |values| > 0 {
      var init := values[..|values| - 1];
      AddInputsMeaning(row, init);
      assert values == init + [values[|values| - 1]];
    }
  }

  lemma {:induction false} AddOutputsMeaning(row: Row, values: seq<real>)
    ensures AddOutputs(row, values).outputs == row.outputs + values
    ensures AddOutputs(row, values).originalInputs == row.originalInputs
    ensures AddOutputs(row, values).normalizedInputs == row.normalizedInputs
    ensures AddOutputs(row, values).debug == row.debug
    decreases |values|
  {
    if |values| > 0 {
      var init := values[..|values| - 1];
      AddOutputsMeaning(row, init);
      assert values == init + [values[|values| - 1]];
    }
  }

  lemma {:induction false} AddDebugMeaning(row: Row, values: seq<real>)
    ensures AddDebug(row, values).debug == row.debug + values
    ensures AddDebug(row, values).originalInputs == row.originalInputs
    ensures AddDebug(row, values).normalizedInputs == row.normalizedInputs
    ensures AddDebug(row, values).outputs == row.outputs
    decreases |values|
  {
    if |values| > 0 {
      var init := values[..|values| - 1];
      AddDebugMeaning(row, init);
      assert values == init + [values[|values| - 1]];
    }
  }

  /** A row built the way the dataset factory builds one: a fresh row, then
      its inputs, its outputs and its debug values. */
  function BuildRow(ds: Dataset, inputs: seq<real>, outputs: seq<real>, debug: seq<real>): Option<Row> {
    match NewRow(ds)
    case None => None
    case Some(row) => Some(AddDebug(AddOutputs(AddInputs(row, inputs), outputs), debug))
  }

  /** The built row holds exactly the values given, the normalized inputs
      start as copies of the originals, and the row fits the dataset exactly
      when the counts match the declared widths. */
  lemma BuildRowMeaning(ds: Dataset, inputs: seq<real>, outputs: seq<real>, debug: seq<real>)
    requires ds.inputs >= 0 && ds.outputs >= 0 && ds.debug >= 0
    ensures BuildRow(ds, inputs, outputs, debug) == Some(Row(inputs, inputs, outputs, debug))
    ensures Fits(ds, Row(inputs, inputs, outputs, debug)) <==>
      |inputs| == ds.inputs && |outputs| == ds.outputs && |debug| == ds.debug
  {
    var empty := Row([], [], [], []);
    AddInputsMeaning(empty, inputs);
    var a := AddInputs(empty, inputs);
    AddOutputsMeaning(a, outputs);
    var b := AddOutputs(a, outputs);
    AddDebugMeaning(b, debug);
    assert [] + inputs == inputs && [] + outputs == outputs && [] + debug == debug;
  }

  /** Every CBS row built with one input, three outputs and five debug values
      fits the CBS dataset. */
  lemma CBSRowFits(inputs: seq<real>, outputs: seq<real>, debug: seq<real>)
    requires |inputs| == 1 && |outputs| == 3 && |debug| == 5
    ensures BuildRow(NewCBSDataset(), inputs, outputs, debug).Some?
    ensures Fits(NewCBSDataset(), BuildRow(NewCBSDataset(), inputs, outputs, debug).value)
  {
    BuildRowMeaning(NewCBSDataset(), inputs, outputs, debug);
  }
}
