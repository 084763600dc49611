/** The CSV layout the advice file repository stores tested advices in: twelve
    fixed fields followed by one field per adviser parameter, and the file
    name derived from the run's name. Decimal rendering and parsing belong to
    the decimal library and are parameters here; integers use `Strconv`. */
module AdviceRecords {
  import opened Common
  import opened Strconv
  import opened AdviceBase

  /** How a decimal is written (`Decimal.String`) and read back
      (`decimal.NewFromString`, `None` on a parse error). */
  type Show = real -> string
  type Read = string -> Option<real>

  /** The number of fixed fields before the adviser parameters. */
  const FixedFields: int := 12

  /** A decimal read ignoring the error, as `x, _ := decimal.NewFromString(s)`
      does: the zero decimal when the string does not parse. */
  function ReadOrZero(read: Read, s: string): (x: real)
    ensures read(s).Some? ==> x == read(s).value
    ensures x != 0.0 ==> read(s) == Some(x)
  {
    match read(s)
    case Some(v) => v
    case None => 0.0
  }

  /** `adviceToRecord`: status, symbol, the two hour counts, the timestamp in
      Unix seconds, the three prices, the leverage, the order result, the
      closing time in Unix seconds and the adviser type, then the parameters. */
  function AdviceToRecord(a: InternalAdvice, show: Show): (r: seq<string>)
    ensures |r| == FixedFields + |a.adviserParams|
    ensures r[0] == a.status && r[1] == a.quoteSymbol && r[9] == a.orderResult && r[11] == a.adviserType
    ensures forall i :: 0 <= i < |a.adviserParams| ==> r[FixedFields + i] == show(a.adviserParams[i])
  {
    [a.status, a.quoteSymbol, Itoa(a.hoursBefore), Itoa(a.hoursAfter), Itoa(a.timestamp),
     show(a.currentPrice), show(a.takeProfit), show(a.stopLoss), Itoa(a.leverage),
     a.orderResult, Itoa(a.orderClosed), a.adviserType]
    + seq(|a.adviserParams|, i requires 0 <= i < |a.adviserParams| => show(a.adviserParams[i]))
  }

  /** `recordToAdvice`: the same positions read back, every parse error
      silently giving zero; a record shorter than twelve fields panics on the
      first missing index. */
  function RecordToAdvice(record: seq<string>, read: Read): (r: Result<InternalAdvice>)
    ensures r.Panic? <==> |record| < FixedFields
    ensures !r.Err?
    ensures r.Ok? ==> r.value.status == record[0] && r.value.quoteSymbol == record[1]
    ensures r.Ok? ==> r.value.orderResult == record[9] && r.value.adviserType == record[11]
    ensures r.Ok? ==> |r.value.adviserParams| == |record| - FixedFields
    ensures r.Ok? && Atoi(record[2]).None? ==> r.value.hoursBefore == 0
    ensures r.Ok? && Atoi(record[4]).None? ==> r.value.timestamp == 0
    ensures r.Ok? && read(record[5]).None? ==> r.value.currentPrice == 0.0
    ensures r.Ok? ==> forall i :: FixedFields <= i < |record| && read(record[i]).None? ==>
      r.value.adviserParams[i - FixedFields] == 0.0
  {
    if |record| < FixedFields then Panic
    else
      var params := ReadParams(record, read);
      Ok(InternalAdvice(
        record[0], record[1], AtoiOrZero(record[2]), AtoiOrZero(record[3]), AtoiOrZero(record[4]),
        ReadOrZero(read, record[5]), ReadOrZero(read, record[6]), ReadOrZero(read, record[7]),
        AtoiOrZero(record[8]), record[9], AtoiOrZero(record[10]), record[11], params))
  }

  /** The adviser parameters: every field after the fixed ones, read as a
      decimal. */
  function ReadParams(record: seq<string>, read: Read): (ps: seq<real>)
    requires |record| >= FixedFields
    ensures |ps| == |record| - FixedFields
    ensures forall i :: FixedFields <= i < |record| ==> ps[i - FixedFields] == ReadOrZero(read, record[i])
  {
    seq(|record| - FixedFields, j requires 0 <= j < |record| - FixedFields => ReadOrZero(read, record[FixedFields + j]))
  }

  /** Reading a written record gives the advice back, provided the decimal
      library reads back what it writes. */
  lemma RoundTrip(a: InternalAdvice, show: Show, read: Read)
    requires forall x :: read(show(x)) == Some(x)
    ensures RecordToAdvice(AdviceToRecord(a, show), read) == Ok(a)
  {
    var r := AdviceToRecord(a, show);
    AtoiItoa(a.hoursBefore);
    AtoiItoa(a.hoursAfter);
    AtoiItoa(a.timestamp);
    AtoiItoa(a.leverage);
    AtoiItoa(a.orderClosed);
    var back := RecordToAdvice(r, read).value;
    assert back.adviserParams == a.adviserParams by {
      forall i | 0 <= i < |a.adviserParams|
        ensures back.adviserParams[i] == a.adviserParams[i]
      {
        assert r[FixedFields + i] == show(a.adviserParams[i]);
      }
    }
  }

  /** Writing a read record reproduces it when every field is in the form the
      writer produces: the integers as `Itoa` renders them and the decimals
      as `show` renders them. */
  lemma RecordRoundTrip(record: seq<string>, show: Show, read: Read)
    requires |record| >= FixedFields
    requires forall k :: k in {2, 3, 4, 8, 10} ==> Atoi(record[k]).Some? && Itoa(Atoi(record[k]).value) == record[k]
    requires forall i :: 5 <= i < |record| && i !in {8, 9, 10, 11} ==>
      read(record[i]).Some? && show(read(record[i]).value) == record[i]
    ensures AdviceToRecord(RecordToAdvice(record, read).value, show) == record
  {
    var a := RecordToAdvice(record, read).value;
    var r := AdviceToRecord(a, show);
    assert 2 in {2, 3, 4, 8, 10} && 3 in {2, 3, 4, 8, 10} && 4 in {2, 3, 4, 8, 10};
    assert 8 in {2, 3, 4, 8, 10} && 10 in {2, 3, 4, 8, 10};
    assert 5 !in {8, 9, 10, 11} && 6 !in {8, 9, 10, 11} && 7 !in {8, 9, 10, 11};
    forall i | 0 <= i < |record|
      ensures r[i] == record[i]
    {
      if i >= FixedFields {
        assert i !in {8, 9, 10, 11};
        assert a.adviserParams[i - FixedFields] == ReadOrZero(read, record[i]);
      }
    }
  }

  // ---- file names ---------------------------------------------------------------

  /** `strings.ReplaceAll(name, "=", "_")`. */
  function Mangle(name: string): (r: string)
    ensures |r| == |name|
    ensures forall i :: 0 <= i < |name| ==> r[i] == (if name[i] == '=' then '_' else name[i])
  {
    if |name| == 0 then []
    else [if name[0] == '=' then '_' else name[0]] + Mangle(name[1..])
  }

  /** `getFilepath`: the repository's directory, the mangled name, ".csv". */
  function FilePath(dir: string, name: string): (p: string)
    ensures |p| == |dir| + |name| + 4
    ensures p[..|dir|] == dir && p[|dir| + |name|..] == ".csv"
    ensures '=' !in p[|dir|..|dir| + |name|]
  {
    dir + Mangle(name) + ".csv"
  }

  /** Mangling removes every '=', keeps every other character, and a second
      pass changes nothing. */
  lemma MangleMeaning(name: string)
    ensures '=' !in Mangle(name)
    ensures Mangle(Mangle(name)) == Mangle(name)
    ensures '=' !in name ==> Mangle(name) == name
  {
    assert forall i :: 0 <= i < |name| ==> Mangle(name)[i] != '=';
  }

  /** Two names that differ only in '=' against '_' share a file, so the runs
      behind them overwrite each other's advices. */
  lemma FilePathCollision(dir: string, a: string, b: string)
    requires |a| == |b|
    requires forall i :: 0 <= i < |a| ==> a[i] == b[i] || {a[i], b[i]} == {'=', '_'}
    ensures FilePath(dir, a) == FilePath(dir, b)
  {
    assert Mangle(a) == Mangle(b) by {
      forall i | 0 <= i < |a|
        ensures Mangle(a)[i] == Mangle(b)[i]
      {
        if a[i] != b[i] {
          assert a[i] in {a[i], b[i]} && b[i] in {a[i], b[i]};
        }
      }
    }
  }

  /** Names without an '=' keep distinct files. */
  lemma FilePathInjective(dir: string, a: string, b: string)
    requires '=' !in a && '=' !in b
    requires FilePath(dir, a) == FilePath(dir, b)
    ensures a == b
  {
    MangleMeaning(a);
    MangleMeaning(b);
    assert Mangle(a) == FilePath(dir, a)[|dir|..|dir| + |a|];
    assert Mangle(b) == FilePath(dir, b)[|dir|..|dir| + |b|];
  }
}
