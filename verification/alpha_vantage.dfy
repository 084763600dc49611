/** The pure helpers of the Alpha Vantage candle loader: the download slices,
    the interval name, the query URL built from a template by replacing one
    placeholder at a time, and the conversion of one CSV record into a
    candle. Time parsing and decimal parsing belong to libraries and are
    parameters here. */
module AlphaVantage {
  import opened Common
  import opened Strconv
  import opened Candlestick

  // ---- slices -------------------------------------------------------------

  /** How many years back the loader asks for, one slice per month. */
  const YearsBack: int := 2

  function SliceName(y: nat, m: nat): string {
    "year" + Itoa(y) + "month" + Itoa(m)
  }

  /** The inner loop: months m..12 of year y. */
  function MonthSlices(y: nat, m: nat): (r: seq<string>)
    requires 1 <= m <= 13
    ensures |r| == 13 - m
    ensures forall k :: 0 <= k < |r| ==> r[k] == SliceName(y, m + k)
    decreases 13 - m
  {
    if m > 12 then [] else [SliceName(y, m)] + MonthSlices(y, m + 1)
  }

  /** The outer loop: years y..YearsBack. */
  function YearSlices(y: nat): (r: seq<string>)
    requires 1 <= y <= YearsBack + 1
    ensures |r| == 12 * (YearsBack + 1 - y)
    decreases YearsBack + 1 - y
  {
    if y > YearsBack then [] else MonthSlices(y, 1) + YearSlices(y + 1)
  }

  /** `getAlphaVantageSlices`; the two times it is given are ignored. */
  function Slices(): (r: seq<string>)
    ensures |r| == 24
  {
    YearSlices(1)
  }

  /** The slice for month m of year y sits at index 12(y − 1) + (m − 1):
      years outer, months inner, both counted from one. */
  lemma SlicesOrder(y: nat, m: nat)
    requires 1 <= y <= YearsBack && 1 <= m <= 12
    ensures Slices()[12 * (y - 1) + (m - 1)] == SliceName(y, m)
  {
    YearSlicesAt(1, y, m);
  }

  lemma {:induction false} YearSlicesAt(from: nat, y: nat, m: nat)
    requires 1 <= from <= y <= YearsBack && 1 <= m <= 12
    ensures YearSlices(from)[12 * (y - from) + (m - 1)] == SliceName(y, m)
    decreases YearsBack - from
  {
    if y == from {
      FirstYearAt(from, m);
    } else {
      YearSlicesAt(from + 1, y, m);
      LaterYearAt(from, 12 * (y - from - 1) + (m - 1));
    }
  }

  /** The first twelve slices from year y are its months. */
  lemma FirstYearAt(y: nat, m: nat)
    requires 1 <= y <= YearsBack && 1 <= m <= 12
    ensures YearSlices(y)[m - 1] == SliceName(y, m)
  {
    var head := MonthSlices(y, 1);
    assert YearSlices(y) == head + YearSlices(y + 1);
    assert head[m - 1] == SliceName(y, m);
  }

  /** After them come the slices from the next year. */
  lemma LaterYearAt(y: nat, i: int)
    requires 1 <= y <= YearsBack && 0 <= i < |YearSlices(y + 1)|
    ensures YearSlices(y)[12 + i] == YearSlices(y + 1)[i]
  {
    var head := MonthSlices(y, 1);
    assert YearSlices(y) == head + YearSlices(y + 1);
  }

  /** No slice is requested twice. */
  lemma SlicesDistinct(i: int, j: int)
    requires 0 <= i < j < 24
    ensures Slices()[i] != Slices()[j]
  {
    var yi, mi := i / 12 + 1, i % 12 + 1;
    var yj, mj := j / 12 + 1, j % 12 + 1;
    SlicesOrder(yi, mi);
    SlicesOrder(yj, mj);
    SliceNameInjective(yi, mi, yj, mj);
  }

  /** For single-digit years the year is the fifth character and the month
      follows "month", so the name determines both. */
  lemma SliceNameInjective(y1: nat, m1: nat, y2: nat, m2: nat)
    requires 1 <= y1 <= 9 && 1 <= y2 <= 9
    requires (y1, m1) != (y2, m2)
    ensures SliceName(y1, m1) != SliceName(y2, m2)
  {
    var a, b := SliceName(y1, m1), SliceName(y2, m2);
    assert Itoa(y1) == [DigitChar(y1)] && Itoa(y2) == [DigitChar(y2)];
    assert a[4] == DigitChar(y1) && b[4] == DigitChar(y2);
    assert a[10..] == Itoa(m1) && b[10..] == Itoa(m2);
    if y1 == y2 {
      ItoaInjective(m1, m2);
    }
  }

  // ---- interval -------------------------------------------------------------

  /** `getAlphaVantageInterval`: only hourly candles have a name. */
  function IntervalName(interval: Interval): (r: string)
    ensures r == "60min" <==> interval == IntervalHour
    ensures r != "60min" ==> r == ""
  {
    if interval == IntervalHour then "60min" else ""
  }

  // ---- URL ------------------------------------------------------------------

  /** pat occurs in s at position i. */
  predicate MatchAt(s: string, pat: string, i: int) {
    0 <= i && i + |pat| <= |s| && s[i..i + |pat|] == pat
  }

  /** The first position at which pat occurs in s. */
  function IndexOf(s: string, pat: string): (r: Option<nat>)
    ensures r.Some? ==> MatchAt(s, pat, r.value)
    ensures r.Some? ==> forall i :: 0 <= i < r.value ==> !MatchAt(s, pat, i)
    ensures r.None? ==> forall i :: !MatchAt(s, pat, i)
    decreases |s|
  {
    if |s| < |pat| then None
    else if s[..|pat|] == pat then Some(0)
    else
      var rest := IndexOf(s[1..], pat);
      MatchAtTail(s, pat);
      match rest
      case None => None
      case Some(k) => Some(k + 1)
  }

  lemma MatchAtTail(s: string, pat: string)
    requires |s| > 0
    ensures forall i :: 1 <= i ==> (MatchAt(s, pat, i) <==> MatchAt(s[1..], pat, i - 1))
  {
    forall i | 1 <= i
      ensures MatchAt(s, pat, i) <==> MatchAt(s[1..], pat, i - 1)
    {
      if i + |pat| <= |s| {
        var t := s[1..];
        forall k | i <= k < i + |pat|
          ensures s[k] == t[k - 1]
        {
        }
        assert s[i..i + |pat|] == t[i - 1..i - 1 + |pat|];
      }
    }
  }

  function Shift(r: Option<nat>, n: nat): Option<nat> {
    match r
    case None => None
    case Some(i) => Some(i + n)
  }

  /** `strings.Replace(s, pat, rep, 1)`: the first occurrence only. */
  function ReplaceFirst(s: string, pat: string, rep: string): (r: string)
    ensures IndexOf(s, pat).None? ==> r == s
    ensures IndexOf(s, pat).Some? ==>
      var i := IndexOf(s, pat).value;
      r == s[..i] + rep + s[i + |pat|..]
  {
    Splice(s, IndexOf(s, pat), |pat|, rep)
  }

  /** s with the n characters from position o replaced by rep; s itself when
      there is no position. */
  function Splice(s: string, o: Option<nat>, n: nat, rep: string): string
    requires o.Some? ==> o.value + n <= |s|
  {
    match o
    case None => s
    case Some(i) => s[..i] + rep + s[i + n..]
  }

  /** A search that finds no match at the first position goes on from the
      second. */
  lemma IndexOfStep(s: string, pat: string)
    requires |s| > 0 && |pat| > 0
    requires |s| >= |pat| ==> s[..|pat|] != pat
    ensures IndexOf(s, pat) == Shift(IndexOf(s[1..], pat), 1)
  {
  }

  lemma ShiftShift(r: Option<nat>, a: nat, b: nat)
    ensures Shift(Shift(r, a), b) == Shift(r, a + b)
  {
  }

  /** A prefix free of the pattern's first character cannot hold a match. */
  lemma {:induction false} SkipPlain(a: string, b: string, pat: string)
    requires |pat| > 0 && pat[0] !in a
    ensures IndexOf(a + b, pat) == Shift(IndexOf(b, pat), |a|)
    decreases |a|
  {
    if |a| > 0 {
      var s := a + b;
      assert s[0] == a[0];
      if |s| >= |pat| {
        assert s[..|pat|][0] == a[0];
      }
      IndexOfStep(s, pat);
      assert s[1..] == a[1..] + b;
      SkipPlain(a[1..], b, pat);
      ShiftShift(IndexOf(b, pat), |a| - 1, 1);
    } else {
      assert a + b == b;
    }
  }

  lemma Here(pat: string, b: string)
    ensures IndexOf(pat + b, pat) == Some(0)
  {
    assert (pat + b)[..|pat|] == pat;
  }

  /** Another placeholder, which shares only its opening brace with the
      pattern, cannot hold a match either. */
  lemma SkipOther(other: string, b: string, pat: string)
    requires |other| >= 2 && |pat| >= 2
    requires other[0] == pat[0] && other[1] != pat[1] && pat[0] !in other[1..]
    ensures IndexOf(other + b, pat) == Shift(IndexOf(b, pat), |other|)
  {
    var s := other + b;
    if |s| >= |pat| {
      assert s[..|pat|][1] == other[1];
    }
    IndexOfStep(s, pat);
    assert s[1..] == other[1..] + b;
    SkipPlain(other[1..], b, pat);
    ShiftShift(IndexOf(b, pat), |other| - 1, 1);
  }

  /** A replacement whose match lies in the second part leaves the first alone. */
  lemma ReplaceUnder(p: string, q: string, pat: string, rep: string)
    requires IndexOf(p + q, pat) == Shift(IndexOf(q, pat), |p|)
    ensures ReplaceFirst(p + q, pat, rep) == p + ReplaceFirst(q, pat, rep)
  {
    SpliceUnder(p, q, IndexOf(q, pat), |pat|, rep);
  }

  /** Splicing p + q at a position of q is splicing q and putting p back. */
  lemma SpliceUnder(p: string, q: string, o: Option<nat>, n: nat, rep: string)
    requires o.Some? ==> o.value + n <= |q|
    ensures Splice(p + q, Shift(o, |p|), n, rep) == p + Splice(q, o, n, rep)
  {
    if o.Some? {
      Pieces(p, q, n, rep, o.value);
    }
  }

  /** Cutting p + q around a stretch of q is cutting q and putting p back. */
  lemma Pieces(p: string, q: string, n: nat, rep: string, j: nat)
    requires j + n <= |q|
    ensures (p + q)[..j + |p|] + rep + (p + q)[j + |p| + n..] == p + (q[..j] + rep + q[j + n..])
  {
    SplitConcat(p, q, j + |p|, j);
    SplitConcat(p, q, j + |p| + n, j + n);
    Assoc(p, q[..j], rep, q[j + n..]);
  }

  lemma Assoc(a: string, b: string, c: string, d: string)
    ensures (a + b) + c + d == a + (b + c + d)
  {
  }

  /** Position i of p + q is position j of q. */
  lemma SplitConcat(p: string, q: string, i: int, j: nat)
    requires j <= |q| && i == j + |p|
    ensures (p + q)[..i] == p + q[..j]
    ensures (p + q)[i..] == q[j..]
  {
  }

  /** Replacing a pattern the string starts with. */
  lemma ReplaceHere(pat: string, rest: string, rep: string)
    ensures ReplaceFirst(pat + rest, pat, rep) == rep + rest
  {
    Here(pat, rest);
    assert (pat + rest)[|pat|..] == rest;
  }

  /** Brace-free text is passed over by a placeholder's search. */
  lemma PassPlain(p: string, q: string, pat: string, rep: string)
    requires |pat| > 0 && pat[0] !in p
    ensures ReplaceFirst(p + q, pat, rep) == p + ReplaceFirst(q, pat, rep)
  {
    SkipPlain(p, q, pat);
    ReplaceUnder(p, q, pat, rep);
  }

  /** So is a placeholder that differs from the pattern in its second character. */
  lemma PassOther(p: string, q: string, pat: string, rep: string)
    requires |p| >= 2 && |pat| >= 2
    requires p[0] == pat[0] && p[1] != pat[1] && pat[0] !in p[1..]
    ensures ReplaceFirst(p + q, pat, rep) == p + ReplaceFirst(q, pat, rep)
  {
    SkipOther(p, q, pat);
    ReplaceUnder(p, q, pat, rep);
  }

  // The template, cut into pieces short enough to reason about.
  const Host: string := "https://www.alphavantage.co"
  const Query: string := "/query?function="
  const Series: string := "TIME_SERIES_INTRADAY_EXTENDED"
  const SymbolKey: string := "&symbol="
  const Base: string := Host + Query + Series + SymbolKey
  const IntervalKey: string := "&interval="
  const SliceKey: string := "&slice="
  const ApiKeyKey: string := "&apikey="
  const SymbolHole: string := "{symbol}"
  const IntervalHole: string := "{interval}"
  const SliceHole: string := "{slice}"
  const ApiKeyHole: string := "{apikey}"

  /** The template with its four placeholders. */
  const UrlTemplate: string :=
    Base + (SymbolHole + (IntervalKey + (IntervalHole + (SliceKey + (SliceHole + (ApiKeyKey + ApiKeyHole))))))

  lemma BaseHasNoBrace()
    ensures '{' !in Base
  {
    assert '{' !in Host;
    assert '{' !in Query;
    assert '{' !in Series;
    assert '{' !in SymbolKey;
  }

  /** `getAlphaVantageURL`: the API key is put in first, then the symbol, the
      interval and the slice, each replacing the first occurrence of its
      placeholder in what the previous replacements left. */
  function Url(symbol: string, interval: string, slice: string, apikey: string): (url: string)
    ensures |url| >= |Base| && url[..|Base|] == Base
  {
    BaseHasNoBrace();
    var tail := SymbolHole + (IntervalKey + (IntervalHole + (SliceKey + (SliceHole + (ApiKeyKey + ApiKeyHole)))));
    PassPlain(Base, tail, ApiKeyHole, apikey);
    var t1 := ReplaceFirst(tail, ApiKeyHole, apikey);
    PassPlain(Base, t1, SymbolHole, symbol);
    var t2 := ReplaceFirst(t1, SymbolHole, symbol);
    PassPlain(Base, t2, IntervalHole, interval);
    var t3 := ReplaceFirst(t2, IntervalHole, interval);
    PassPlain(Base, t3, SliceHole, slice);
    var withKey := ReplaceFirst(UrlTemplate, ApiKeyHole, apikey);
    var withSymbol := ReplaceFirst(withKey, SymbolHole, symbol);
    var withInterval := ReplaceFirst(withSymbol, IntervalHole, interval);
    ReplaceFirst(withInterval, SliceHole, slice)
  }

  /** The API key goes to the end of a template of this shape: every
      placeholder before its own opens with a brace but differs from it in the
      second character, and the keys between them are brace-free. */
  lemma FillKey(base: string, ik: string, sk: string, ak: string,
                sh: string, ih: string, slh: string, ah: string, apikey: string)
    requires '{' !in base && '{' !in ik && '{' !in sk && '{' !in ak
    requires |sh| >= 2 && |ih| >= 2 && |slh| >= 2 && |ah| >= 2
    requires sh[0] == '{' && ih[0] == '{' && slh[0] == '{' && ah[0] == '{'
    requires '{' !in sh[1..] && '{' !in ih[1..] && '{' !in slh[1..]
    requires sh[1] != ah[1] && ih[1] != ah[1] && slh[1] != ah[1]
    ensures ReplaceFirst(base + (sh + (ik + (ih + (sk + (slh + (ak + ah)))))), ah, apikey)
      == base + (sh + (ik + (ih + (sk + (slh + (ak + apikey))))))
  {
    ReplaceHere(ah, [], apikey);
    assert ah + [] == ah && apikey + [] == apikey;
    var t3 := ak + ah;
    var t2 := sk + (slh + t3);
    var t1 := ik + (ih + t2);
    PassPlain(ak, ah, ah, apikey);
    PassOther(slh, t3, ah, apikey);
    PassPlain(sk, slh + t3, ah, apikey);
    PassOther(ih, t2, ah, apikey);
    PassPlain(ik, ih + t2, ah, apikey);
    PassOther(sh, t1, ah, apikey);
    PassPlain(base, sh + t1, ah, apikey);
  }

  /** Then symbol, interval and slice, each into the first placeholder left. */
  lemma FillRest(base: string, ik: string, sk: string, ak: string, sh: string, ih: string, slh: string,
                 symbol: string, interval: string, slice: string, apikey: string)
    requires '{' !in base && '{' !in ik && '{' !in sk && '{' !in symbol && '{' !in interval
    requires |sh| > 0 && |ih| > 0 && |slh| > 0
    requires sh[0] == '{' && ih[0] == '{' && slh[0] == '{'
    ensures var withSymbol := ReplaceFirst(base + (sh + (ik + (ih + (sk + (slh + (ak + apikey)))))), sh, symbol);
      var withInterval := ReplaceFirst(withSymbol, ih, interval);
      ReplaceFirst(withInterval, slh, slice)
        == base + (symbol + (ik + (interval + (sk + (slice + (ak + apikey))))))
  {
    var r3 := ak + apikey;
    var r2 := sk + (slh + r3);
    var r1 := ik + (ih + r2);
    ReplaceHere(sh, r1, symbol);
    PassPlain(base, sh + r1, sh, symbol);
    ReplaceHere(ih, r2, interval);
    PassPlain(ik, ih + r2, ih, interval);
    PassPlain(symbol, ik + (ih + r2), ih, interval);
    PassPlain(base, symbol + (ik + (ih + r2)), ih, interval);
    var s3 := sk + (slh + r3);
    ReplaceHere(slh, r3, slice);
    PassPlain(sk, slh + r3, slh, slice);
    PassPlain(interval, s3, slh, slice);
    PassPlain(ik, interval + s3, slh, slice);
    PassPlain(symbol, ik + (interval + s3), slh, slice);
    PassPlain(base, symbol + (ik + (interval + s3)), slh, slice);
  }

  /** As long as the symbol and the interval hold no opening brace (so no
      later placeholder can be found inside them), each value lands in its
      own query parameter. */
  lemma UrlLayout(symbol: string, interval: string, slice: string, apikey: string)
    requires '{' !in symbol && '{' !in interval
    ensures Url(symbol, interval, slice, apikey)
      == Base + (symbol + (IntervalKey + (interval + (SliceKey + (slice + (ApiKeyKey + apikey))))))
  {
    BaseHasNoBrace();
    assert '{' !in IntervalKey && '{' !in SliceKey && '{' !in ApiKeyKey;
    assert '{' !in SymbolHole[1..] && '{' !in IntervalHole[1..] && '{' !in SliceHole[1..];
    FillKey(Base, IntervalKey, SliceKey, ApiKeyKey, SymbolHole, IntervalHole, SliceHole, ApiKeyHole, apikey);
    FillRest(Base, IntervalKey, SliceKey, ApiKeyKey, SymbolHole, IntervalHole, SliceHole, symbol, interval, slice, apikey);
  }

  // ---- records --------------------------------------------------------------

  /** The record fields in the order they are converted. */
  datatype Field = Date | Open | High | Low | Close | VolumeField

  function FieldIndex(f: Field): nat {
    match f
    case Date => 0
    case Open => 1
    case High => 2
    case Low => 3
    case Close => 4
    case VolumeField => 5
  }

  /** The converted candle with the error of the first field that failed, if
      any; reading past the end of the record panics. */
  datatype Conversion = Converted(candle: Candle, failed: Option<Field>) | Panicked

  /** Parses a "2006-01-02 15:04:05" timestamp into Unix seconds. */
  type TimeParser = string -> Option<int>
  type Read = string -> Option<real>

  /** Field k of the record converts with its own parser. */
  predicate FieldParses(record: seq<string>, k: nat, parseTime: TimeParser, read: Read)
    requires k < |record| && k < 6
  {
    if k == 0 then parseTime(record[0]).Some?
    else if k == 5 then Atoi(record[5]).Some?
    else read(record[k]).Some?
  }

  /** Fields 0..k−1 exist and convert. */
  predicate PrefixParses(record: seq<string>, k: nat, parseTime: TimeParser, read: Read)
    requires k <= 6
  {
    k <= |record| && forall i :: 0 <= i < k ==> FieldParses(record, i, parseTime, read)
  }

  /** The fields the conversion has not reached still hold their zero values:
      those from index `from` on. */
  predicate ZeroFrom(c: Candle, from: nat) {
    && (from <= 0 ==> c.timestamp == ZeroTime)
    && (from <= 1 ==> c.open == 0.0)
    && (from <= 2 ==> c.high == 0.0)
    && (from <= 3 ==> c.low == 0.0)
    && (from <= 4 ==> c.close == 0.0)
    && (from <= 5 ==> c.volume == 0)
  }

  function Value<T>(o: Option<T>, zero: T): T {
    match o
    case Some(v) => v
    case None => zero
  }

  /** `alphaVantageCSVRecordToCandlestick`: interval, quote and a zero
      adjusted close are set first; then timestamp, open, high, low, close and
      volume are converted from fields 0..5, stopping at the first failure
      with the candle as filled so far. */
  function RecordToCandle(record: seq<string>, quoteId: int, interval: Interval, parseTime: TimeParser, read: Read): (r: Conversion)
    ensures r.Panicked? <==> |record| < 6 && PrefixParses(record, |record|, parseTime, read)
    ensures r.Converted? ==> r.candle.interval == interval && r.candle.quoteId == quoteId && r.candle.adjClose == 0.0
    ensures r.Converted? && r.failed.Some? ==>
      var k := FieldIndex(r.failed.value);
      && PrefixParses(record, k, parseTime, read) && k < |record|
      && !FieldParses(record, k, parseTime, read)
      && ZeroFrom(r.candle, k)
    ensures (r.Converted? && r.failed.None?) <==> PrefixParses(record, 6, parseTime, read)
  {
    var c := Candle(0.0, 0.0, 0.0, 0.0, 0.0, 0, ZeroTime, interval, quoteId);
    if |record| < 1 then Panicked
    else if parseTime(record[0]).None? then
      assert !FieldParses(record, 0, parseTime, read);
      Converted(c, Some(Date))
    else
      var c := c.(timestamp := parseTime(record[0]).value);
      if |record| < 2 then Panicked
      else if read(record[1]).None? then
          assert !FieldParses(record, 1, parseTime, read);
          Converted(c, Some(Open))
      else
        var c := c.(open := read(record[1]).value);
        if |record| < 3 then Panicked
        else if read(record[2]).None? then
          assert !FieldParses(record, 2, parseTime, read);
          Converted(c, Some(High))
        else
          var c := c.(high := read(record[2]).value);
          if |record| < 4 then Panicked
          else if read(record[3]).None? then
          assert !FieldParses(record, 3, parseTime, read);
          Converted(c, Some(Low))
          else
            var c := c.(low := read(record[3]).value);
            if |record| < 5 then Panicked
            else if read(record[4]).None? then
          assert !FieldParses(record, 4, parseTime, read);
          Converted(c, Some(Close))
            else
              var c := c.(close := read(record[4]).value);
              if |record| < 6 then Panicked
              else if Atoi(record[5]).None? then
                assert !FieldParses(record, 5, parseTime, read);
                Converted(c, Some(VolumeField))
              else Converted(c.(volume := Atoi(record[5]).value), None)
  }

  /** A fully converted record: field 0 is the timestamp, 1 the open, 2 the
      high, 3 the low, 4 the close and 5 the volume. */
  lemma FieldsMap(record: seq<string>, quoteId: int, interval: Interval, parseTime: TimeParser, read: Read)
    requires |record| >= 6 && parseTime(record[0]).Some? && Atoi(record[5]).Some?
    requires read(record[1]).Some? && read(record[2]).Some? && read(record[3]).Some? && read(record[4]).Some?
    ensures RecordToCandle(record, quoteId, interval, parseTime, read)
      == Converted(Candle(read(record[1]).value, read(record[3]).value, read(record[2]).value,
                          read(record[4]).value, 0.0, Atoi(record[5]).value,
                          parseTime(record[0]).value, interval, quoteId), None)
  {
  }

  /** The record a candle would be written as, in the loader's field order. */
  function CandleToRecord(c: Candle, showTime: int -> string, show: real -> string): (r: seq<string>)
    ensures |r| == 6
  {
    [showTime(c.timestamp), show(c.open), show(c.high), show(c.low), show(c.close), Itoa(c.volume)]
  }

  /** Converting such a record gives the candle back, given that time and
      decimal parsing invert their renderings, and that the candle carries the
      loader's interval and quote and a zero adjusted close. */
  lemma RecordRoundTrip(c: Candle, showTime: int -> string, parseTime: TimeParser, show: real -> string, read: Read)
    requires forall t :: parseTime(showTime(t)) == Some(t)
    requires forall x :: read(show(x)) == Some(x)
    requires c.adjClose == 0.0
    ensures RecordToCandle(CandleToRecord(c, showTime, show), c.quoteId, c.interval, parseTime, read) == Converted(c, None)
  {
    var r := CandleToRecord(c, showTime, show);
    AtoiItoa(c.volume);
    assert parseTime(r[0]) == Some(c.timestamp);
    assert read(r[1]) == Some(c.open) && read(r[2]) == Some(c.high);
    assert read(r[3]) == Some(c.low) && read(r[4]) == Some(c.close);
    assert Atoi(r[5]) == Some(c.volume);
    FieldsMap(r, c.quoteId, c.interval, parseTime, read);
  }
}
