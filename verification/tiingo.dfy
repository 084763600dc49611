/** The request path the Tiingo client asks for hourly IEX prices with: the
    ticker, a fixed column list, the two dates in the "2006-01-02" layout and
    the resampling frequency, in this order. */
module Tiingo {
  import opened Common
  import opened Strconv

  /** The only resampling frequency the client uses. */
  const ResampleFreqHour: string := "1hour"

  /** A `time.Time` as its calendar fields in its own location. */
  datatype DateTime = DateTime(year: int, month: nat, day: nat, hour: nat, minute: nat, second: nat)

  datatype PricesRequest = PricesRequest(ticker: string, startDate: DateTime, endDate: DateTime, resampleFreq: string)

  /** A date a `time.Time` can hold, with a year of at most four digits. */
  predicate ValidDate(t: DateTime) {
    0 <= t.year <= 9999 && 1 <= t.month <= 12 && 1 <= t.day <= 31
  }

  predicate SameDate(a: DateTime, b: DateTime) {
    a.year == b.year && a.month == b.month && a.day == b.day
  }

  /** The year as the "2006" layout element writes it: at least four digits,
      after a minus sign for years before year zero. */
  function YearString(y: int): string {
    if y < 0 then "-" + Pad(-y, 4) else Pad(y, 4)
  }

  /** `t.Format("2006-01-02")`: the time of day is not written. At least
      ten characters, each a digit or a dash. */
  function FormatDate(t: DateTime): (s: string)
    ensures |s| >= 10
    ensures forall i :: 0 <= i < |s| ==> IsDigit(s[i]) || s[i] == '-'
  {
    var y := YearString(t.year);
    assert |y| >= 4 && forall i :: 0 <= i < |y| ==> IsDigit(y[i]) || y[i] == '-';
    y + "-" + Pad(t.month, 2) + "-" + Pad(t.day, 2)
  }

  function Pow10(k: nat): (p: nat)
    ensures p >= 1
  {
    if k == 0 then 1 else 10 * Pow10(k - 1)
  }

  /** A number below 10^w has at most w digits. */
  lemma {:induction false} DigitsAtMost(n: nat, w: nat)
    requires w >= 1 && n < Pow10(w)
    ensures |NatDigits(n)| <= w
    decreases w
  {
    if n >= 10 {
      assert Pow10(w) == 10 * Pow10(w - 1);
      DigitsAtMost(n / 10, w - 1);
    }
  }

  /** The date reads back from its rendering: digits 0..3 are the year,
      5..6 the month and 8..9 the day. */
  lemma FormatDateParse(t: DateTime)
    requires ValidDate(t)
    ensures |FormatDate(t)| == 10 && FormatDate(t)[4] == '-' && FormatDate(t)[7] == '-'
    ensures var r := FormatDate(t);
      && ParseNat(r[..4]) == Some(t.year)
      && ParseNat(r[5..7]) == Some(t.month)
      && ParseNat(r[8..]) == Some(t.day)
  {
    var r := FormatDate(t);
    DigitsAtMost(t.year, 4);
    DigitsAtMost(t.month, 2);
    DigitsAtMost(t.day, 2);
    PadValue(t.year, 4);
    PadValue(t.month, 2);
    PadValue(t.day, 2);
    assert r[..4] == Pad(t.year, 4);
    assert r[5..7] == Pad(t.month, 2);
    assert r[8..] == Pad(t.day, 2);
  }

  /** Two valid dates render alike exactly when they fall on the same day,
      whatever their times of day. */
  lemma FormatDateInjective(a: DateTime, b: DateTime)
    requires ValidDate(a) && ValidDate(b)
    ensures FormatDate(a) == FormatDate(b) <==> SameDate(a, b)
    ensures |FormatDate(a)| == |FormatDate(b)| == 10
  {
    FormatDateParse(a);
    FormatDateParse(b);
  }

  // The pieces of the path.
  const Prefix: string := "/iex/"
  const PricesPart: string := "/prices"
  const Columns: string := "?columns=open,high,low,close,volume"
  const StartKey: string := "&startDate="
  const EndKey: string := "&endDate="
  const FreqKey: string := "&resampleFreq="

  /** Everything after the ticker. */
  function Query(r: PricesRequest): string {
    PricesPart + (Columns + (StartKey + (FormatDate(r.startDate) + (EndKey + (FormatDate(r.endDate) + (FreqKey + r.resampleFreq))))))
  }

  /** `GetPath`: "/iex/", the ticker verbatim and "/prices" lead the path. */
  function GetPath(r: PricesRequest): (path: string)
    ensures |path| >= |Prefix| + |r.ticker| + |PricesPart|
    ensures path[..|Prefix| + |r.ticker| + |PricesPart|] == Prefix + r.ticker + PricesPart
  {
    var rest := Columns + (StartKey + (FormatDate(r.startDate) + (EndKey + (FormatDate(r.endDate) + (FreqKey + r.resampleFreq)))));
    Lead(Prefix, r.ticker, PricesPart, rest);
    Prefix + (r.ticker + Query(r))
  }

  lemma Lead(a: string, b: string, c: string, d: string)
    ensures (a + (b + (c + d)))[..|a| + |b| + |c|] == a + b + c
  {
  }

  /** A path determines the request it was built from, up to the times of
      day, as long as tickers hold no '/'; and requests that differ only in
      the times of day share a path. */
  lemma PathDeterminesRequest(a: PricesRequest, b: PricesRequest)
    requires '/' !in a.ticker && '/' !in b.ticker
    requires ValidDate(a.startDate) && ValidDate(a.endDate) && ValidDate(b.startDate) && ValidDate(b.endDate)
    ensures GetPath(a) == GetPath(b) <==>
      && a.ticker == b.ticker
      && SameDate(a.startDate, b.startDate) && SameDate(a.endDate, b.endDate)
      && a.resampleFreq == b.resampleFreq
  {
    FormatDateInjective(a.startDate, b.startDate);
    FormatDateInjective(a.endDate, b.endDate);
    if GetPath(a) == GetPath(b) {
      Cancel(Prefix, a.ticker + Query(a), b.ticker + Query(b));
      SplitAtSlash(a.ticker, Query(a), b.ticker, Query(b));
      var da, db := FormatDate(a.startDate), FormatDate(b.startDate);
      var ea, eb := FormatDate(a.endDate), FormatDate(b.endDate);
      var ka := EndKey + (ea + (FreqKey + a.resampleFreq));
      var kb := EndKey + (eb + (FreqKey + b.resampleFreq));
      Cancel(PricesPart, Columns + (StartKey + (da + ka)), Columns + (StartKey + (db + kb)));
      Cancel(Columns, StartKey + (da + ka), StartKey + (db + kb));
      Cancel(StartKey, da + ka, db + kb);
      Split(da, ka, db, kb);
      Cancel(EndKey, ea + (FreqKey + a.resampleFreq), eb + (FreqKey + b.resampleFreq));
      Split(ea, FreqKey + a.resampleFreq, eb, FreqKey + b.resampleFreq);
      Cancel(FreqKey, a.resampleFreq, b.resampleFreq);
    }
  }

  lemma Cancel(k: string, x: string, y: string)
    requires k + x == k + y
    ensures x == y
  {
    assert x == (k + x)[|k|..];
    assert y == (k + y)[|k|..];
  }

  lemma Split(d1: string, x: string, d2: string, y: string)
    requires |d1| == |d2| && d1 + x == d2 + y
    ensures d1 == d2 && x == y
  {
    assert d1 == (d1 + x)[..|d1|] && d2 == (d2 + y)[..|d2|];
    assert x == (d1 + x)[|d1|..] && y == (d2 + y)[|d2|..];
  }

  /** A slash-free ticker ends where the text after it starts with '/'. */
  lemma SplitAtSlash(t1: string, q1: string, t2: string, q2: string)
    requires '/' !in t1 && '/' !in t2
    requires |q1| > 0 && |q2| > 0 && q1[0] == '/' && q2[0] == '/'
    requires t1 + q1 == t2 + q2
    ensures t1 == t2 && q1 == q2
  {
    SeparatorAt(t1, q1, t2, q2);
    SeparatorAt(t2, q2, t1, q1);
    if |t1| != |t2| {
      assert false;
    }
    Split(t1, q1, t2, q2);
  }

  /** Were t1 shorter, the separator opening q1 would be a character of t2. */
  lemma SeparatorAt(t1: string, q1: string, t2: string, q2: string)
    ensures |t1| < |t2| && |q1| > 0 && t1 + q1 == t2 + q2 ==> q1[0] in t2
  {
    if |t1| < |t2| && |q1| > 0 && t1 + q1 == t2 + q2 {
      assert (t1 + q1)[|t1|] == q1[0];
      assert (t2 + q2)[|t1|] == t2[|t1|];
    }
  }
}
