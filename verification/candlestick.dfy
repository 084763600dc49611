/** A candlestick of the quote history and the interval it spans. Decimal
    prices are exact reals and the timestamp is Unix seconds; the zone it is
    read in is a separate `Zone`. */
module Candlestick {
  import opened Common

  type Interval = string

  const IntervalMinute: Interval := "1m"
  const IntervalHour: Interval := "1h"
  const IntervalDay: Interval := "1d"
  const IntervalMonth: Interval := "1mo"

  datatype Candle = Candle(
    open: real,
    low: real,
    high: real,
    close: real,
    adjClose: real,
    volume: int,
    timestamp: int,
    interval: Interval,
    quoteId: int)

  /** Seconds per hour; every window in the advisers is a whole number of hours. */
  const Hour: int := 3600

  /** Unix time of Go's zero `time.Time` (January 1 of year 1, UTC). */
  const ZeroTime: int := -62135596800

  /** The zero value of the candle struct. */
  const ZeroCandle: Candle := Candle(0.0, 0.0, 0.0, 0.0, 0.0, 0, ZeroTime, "", 0)

  /** A time zone as a `time.Location` applies it: the offset from UTC, in
      seconds, in force at each Unix instant (daylight saving may change it). */
  type Zone = int -> int

  /** The zone with no offset. */
  const UTC: Zone := ts => 0

  /** Seconds since local midnight of the instant ts read in the zone. */
  function TimeOfDay(zone: Zone, ts: int): (s: int)
    ensures 0 <= s < 86400
  {
    (ts + zone(ts)) % 86400
  }

  /** Hour of day of the instant ts read in the zone, as `Time.Hour` gives it:
      the local time of day lies within that hour. */
  function HourOfDay(zone: Zone, ts: int): (h: int)
    ensures 0 <= h < 24
    ensures h * Hour <= TimeOfDay(zone, ts) < (h + 1) * Hour
  {
    TimeOfDay(zone, ts) / Hour
  }

  /** A zone whose offset is a whole number o of hours moves the UTC hour
      forward by o, modulo a day. */
  lemma HourOfDayShift(zone: Zone, ts: int, o: int)
    requires zone(ts) == o * Hour
    ensures HourOfDay(zone, ts) == (HourOfDay(UTC, ts) + o) % 24
  {
    var u := ts % 86400;
    var uh := u / Hour;
    var a := ts / 86400;
    assert ts == a * 86400 + uh * Hour + u % Hour;
    var k := (uh + o) % 24;
    var b := (uh + o) / 24;
    assert uh + o == b * 24 + k;
    assert ts + o * Hour == (a + b) * 86400 + k * Hour + u % Hour;
    assert 0 <= k * Hour + u % Hour < 86400;
    assert TimeOfDay(zone, ts) == k * Hour + u % Hour;
  }

  predicate IsKnownInterval(r: Interval) {
    r == IntervalMinute || r == IntervalHour || r == IntervalDay || r == IntervalMonth
  }

  /** The length of an interval in minutes; unknown intervals have length 0. */
  function Minutes(r: Interval): (m: int)
    ensures m > 0 <==> IsKnownInterval(r)
    ensures !IsKnownInterval(r) ==> m == 0
  {
    if r == IntervalMinute then 1
    else if r == IntervalHour then 60
    else if r == IntervalDay then 60 * 24
    else if r == IntervalMonth then 60 * 24 * 30
    else 0
  }

  /** The interval of a given length, if one of the known intervals has it. */
  function IntervalOfMinutes(m: int): (r: Option<Interval>)
    ensures r.Some? ==> IsKnownInterval(r.value) && Minutes(r.value) == m
    ensures forall k :: IsKnownInterval(k) && Minutes(k) == m ==> r == Some(k)
  {
    if m == 1 then Some(IntervalMinute)
    else if m == 60 then Some(IntervalHour)
    else if m == 60 * 24 then Some(IntervalDay)
    else if m == 60 * 24 * 30 then Some(IntervalMonth)
    else None
  }

  /** The known intervals are strictly ordered by length and nest exactly:
      an hour is 60 minutes, a day 24 hours, a month 30 days. */
  lemma MinutesOrdered()
    ensures Minutes(IntervalMinute) == 1
    ensures Minutes(IntervalHour) == 60 * Minutes(IntervalMinute)
    ensures Minutes(IntervalDay) == 24 * Minutes(IntervalHour)
    ensures Minutes(IntervalMonth) == 30 * Minutes(IntervalDay)
    ensures Minutes(IntervalMinute) < Minutes(IntervalHour) < Minutes(IntervalDay) < Minutes(IntervalMonth)
  {
  }

  /** Which way a count-based query walks from its start time. */
  type GetterDirection = string

  const DirectionForward: GetterDirection := "forward"
  const DirectionBackward: GetterDirection := "backward"

  /** A repository range query: (symbol, interval, from, to) in Unix seconds. */
  type RangeQuery = (string, Interval, int, int) -> Result<seq<Candle>>

  /** A repository count query: (symbol, interval, start, direction, count). */
  type CountQuery = (string, Interval, int, GetterDirection, int) -> Result<seq<Candle>>
}
