/** `ProductTimeStamp`: a UTC instant, here an integer count of nanoseconds
    since 1970-01-01T00:00:00Z, with the derived equality and ordering and an
    RFC 3339 (section 5.6) `Display` truncated to milliseconds. */
module Timestamp {
  import opened Wrappers
  import opened Decimal

  type Instant = int

  datatype ProductTimeStamp = ProductTimeStamp(instant: Instant)

  /** `From<DateTime<Utc>>`. */
  function From(t: Instant): ProductTimeStamp {
    ProductTimeStamp(t)
  }

  /** `Default`: the clock reading is an input. */
  function Default(now: Instant): ProductTimeStamp {
    ProductTimeStamp(now)
  }

  function ToPrimitive(ts: ProductTimeStamp): Instant {
    ts.instant
  }

  /** The derived `PartialOrd`: `a > b`. */
  predicate After(a: ProductTimeStamp, b: ProductTimeStamp) {
    a.instant > b.instant
  }

  /** Wrapping loses nothing; equality and order are those of the instants. */
  lemma WrapperIsTransparent(t: Instant, u: Instant)
    ensures ToPrimitive(From(t)) == t
    ensures From(t) == From(u) <==> t == u
    ensures After(From(t), From(u)) <==> t > u
    ensures !After(From(t), From(u)) && !After(From(u), From(t)) ==> From(t) == From(u)
  {
  }

  // ---- Proleptic Gregorian calendar ----

  const NanosPerMilli: int := 1_000_000
  const MillisPerDay: int := 86_400_000

  predicate IsLeap(y: int) {
    y % 4 == 0 && (y % 100 != 0 || y % 400 == 0)
  }

  function DaysInYear(y: int): int {
    if IsLeap(y) then 366 else 365
  }

  function DaysInMonth(y: int, m: int): int
    requires 1 <= m <= 12
  {
    if m == 2 then (if IsLeap(y) then 29 else 28)
    else if m == 4 || m == 6 || m == 9 || m == 11 then 30
    else 31
  }

  /** Days from 1 January of `y` to the first day of month `m`. */
  function MonthStart(y: int, m: int): int
    requires 1 <= m <= 12
  {
    [0, 31, 59, 90, 120, 151, 181, 212, 243, 273, 304, 334][m - 1]
    + (if m > 2 && IsLeap(y) then 1 else 0)
  }

  lemma MonthStartStep(y: int, m: int)
    requires 1 <= m < 12
    ensures MonthStart(y, m + 1) == MonthStart(y, m) + DaysInMonth(y, m)
    ensures MonthStart(y, 12) + DaysInMonth(y, 12) == DaysInYear(y)
  {
  }

  /** Day number (since 1970-01-01) of 1 January of `y`. */
  function YearStart(y: int): int
    decreases if y >= 1970 then y - 1970 else 1970 - y
  {
    if y == 1970 then 0
    else if y > 1970 then YearStart(y - 1) + DaysInYear(y - 1)
    else YearStart(y + 1) - DaysInYear(y)
  }

  lemma YearStartStep(y: int)
    ensures YearStart(y + 1) == YearStart(y) + DaysInYear(y)
  {
  }

  /** The year holding day `YearStart(y) + d`, and that day's offset in it. */
  function FindYear(y: int, d: int): (r: (int, int))
    ensures 0 <= r.1 < DaysInYear(r.0)
    ensures YearStart(r.0) + r.1 == YearStart(y) + d
    decreases if d < 0 then 400 - d else d
  {
    if d < 0 then
      YearStartStep(y - 1);
      FindYear(y - 1, d + DaysInYear(y - 1))
    else if d >= DaysInYear(y) then
      YearStartStep(y);
      FindYear(y + 1, d - DaysInYear(y))
    else
      (y, d)
  }

  /** The month of `y` holding day `MonthStart(y, m) + d`, and the day's
      offset in it. */
  function FindMonth(y: int, m: int, d: int): (r: (int, int))
    requires 1 <= m <= 12
    requires 0 <= d < DaysInYear(y) - MonthStart(y, m)
    ensures 1 <= r.0 <= 12 && 0 <= r.1 < DaysInMonth(y, r.0)
    ensures MonthStart(y, r.0) + r.1 == MonthStart(y, m) + d
    decreases 12 - m
  {
    if m == 12 || d < DaysInMonth(y, m) then
      (m, d)
    else
      MonthStartStep(y, m);
      FindMonth(y, m + 1, d - DaysInMonth(y, m))
  }

  /** A UTC calendar reading truncated to milliseconds. */
  datatype DateTime = DateTime(year: int, month: int, day: int, hour: int, minute: int, second: int, milli: int)

  predicate ValidDateTime(dt: DateTime) {
    && 1 <= dt.month <= 12
    && 1 <= dt.day <= DaysInMonth(dt.year, dt.month)
    && 0 <= dt.hour < 24 && 0 <= dt.minute < 60 && 0 <= dt.second < 60 && 0 <= dt.milli < 1000
  }

  /** The millisecond instant a calendar reading names. */
  function Compose(dt: DateTime): int
    requires 1 <= dt.month <= 12
  {
    (YearStart(dt.year) + MonthStart(dt.year, dt.month) + dt.day - 1) * MillisPerDay
    + dt.hour * 3_600_000 + dt.minute * 60_000 + dt.second * 1000 + dt.milli
  }

  /** Hours, minutes, seconds and milliseconds of a millisecond of the day. */
  function SplitDay(x: int): (r: (int, int, int, int))
    requires 0 <= x < MillisPerDay
    ensures 0 <= r.0 < 24 && 0 <= r.1 < 60 && 0 <= r.2 < 60 && 0 <= r.3 < 1000
    ensures r.0 * 3_600_000 + r.1 * 60_000 + r.2 * 1000 + r.3 == x
  {
    var inHour := x % 3_600_000;
    var inMinute := inHour % 60_000;
    (x / 3_600_000, inHour / 60_000, inMinute / 1000, inMinute % 1000)
  }

  /** The calendar reading of an instant: the valid reading that names the
      instant's millisecond (sub-millisecond digits are dropped). */
  function ToDateTime(t: Instant): (dt: DateTime)
    ensures ValidDateTime(dt)
    ensures Compose(dt) == t / NanosPerMilli
  {
    var ms := t / NanosPerMilli;
    var days := ms / MillisPerDay;
    var msOfDay := ms % MillisPerDay;
    assert ms == days * MillisPerDay + msOfDay;
    var (y, doy) := FindYear(1970, days);
    var (m, dom) := FindMonth(y, 1, doy);
    var (h, mi, sec, milli) := SplitDay(msOfDay);
    DateTime(y, m, dom + 1, h, mi, sec, milli)
  }

  // ---- RFC 3339 text ----

  /** chrono writes years 0..9999 as four digits and any other year with a
      sign and at least four digits (`{:+05}`). */
  function YearText(y: int): string {
    if 0 <= y <= 9999 then PadDigits(y, 4)
    else
      var sign := if y < 0 then "-" else "+";
      var a := if y < 0 then -y else y;
      sign + (if a < 10000 then PadDigits(a, 4) else NatToDigits(a))
  }

  function DateText(dt: DateTime): string
    requires ValidDateTime(dt)
  {
    YearText(dt.year) + "-" + PadDigits(dt.month, 2) + "-" + PadDigits(dt.day, 2)
  }

  function TimeText(dt: DateTime): (s: string)
    requires ValidDateTime(dt)
    ensures |s| == 12
  {
    PadDigits(dt.hour, 2) + ":" + PadDigits(dt.minute, 2) + ":" + PadDigits(dt.second, 2)
    + "." + PadDigits(dt.milli, 3)
  }

  const Offset: string := "+00:00"

  /** `Display`: `to_rfc3339_opts(SecondsFormat::Millis, false)`. */
  function Display(ts: ProductTimeStamp): string {
    var dt := ToDateTime(ts.instant);
    DateText(dt) + "T" + TimeText(dt) + Offset
  }

  /** Reads the time-of-day part `hh:mm:ss.mmm`. */
  function ParseTime(s: string): Option<(int, int, int, int)> {
    if |s| == 12 && s[2] == ':' && s[5] == ':' && s[8] == '.'
       && AllDigits(s[..2]) && AllDigits(s[3..5]) && AllDigits(s[6..8]) && AllDigits(s[9..]) then
      Some((ParseDigits(s[..2]), ParseDigits(s[3..5]), ParseDigits(s[6..8]), ParseDigits(s[9..])))
    else
      None
  }

  /** Reads a four-digit-year text back into the millisecond instant it names. */
  function ParseDisplay(s: string): Option<int> {
    if |s| == 29 && AllDigits(s[..4]) && s[4] == '-' && AllDigits(s[5..7]) && s[7] == '-'
       && AllDigits(s[8..10]) && s[10] == 'T' && s[23..] == Offset then
      var year := ParseDigits(s[..4]);
      var month := ParseDigits(s[5..7]);
      var day := ParseDigits(s[8..10]);
      var time :- ParseTime(s[11..23]);
      if 1 <= month <= 12 then
        Some(Compose(DateTime(year, month, day, time.0, time.1, time.2, time.3)))
      else
        None
    else
      None
  }

  lemma ParseTimeText(dt: DateTime)
    requires ValidDateTime(dt)
    ensures ParseTime(TimeText(dt)) == Some((dt.hour, dt.minute, dt.second, dt.milli))
  {
    var s := TimeText(dt);
    assert s[..2] == PadDigits(dt.hour, 2);
    assert s[3..5] == PadDigits(dt.minute, 2);
    assert s[6..8] == PadDigits(dt.second, 2);
    assert s[9..] == PadDigits(dt.milli, 3);
    ParsePadDigits(dt.hour, 2);
    ParsePadDigits(dt.minute, 2);
    ParsePadDigits(dt.second, 2);
    ParsePadDigits(dt.milli, 3);
  }

  /** For years 0..9999 the text is the 29-character layout
      `YYYY-MM-DDTHH:MM:SS.mmm+00:00`: exactly three fractional digits and a
      numeric zero offset, never `Z`. */
  lemma DisplayLayout(ts: ProductTimeStamp)
    requires 0 <= ToDateTime(ts.instant).year <= 9999
    ensures |Display(ts)| == 29
    ensures Display(ts)[4] == '-' && Display(ts)[7] == '-' && Display(ts)[10] == 'T'
    ensures Display(ts)[13] == ':' && Display(ts)[16] == ':' && Display(ts)[19] == '.'
    ensures AllDigits(Display(ts)[20..23])
    ensures Display(ts)[23..] == "+00:00"
  {
    var dt := ToDateTime(ts.instant);
    var s := Display(ts);
    var t := TimeText(dt);
    assert s[11..23] == t;
    assert s[20..23] == t[9..];
  }

  /** A four-digit-year reading is read back from its text. */
  lemma ParseDateTimeText(dt: DateTime)
    requires ValidDateTime(dt) && 0 <= dt.year <= 9999
    ensures ParseDisplay(DateText(dt) + "T" + TimeText(dt) + Offset) == Some(Compose(dt))
  {
    var s := DateText(dt) + "T" + TimeText(dt) + Offset;
    var t := TimeText(dt);
    assert s[..4] == PadDigits(dt.year, 4);
    assert s[5..7] == PadDigits(dt.month, 2);
    assert s[8..10] == PadDigits(dt.day, 2);
    assert s[11..23] == t;
    assert s[23..] == Offset;
    ParsePadDigits(dt.year, 4);
    ParsePadDigits(dt.month, 2);
    ParsePadDigits(dt.day, 2);
    ParseTimeText(dt);
  }

  /** The text names the instant to the millisecond: reading it back gives the
      instant with its sub-millisecond part dropped. */
  lemma DisplayRoundTrip(ts: ProductTimeStamp)
    requires 0 <= ToDateTime(ts.instant).year <= 9999
    ensures ParseDisplay(Display(ts)) == Some(ts.instant / NanosPerMilli)
  {
    ParseDateTimeText(ToDateTime(ts.instant));
  }
}
