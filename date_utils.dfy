/**
 * Relative-time formatting of the client (`phoenix-client/src/utils/dateUtils.js`).
 * The difference "now - date" is an integer number of milliseconds; turning a
 * calendar value into an instant and the final absolute-date text are done by
 * the browser's `Date`, so they are parameters of the model.
 */
module DateUtils {
  import opened Wrappers
  import opened Text

  const MinuteMs: int := 60 * 1000
  const HourMs: int := 60 * MinuteMs
  const DayMs: int := 24 * HourMs
  const WeekMs: int := 7 * DayMs

  /** The arguments handed to `new Date(year, monthIndex, day, ...)`. */
  datatype DateFields = DateFields(
    year: int, monthIndex: int, day: int,
    hours: int, minutes: int, seconds: int, millis: int)

  /** A parsed date: either built from calendar fields or already an instant. */
  datatype Moment = Calendar(fields: DateFields) | Instant(epochMs: int)

  /**
   * The values `formatRelativeTime` accepts. An array's elements are `None`
   * where JavaScript would read `undefined` (a missing position). `Other`
   * stands for a Date, a string or a number, already converted by the
   * browser: `None` when the conversion gave NaN or the type is not handled.
   */
  datatype DateValue =
    | Null
    | Undefined
    | ArrayValue(parts: seq<Option<int>>)
    | Other(epochMs: Option<int>)

  /** Element `i` of the array, `undefined` past its end. */
  function Part(parts: seq<Option<int>>, i: nat): Option<int> {
    if i < |parts| then parts[i] else None
  }

  /** `toDate`: null for null, undefined, an array missing year, month or day, or an invalid date. */
  function ToDate(value: DateValue): (r: Option<Moment>)
    ensures value.Null? || value.Undefined? ==> r == None
    ensures value.ArrayValue? ==>
      (r == None <==> Part(value.parts, 0) == None || Part(value.parts, 1) == None || Part(value.parts, 2) == None)
    ensures value.ArrayValue? && r.Some? ==>
      r.value.Calendar? && r.value.fields.monthIndex == Part(value.parts, 1).value - 1
  {
    match value
    case Null => None
    case Undefined => None
    case ArrayValue(parts) =>
      if Part(parts, 0) == None || Part(parts, 1) == None || Part(parts, 2) == None then None
      else Some(Calendar(DateFields(
        Part(parts, 0).value, Part(parts, 1).value - 1, Part(parts, 2).value,
        Part(parts, 3).GetOr(0), Part(parts, 4).GetOr(0), Part(parts, 5).GetOr(0), Part(parts, 6).GetOr(0))))
    case Other(ms) => if ms == None then None else Some(Instant(ms.value))
  }

  datatype TimeUnit = Minute | Hour | Day | Week

  /** What `formatRelativeTime` prints, before it is turned into text. */
  datatype Relative =
    | Blank                           // ''
    | JustNow                         // 'just now'
    | Ago(count: nat, unit: TimeUnit) // '<count> <unit>[s] ago'
    | Absolute                        // the browser's 'Mon D, YYYY' rendering of the date

  /** The comparison chain on the millisecond difference. */
  function Bucket(diffMs: int): (r: Relative)
    ensures r != Blank
    ensures r == JustNow <==> diffMs < MinuteMs
    ensures r == Absolute <==> diffMs >= 4 * WeekMs
    ensures r.Ago? ==> r.count >= 1
    ensures r.Ago? && r.unit == Minute ==> MinuteMs <= diffMs < HourMs && r.count == diffMs / MinuteMs && r.count <= 59
    ensures r.Ago? && r.unit == Hour ==> HourMs <= diffMs < DayMs && r.count == diffMs / HourMs && r.count <= 23
    ensures r.Ago? && r.unit == Day ==> DayMs <= diffMs < WeekMs && r.count == diffMs / DayMs && r.count <= 6
    ensures r.Ago? && r.unit == Week ==> WeekMs <= diffMs < 4 * WeekMs && r.count == diffMs / WeekMs && r.count <= 3
  {
    if diffMs < 0 then JustNow
    else if diffMs < MinuteMs then JustNow
    else if diffMs < HourMs then Ago(diffMs / MinuteMs, Minute)
    else if diffMs < DayMs then Ago(diffMs / HourMs, Hour)
    else if diffMs < WeekMs then Ago(diffMs / DayMs, Day)
    else if diffMs < 4 * WeekMs then Ago(diffMs / WeekMs, Week)
    else Absolute
  }

  /** The instant of a parsed date; `calendarMs` is the browser's local-time conversion. */
  function EpochOf(m: Moment, calendarMs: DateFields -> int): int {
    match m
    case Calendar(f) => calendarMs(f)
    case Instant(ms) => ms
  }

  /** `formatRelativeTime(value)` evaluated at the instant `nowMs`. */
  function FormatRelativeTime(value: DateValue, nowMs: int, calendarMs: DateFields -> int): (r: Relative)
    ensures r == Blank <==> ToDate(value) == None
    ensures ToDate(value).Some? ==> r == Bucket(nowMs - EpochOf(ToDate(value).value, calendarMs))
  {
    match ToDate(value)
    case None => Blank
    case Some(m) => Bucket(nowMs - EpochOf(m, calendarMs))
  }

  function UnitWord(u: TimeUnit): string {
    match u
    case Minute => "minute"
    case Hour => "hour"
    case Day => "day"
    case Week => "week"
  }

  /** The text shown; `absolute` is the browser's rendering of the date. */
  function Render(r: Relative, absolute: string): string {
    match r
    case Blank => ""
    case JustNow => "just now"
    case Ago(n, u) => NatToString(n) + " " + UnitWord(u) + (if n == 1 then "" else "s") + " ago"
    case Absolute => absolute
  }

  /** Rank of the unit a phrase speaks in, from the finest to the coarsest. */
  function Rank(r: Relative): nat {
    match r
    case Blank => 0
    case JustNow => 0
    case Ago(_, Minute) => 1
    case Ago(_, Hour) => 2
    case Ago(_, Day) => 3
    case Ago(_, Week) => 4
    case Absolute => 5
  }

  /** A future date (negative difference) reads "just now". */
  lemma FutureIsJustNow(diffMs: int)
    requires diffMs < 0
    ensures Render(Bucket(diffMs), "") == "just now"
  {
  }

  /** A larger difference never yields a finer unit, and within a unit never a smaller count. */
  lemma BucketMonotone(d1: int, d2: int)
    requires d1 <= d2
    ensures Rank(Bucket(d1)) <= Rank(Bucket(d2))
    ensures Bucket(d1).Ago? && Bucket(d2).Ago? && Bucket(d1).unit == Bucket(d2).unit ==>
      Bucket(d1).count <= Bucket(d2).count
  {
    var b1, b2 := Bucket(d1), Bucket(d2);
    if b1.Ago? && b2.Ago? && b1.unit == b2.unit {
      var w := match b1.unit case Minute => MinuteMs case Hour => HourMs case Day => DayMs case Week => WeekMs;
      DivMonotone(d1, d2, w);
    }
  }

  lemma DivMonotone(a: int, b: int, w: int)
    requires 0 <= a <= b && w > 0
    ensures a / w <= b / w
  {
    var qa, qb := a / w, b / w;
    if qb + 1 <= qa {
      MulMonotone(qb + 1, qa, w);
    }
  }

  lemma MulMonotone(x: int, y: int, w: int)
    requires x <= y && w >= 0
    ensures x * w <= y * w
  {
  }

  /** The phrase's words: the count, the unit, and an "s" exactly when the count is not 1. */
  lemma PluralExactlyWhenNotOne(r: Relative, absolute: string)
    requires r.Ago?
    ensures var t := Render(r, absolute);
      var digits := NatToString(r.count);
      t[..|digits|] == digits && t[|digits|] == ' ' &&
      (r.count == 1 <==> t[|digits| + 1..] == UnitWord(r.unit) + " ago")
  {
    var digits := NatToString(r.count);
    var t := Render(r, absolute);
    var rest := UnitWord(r.unit) + (if r.count == 1 then "" else "s") + " ago";
    assert t == digits + " " + rest;
    assert t[|digits| + 1..] == rest;
    if r.count != 1 {
      assert |rest| == |UnitWord(r.unit)| + 5;
      assert rest[|UnitWord(r.unit)|] == 's';
      assert (UnitWord(r.unit) + " ago")[|UnitWord(r.unit)|] == ' ';
    }
  }

  /** The array form is 1-based in the month: `[2024, 1, 15]` is handed on as January (index 0). */
  lemma ArrayMonthIsOneBased(y: int, m: int, d: int)
    ensures ToDate(ArrayValue([Some(y), Some(m), Some(d)])) == Some(Calendar(DateFields(y, m - 1, d, 0, 0, 0, 0)))
  {
    var parts := [Some(y), Some(m), Some(d)];
    assert Part(parts, 3) == None && Part(parts, 4) == None && Part(parts, 5) == None && Part(parts, 6) == None;
  }
}
