/**
 * Time-zone and calendar helpers: hour normalisation, the UTC offset of a zone
 * read off the formatter's wall clock, the conversion of a formatted wall clock
 * into a `Date`, inclusive date ranges, and time-stripped dates.
 */
module Time {
  import opened Wrappers
  import opened JsHost
  import opened JsText
  import opened Durations
  import AngleMath

  /** `normalizeHour`: a fractional hour of the day brought into `[0, 24)`. */
  function NormalizeHour(hour: real): (r: real)
    ensures 0.0 <= r < 24.0
    ensures exists k: int :: r == hour + AngleMath.Turns(k, 24.0)
  {
    AngleMath.NormalizeInRange(hour, 24.0);
    AngleMath.Normalize(hour, 24.0)
  }

  // ---------------------------------------------------------------------------
  // The caller's Date, which getTimezoneOffset changes in place

  /** A mutable JavaScript `Date`. */
  class Date {
    var time: Instant

    constructor (t: Instant)
      ensures time == t
    {
      time := t;
    }

    /** `setMinutes(m)`: the local minutes replaced, the other local fields kept. */
    method SetMinutes(host: Host, m: int)
      modifies this
      ensures time == host.makeLocal(host.local(old(time)).(minutes := m))
    {
      time := host.makeLocal(host.local(time).(minutes := m));
    }

    /** `setSeconds(s)`. */
    method SetSeconds(host: Host, s: int)
      modifies this
      ensures time == host.makeLocal(host.local(old(time)).(seconds := s))
    {
      time := host.makeLocal(host.local(time).(seconds := s));
    }

    /** `setMilliseconds(ms)`. */
    method SetMilliseconds(host: Host, ms: int)
      modifies this
      ensures time == host.makeLocal(host.local(old(time)).(ms := ms))
    {
      time := host.makeLocal(host.local(time).(ms := ms));
    }
  }

  /** The instant left after zeroing the local minutes, seconds and milliseconds in turn. */
  function TopOfHour(host: Host, t: Instant): Instant {
    var t1 := host.makeLocal(host.local(t).(minutes := 0));
    var t2 := host.makeLocal(host.local(t1).(seconds := 0));
    host.makeLocal(host.local(t2).(ms := 0))
  }

  /**
   * Where the local hour of `t` exists as written (no daylight-saving gap),
   * the truncated instant reads as `t`'s date and hour with zero minutes,
   * seconds and milliseconds.
   */
  lemma TopOfHourFields(host: Host, t: Instant)
    requires RoundTrips(host, host.local(t).(minutes := 0))
    requires RoundTrips(host, host.local(t).(minutes := 0, seconds := 0))
    requires RoundTrips(host, host.local(t).(minutes := 0, seconds := 0, ms := 0))
    ensures host.local(TopOfHour(host, t)) == host.local(t).(minutes := 0, seconds := 0, ms := 0)
  {
  }

  // ---------------------------------------------------------------------------
  // timezoneConvert: reading the formatter's "MM/DD/YYYY, HH:MM:SS"

  /** The six numbers read off a formatted wall clock; `None` is NaN or undefined. */
  datatype Reading = Reading(month: Option<int>, day: Option<int>, year: Option<int>,
                             hour: Option<int>, minute: Option<int>, second: Option<int>)

  /**
   * The parsing half of `timezoneConvert`: split at ", ", split the date at "/"
   * and the time at ":", parse each piece, and read an hour of 24 as 0.
   * `None` when there is no time part, where the source's `timeStr.split` throws.
   */
  function ParseFormatted(formatted: string): Option<Reading> {
    var parts := Split(formatted, ", ");
    if |parts| < 2 then None
    else Some(ReadingOf(Split(parts[0], "/"), Split(parts[1], ":")))
  }

  /** `[month, day, year]` and `[hour, minute, second]` parsed, an hour of 24 read as 0. */
  function ReadingOf(date: seq<string>, time: seq<string>): Reading {
    var hour := ParseAt(time, 0);
    Reading(ParseAt(date, 0), ParseAt(date, 1), ParseAt(date, 2),
            if hour == Some(24) then Some(0) else hour,
            ParseAt(time, 1), ParseAt(time, 2))
  }

  /** `new Date(year, month - 1, day, hour, minute, second)`: Invalid Date when any part is NaN. */
  function ReadingDate(host: Host, r: Reading): DateValue {
    if r.month.Some? && r.day.Some? && r.year.Some? && r.hour.Some? && r.minute.Some? && r.second.Some?
    then At(host.makeLocal(Fields(r.year.value, r.month.value - 1, r.day.value,
                                  r.hour.value, r.minute.value, r.second.value, 0)))
    else Invalid
  }

  /** What stops `timezoneConvert`: an identifier Intl rejects, or a reading without a time part. */
  datatype ConvertError = UnknownZone | NoTimePart

  /** `timezoneConvert(zone, date)`: the zone's wall clock at `t`, as a host-local `Date`. */
  function TimezoneConvert(host: Host, zone: string, t: Instant): Result<DateValue, ConvertError> {
    if !host.knownZone(zone) then Failure(UnknownZone)
    else match ParseFormatted(host.format(zone, t))
      case None => Failure(NoTimePart)
      case Some(r) => Success(ReadingDate(host, r))
  }

  /** The en-US 24-hour rendering "MM/DD/YYYY, HH:MM:SS" (the hour may read 24 at midnight). */
  function Formatted(month: nat, day: nat, year: nat, hour: nat, minute: nat, second: nat): string
    requires month < 100 && day < 100 && hour < 100 && minute < 100 && second < 100
  {
    Pad2(month) + "/" + Pad2(day) + "/" + ShowNat(year) + ", "
      + Pad2(hour) + ":" + Pad2(minute) + ":" + Pad2(second)
  }

  /** The formatted reading splits at ", " into its date part and its time part. */
  lemma SplitFormatted(month: nat, day: nat, year: nat, hour: nat, minute: nat, second: nat)
    requires month < 100 && day < 100 && hour < 100 && minute < 100 && second < 100
    ensures Split(Formatted(month, day, year, hour, minute, second), ", ")
         == [Pad2(month) + "/" + Pad2(day) + "/" + ShowNat(year),
             Pad2(hour) + ":" + Pad2(minute) + ":" + Pad2(second)]
  {
    var date := Pad2(month) + "/" + Pad2(day) + "/" + ShowNat(year);
    var time := Pad2(hour) + ":" + Pad2(minute) + ":" + Pad2(second);
    assert Formatted(month, day, year, hour, minute, second) == date + ", " + time;
    assert AllDecimal(Pad2(month)) && AllDecimal(Pad2(day)) && AllDecimal(ShowNat(year));
    assert Avoids(date, ", ");
    assert Avoids(time, ", ");
    SplitAfter(date, ", ", time);
    SplitAvoiding(time, ", ");
  }

  /** The numerals of a well-formed reading parse back to their values. */
  lemma ReadingOfNumerals(month: nat, day: nat, year: nat, hour: nat, minute: nat, second: nat)
    requires month < 100 && day < 100 && hour <= 24 && minute < 100 && second < 100
    ensures ReadingOf([Pad2(month), Pad2(day), ShowNat(year)], [Pad2(hour), Pad2(minute), Pad2(second)])
         == Reading(Some(month), Some(day), Some(year),
                    Some(if hour == 24 then 0 else hour), Some(minute), Some(second))
  {
    ParsePad2Alone(month);
    ParsePad2Alone(day);
    ParseShowNatAlone(year);
    ParsePad2Alone(hour);
    ParsePad2Alone(minute);
    ParsePad2Alone(second);
  }

  /**
   * Every well-formed reading parses back: the 1-based month, day, year,
   * minute and second unchanged, and an hour of 24 read as 0.
   */
  lemma ParseFormattedReading(month: nat, day: nat, year: nat, hour: nat, minute: nat, second: nat)
    requires month < 100 && day < 100 && hour <= 24 && minute < 100 && second < 100
    ensures ParseFormatted(Formatted(month, day, year, hour, minute, second))
         == Some(Reading(Some(month), Some(day), Some(year),
                         Some(if hour == 24 then 0 else hour), Some(minute), Some(second)))
  {
    SplitFormatted(month, day, year, hour, minute, second);
    SplitThree(Pad2(month), Pad2(day), ShowNat(year), "/");
    SplitThree(Pad2(hour), Pad2(minute), Pad2(second), ":");
    ReadingOfNumerals(month, day, year, hour, minute, second);
  }

  /**
   * `timezoneConvert` builds the host-local `Date` of the zone's wall clock:
   * month shifted to 0-based, midnight written "24" rolled to hour 0 of the
   * same date.
   */
  lemma TimezoneConvertReading(host: Host, zone: string, t: Instant,
                               month: nat, day: nat, year: nat, hour: nat, minute: nat, second: nat)
    requires 1 <= month <= 12 && 1 <= day <= 31 && hour <= 24 && minute < 60 && second < 60
    requires host.knownZone(zone)
    requires host.format(zone, t) == Formatted(month, day, year, hour, minute, second)
    ensures TimezoneConvert(host, zone, t)
         == Success(At(host.makeLocal(Fields(year, month - 1, day,
                                             if hour == 24 then 0 else hour, minute, second, 0))))
  {
    var r := Reading(Some(month), Some(day), Some(year),
                     Some(if hour == 24 then 0 else hour), Some(minute), Some(second));
    ParseFormattedReading(month, day, year, hour, minute, second);
    ConvertParsed(host, zone, t, r);
  }

  /** `timezoneConvert` of a zone whose formatted wall clock parses to `r`. */
  lemma ConvertParsed(host: Host, zone: string, t: Instant, r: Reading)
    requires host.knownZone(zone)
    requires ParseFormatted(host.format(zone, t)) == Some(r)
    ensures TimezoneConvert(host, zone, t) == Success(ReadingDate(host, r))
  {
  }

  // ---------------------------------------------------------------------------
  // getTimezoneOffset: combining the hour and day differences

  function Abs(x: int): nat { if x < 0 then -x else x }

  function Sign(x: int): int { if x < 0 then -1 else if x == 0 then 0 else 1 }

  /**
   * The combination step as the source writes it: a day difference of more
   * than one (a month boundary between the two readings) is replaced by its
   * sign, then the offset is `hoursDiff + 24 * daysDiff`.
   */
  function CombineOffsetAsWritten(tzHours: int, utcHours: int, tzDay: int, utcDay: int): (r: int)
    ensures 0 <= tzHours < 24 && 0 <= utcHours < 24 ==> -47 <= r <= 47
    ensures Abs(tzDay - utcDay) > 1 ==> r == tzHours - utcHours + 24 * Sign(tzDay - utcDay)
  {
    var hoursDiff := tzHours - utcHours;
    var daysDiff := tzDay - utcDay;
    var days := if Abs(daysDiff) > 1 then Sign(daysDiff) else daysDiff;
    hoursDiff + days * 24
  }

  /**
   * The combination step as intended: across a month boundary the day of month
   * runs backwards (31 -> 1 is one day later), so the day shift is the
   * opposite of the sign of the difference.
   */
  function CombineOffset(tzHours: int, utcHours: int, tzDay: int, utcDay: int): (r: int)
    ensures 0 <= tzHours < 24 && 0 <= utcHours < 24 ==> -47 <= r <= 47
    ensures Abs(tzDay - utcDay) <= 1 ==> r == CombineOffsetAsWritten(tzHours, utcHours, tzDay, utcDay)
  {
    var hoursDiff := tzHours - utcHours;
    var daysDiff := tzDay - utcDay;
    var days := if Abs(daysDiff) > 1 then -Sign(daysDiff) else daysDiff;
    hoursDiff + days * 24
  }

  /**
   * The zone's (day of month, hour) when UTC reads (`utcDay`, `utcHour`) and the
   * zone is `offset` whole hours ahead; the day rolls over at the end of the UTC
   * month (`monthLength` days) or back into the previous one (`prevLength` days).
   */
  function ShiftedReading(utcDay: int, utcHour: int, offset: int, monthLength: int, prevLength: int): (int, int) {
    var h := utcHour + offset;
    if h >= 24 then (if utcDay == monthLength then 1 else utcDay + 1, h - 24)
    else if h < 0 then (if utcDay == 1 then prevLength else utcDay - 1, h + 24)
    else (utcDay, h)
  }

  predicate PlausibleReading(utcDay: int, utcHour: int, offset: int, monthLength: int, prevLength: int) {
    && 0 <= utcHour < 24
    && 28 <= monthLength <= 31 && 28 <= prevLength <= 31
    && 1 <= utcDay <= monthLength
    && -24 < offset < 24
  }

  /** The intended combination recovers the zone's offset, at month boundaries too. */
  lemma CombineOffsetRecovers(utcDay: int, utcHour: int, offset: int, monthLength: int, prevLength: int)
    requires PlausibleReading(utcDay, utcHour, offset, monthLength, prevLength)
    ensures var (day, hour) := ShiftedReading(utcDay, utcHour, offset, monthLength, prevLength);
            CombineOffset(hour, utcHour, day, utcDay) == offset
  {
  }

  /** As written, the combination is right whenever the two readings share a month. */
  lemma CombineOffsetAsWrittenWithinMonth(utcDay: int, utcHour: int, offset: int, monthLength: int, prevLength: int)
    requires PlausibleReading(utcDay, utcHour, offset, monthLength, prevLength)
    requires var (day, _) := ShiftedReading(utcDay, utcHour, offset, monthLength, prevLength);
             Abs(day - utcDay) <= 1
    ensures var (day, hour) := ShiftedReading(utcDay, utcHour, offset, monthLength, prevLength);
            CombineOffsetAsWritten(hour, utcHour, day, utcDay) == offset
  {
    CombineOffsetRecovers(utcDay, utcHour, offset, monthLength, prevLength);
  }

  /**
   * As written, the combination is wrong across a month boundary: at 22:00 UTC
   * on January 31 a zone five hours ahead reads 03:00 on February 1, and the
   * clamped difference gives -43 hours instead of +5.
   */
  lemma CombineOffsetAsWrittenMonthEnd()
    ensures ShiftedReading(31, 22, 5, 31, 31) == (1, 3)
    ensures CombineOffsetAsWritten(3, 22, 1, 31) == -43
    ensures CombineOffset(3, 22, 1, 31) == 5
  {
  }

  /** An offset in whole hours, or the NaN an unparsable reading leads to. */
  datatype Offset = Hours(hours: int) | NotANumber

  /**
   * The offset `getTimezoneOffset` reads once its `Date` holds `t`, with the
   * given combination step: the host-local reading of the UTC fields against
   * the host-local reading of the zone's converted wall clock.
   */
  function OffsetWith(host: Host, zone: string, t: Instant, combine: (int, int, int, int) -> int): Result<Offset, ConvertError> {
    var u := host.utc(t);
    var utcDate := host.makeLocal(Fields(u.year, u.month, u.day, u.hours, 0, 0, 0));
    match TimezoneConvert(host, zone, t)
    case Failure(e) => Failure(e)
    case Success(Invalid) => Success(NotANumber)
    case Success(At(tzDate)) =>
      Success(Hours(combine(host.local(tzDate).hours, host.local(utcDate).hours,
                            host.local(tzDate).day, host.local(utcDate).day)))
  }

  /** The offset as the source computes it, with the sign clamp of `CombineOffsetAsWritten`. */
  function OffsetAtAsWritten(host: Host, zone: string, t: Instant): Result<Offset, ConvertError> {
    OffsetWith(host, zone, t, CombineOffsetAsWritten)
  }

  /** The offset with the corrected step `CombineOffset`; the rest of the model uses this one. */
  function OffsetAt(host: Host, zone: string, t: Instant): Result<Offset, ConvertError> {
    OffsetWith(host, zone, t, CombineOffset)
  }

  /**
   * `getTimezoneOffset(zone, date)`: truncates the caller's `date` to the top
   * of its local hour, in place, and returns the zone's offset at that instant,
   * combined with the corrected step; `OffsetAtAsWritten` is the source's value,
   * which differs only when the two readings fall in different months.
   */
  method GetTimezoneOffset(host: Host, zone: string, date: Date) returns (r: Result<Offset, ConvertError>)
    modifies date
    ensures date.time == TopOfHour(host, old(date.time))
    ensures r == OffsetAt(host, zone, date.time)
  {
    date.SetMinutes(host, 0);
    date.SetSeconds(host, 0);
    date.SetMilliseconds(host, 0);
    var t := date.time;
    var u := host.utc(t);
    var utcDate := host.makeLocal(Fields(u.year, u.month, u.day, u.hours, 0, 0, 0));
    var converted := TimezoneConvert(host, zone, t);
    if converted.Failure? {
      r := Failure(converted.error);
    } else if converted.value.Invalid? {
      r := Success(NotANumber);
    } else {
      var tzDate := converted.value.time;
      r := Success(Hours(CombineOffset(host.local(tzDate).hours, host.local(utcDate).hours,
                                       host.local(tzDate).day, host.local(utcDate).day)));
    }
  }

  /**
   * The zone's formatter writes the wall clock `offset` whole hours ahead of
   * UTC at `t`, as the reading `tz` (its hour 0 possibly written as 24), and
   * the host can represent both that reading and the UTC reading.
   */
  ghost predicate ShowsShiftedClock(host: Host, zone: string, t: Instant, offset: int,
                              monthLength: int, prevLength: int, tz: Fields, clockHour: nat)
  {
    var u := host.utc(t);
    && host.knownZone(zone)
    && PlausibleReading(u.day, u.hours, offset, monthLength, prevLength)
    && (tz.day, tz.hours) == ShiftedReading(u.day, u.hours, offset, monthLength, prevLength)
    && 0 <= tz.month < 12 && tz.year >= 0 && 0 <= tz.minutes < 60 && 0 <= tz.seconds < 60 && tz.ms == 0
    && (clockHour == tz.hours || (tz.hours == 0 && clockHour == 24))
    && host.format(zone, t) == Formatted(tz.month + 1, tz.day, tz.year, clockHour, tz.minutes, tz.seconds)
    && RoundTrips(host, tz)
    && RoundTrips(host, Fields(u.year, u.month, u.day, u.hours, 0, 0, 0))
  }

  /** Under such a formatter, either combination step sees the zone's and UTC's (hour, day) readings. */
  lemma OffsetWithShifted(host: Host, zone: string, t: Instant, offset: int,
                          monthLength: int, prevLength: int, tz: Fields, clockHour: nat,
                          combine: (int, int, int, int) -> int)
    requires ShowsShiftedClock(host, zone, t, offset, monthLength, prevLength, tz, clockHour)
    ensures var u := host.utc(t);
            OffsetWith(host, zone, t, combine) == Success(Hours(combine(tz.hours, u.hours, tz.day, u.day)))
  {
    TimezoneConvertReading(host, zone, t, tz.month + 1, tz.day, tz.year, clockHour, tz.minutes, tz.seconds);
    assert Fields(tz.year, tz.month, tz.day, tz.hours, tz.minutes, tz.seconds, 0) == tz;
  }

  /**
   * End to end, with the corrected step: when the formatter writes the zone's
   * wall clock `offset` whole hours ahead of UTC, the offset read is `offset`,
   * at month boundaries too.
   */
  lemma OffsetAtRecovers(host: Host, zone: string, t: Instant, offset: int,
                         monthLength: int, prevLength: int, tz: Fields, clockHour: nat)
    requires ShowsShiftedClock(host, zone, t, offset, monthLength, prevLength, tz, clockHour)
    ensures OffsetAt(host, zone, t) == Success(Hours(offset))
  {
    var u := host.utc(t);
    OffsetWithShifted(host, zone, t, offset, monthLength, prevLength, tz, clockHour, CombineOffset);
    CombineOffsetRecovers(u.day, u.hours, offset, monthLength, prevLength);
  }

  /** End to end, as written: the offset is read correctly while both readings share a month. */
  lemma OffsetAtAsWrittenWithinMonth(host: Host, zone: string, t: Instant, offset: int,
                                     monthLength: int, prevLength: int, tz: Fields, clockHour: nat)
    requires ShowsShiftedClock(host, zone, t, offset, monthLength, prevLength, tz, clockHour)
    requires Abs(tz.day - host.utc(t).day) <= 1
    ensures OffsetAtAsWritten(host, zone, t) == Success(Hours(offset))
  {
    var u := host.utc(t);
    OffsetWithShifted(host, zone, t, offset, monthLength, prevLength, tz, clockHour, CombineOffsetAsWritten);
    CombineOffsetAsWrittenWithinMonth(u.day, u.hours, offset, monthLength, prevLength);
  }

  /**
   * End to end, as written: when the zone's day and UTC's day lie in different
   * months, the offset read is 48 hours off, late when the zone's day number is
   * the larger.
   */
  lemma OffsetAtAsWrittenAcrossMonths(host: Host, zone: string, t: Instant, offset: int,
                                      monthLength: int, prevLength: int, tz: Fields, clockHour: nat)
    requires ShowsShiftedClock(host, zone, t, offset, monthLength, prevLength, tz, clockHour)
    requires Abs(tz.day - host.utc(t).day) > 1
    ensures OffsetAtAsWritten(host, zone, t) == Success(Hours(offset + 48 * Sign(tz.day - host.utc(t).day)))
  {
    var u := host.utc(t);
    OffsetWithShifted(host, zone, t, offset, monthLength, prevLength, tz, clockHour, CombineOffsetAsWritten);
    CombineOffsetRecovers(u.day, u.hours, offset, monthLength, prevLength);
  }

  // ---------------------------------------------------------------------------
  // dateRange

  /** Why `dateRange` throws; `Message` gives the source's text. */
  datatype RangeError = EndBeforeStart | SameStartAndEnd | StepTooLarge {
    function Message(): string {
      match this
      case EndBeforeStart => "start date must be before end date!"
      case SameStartAndEnd => "start and end date cannot be the same!"
      case StepTooLarge => "step size is too small!"
    }
  }

  function Ceil(x: real): int {
    -((-x).Floor)
  }

  /** How many whole steps after `start` still fall strictly before `end`. */
  function StepCount(start: Instant, end: Instant, step: real): (n: nat)
    requires start < end && step > 0.0
  {
    StepsBeforeEnd(end - start, step, 0);
    Ceil((end - start) / step) - 1
  }

  /** `j` steps stay strictly inside a span exactly when `j` is at most the step count. */
  lemma StepsBeforeEnd(span: real, step: real, j: int)
    requires span > 0.0 && step > 0.0
    ensures j as real * step < span <==> j <= Ceil(span / step) - 1
  {
    var x := span / step;
    assert x * step == span;
    assert Ceil(x) as real - 1.0 < x <= Ceil(x) as real;
    if j as real * step < span {
      if j as real >= x {
        AngleMath.MulLeftMono(x, j as real, step);
      }
    } else {
      if j as real < x {
        AngleMath.MulLeftStrict(j as real, x, step);
      }
    }
  }

  /**
   * The range `dateRange` produces: `start` and every whole step after it that
   * is still before `end`, then `end` itself.
   */
  function RangeOf(start: Instant, end: Instant, step: real): seq<Instant>
    requires start < end && step > 0.0
  {
    StepsFrom(start, step, StepCount(start, end, step) + 1) + [end]
  }

  /** The first `count` whole steps from `start`, `start` itself included. */
  function StepsFrom(start: Instant, step: real, count: nat): (s: seq<Instant>)
    ensures |s| == count
  {
    seq(count, k => start + k as real * step)
  }

  /**
   * `dateRange(start, end, step)`. The source's loop never ends when `step`
   * is not positive and `start < end`, so those inputs are excluded.
   */
  method DateRange(start: Instant, end: Instant, step: Duration) returns (r: Result<seq<Instant>, RangeError>)
    requires start < end ==> step.ms > 0.0
    ensures r == Failure(EndBeforeStart) <==> end < start
    ensures r == Failure(SameStartAndEnd) <==> end == start
    ensures r == Failure(StepTooLarge) <==> start < end && end - start < step.ms
    ensures start < end && step.ms <= end - start ==> r == Success(RangeOf(start, end, step.ms))
  {
    var diff := Duration.FromDifference(start, end);
    if diff.GetMilliseconds() < 0.0 {
      return Failure(EndBeforeStart);
    }
    if diff.GetMilliseconds() == 0.0 {
      return Failure(SameStartAndEnd);
    }
    if diff.GetMilliseconds() < step.GetMilliseconds() {
      return Failure(StepTooLarge);
    }
    var s := step.ms;
    ghost var n := StepCount(start, end, s);
    var range := [start];
    var curr := start;
    ghost var k := 0;
    while Duration.Add(curr, step) < end
      invariant 0 <= k <= n
      invariant curr == start + k as real * s
      invariant range == StepsFrom(start, s, k + 1)
      decreases n - k
    {
      StepsBeforeEnd(end - start, s, k + 1);
      var next := Duration.Add(curr, step);
      assert next == start + (k + 1) as real * s by {
        assert (k + 1) as real * s == k as real * s + s;
      }
      StepsAppend(start, s, k);
      range := range + [next];
      curr := next;
      k := k + 1;
    }
    StepsBeforeEnd(end - start, s, k + 1);
    range := range + [end];
    return Success(range);
  }

  /** One more step appended to the first `k + 1` steps gives the first `k + 2`. */
  lemma StepsAppend(start: Instant, s: real, k: nat)
    ensures StepsFrom(start, s, k + 1) + [start + (k + 1) as real * s] == StepsFrom(start, s, k + 2)
  {
    var a := StepsFrom(start, s, k + 1) + [start + (k + 1) as real * s];
    var b := StepsFrom(start, s, k + 2);
    forall i | 0 <= i < |b| ensures a[i] == b[i] {
    }
  }

  /** The range starts at `start`, ends exactly at `end`, and has at least those two. */
  lemma RangeEnds(start: Instant, end: Instant, step: real)
    requires start < end && step > 0.0
    ensures var r := RangeOf(start, end, step);
            |r| >= 2 && r[0] == start && r[|r| - 1] == end
  {
  }

  /** Every gap but the last is one step; the last is positive and at most a step. */
  lemma RangeGaps(start: Instant, end: Instant, step: real)
    requires start < end && step > 0.0
    ensures var r := RangeOf(start, end, step);
            && (forall i :: 0 <= i < |r| - 2 ==> r[i + 1] - r[i] == step)
            && 0.0 < r[|r| - 1] - r[|r| - 2] <= step
  {
    var n := StepCount(start, end, step);
    InnerGaps(start, step, n + 1, end);
    LastGap(start, end, step);
  }

  /** Within `StepsFrom`, and up to the appended end, the elements are where the steps put them. */
  lemma InnerGaps(start: Instant, step: real, count: nat, end: Instant)
    requires count >= 1
    ensures var r := StepsFrom(start, step, count) + [end];
            && (forall i :: 0 <= i < count - 1 ==> r[i + 1] - r[i] == step)
            && r[count - 1] == start + (count - 1) as real * step && r[count] == end
  {
    var r := StepsFrom(start, step, count) + [end];
    forall i | 0 <= i < count - 1 ensures r[i + 1] - r[i] == step {
      StepGap(start, step, i);
    }
  }

  /** Consecutive whole steps are one step apart. */
  lemma StepGap(start: Instant, step: real, i: int)
    ensures (start + (i + 1) as real * step) - (start + i as real * step) == step
  {
    assert (i + 1) as real * step == i as real * step + step;
  }

  /** The last whole step before `end` lies less than a step before it. */
  lemma LastGap(start: Instant, end: Instant, step: real)
    requires start < end && step > 0.0
    ensures var n := StepCount(start, end, step);
            0.0 < end - (start + n as real * step) <= step
  {
    var n := StepCount(start, end, step);
    StepsBeforeEnd(end - start, step, n);
    StepsBeforeEnd(end - start, step, n + 1);
    StepGap(start, step, n);
  }

  /** The range is strictly increasing. */
  lemma RangeIncreasing(start: Instant, end: Instant, step: real)
    requires start < end && step > 0.0
    ensures var r := RangeOf(start, end, step);
            forall i, j :: 0 <= i < j < |r| ==> r[i] < r[j]
  {
    var r := RangeOf(start, end, step);
    RangeGaps(start, end, step);
    forall i, j | 0 <= i < j < |r| ensures r[i] < r[j] {
      IncreasingFrom(r, i, j);
    }
  }

  /** Positive gaps between neighbours make every later element larger. */
  lemma {:induction false} IncreasingFrom(r: seq<Instant>, i: int, j: int)
    requires forall k :: 0 <= k < |r| - 1 ==> r[k] < r[k + 1]
    requires 0 <= i < j < |r|
    ensures r[i] < r[j]
    decreases j - i
  {
    if j > i + 1 {
      IncreasingFrom(r, i, j - 1);
    }
  }

  /**
   * With a step of zero or less, the loop of `dateRange` never ends: after any
   * number `k` of iterations its test `curr + step < end` still holds.
   */
  lemma NonPositiveStepNeverEnds(start: Instant, end: Instant, step: real, k: nat)
    requires start < end && step <= 0.0
    ensures start + k as real * step + step < end
  {
  }

  /** A two-day span in one-day steps has 3 instants; a one-day span in hours has 25. */
  lemma RangeExamples(start: Instant)
    ensures |RangeOf(start, start + 2.0 * MsPerDay, MsPerDay)| == 3
    ensures RangeOf(start, start + 2.0 * MsPerDay, MsPerDay)[1] == start + MsPerDay
    ensures |RangeOf(start, start + MsPerDay, MsPerHour)| == 25
  {
    assert (2.0 * MsPerDay) / MsPerDay == 2.0;
    assert MsPerDay / MsPerHour == 24.0;
  }

  // ---------------------------------------------------------------------------
  // NaiveDate

  /** `NaiveDate`: a `Date` at local midnight of a calendar day. */
  datatype NaiveDate = NaiveDate(date: Instant) {

    /** `new NaiveDate(year, month, day)`, each defaulting to 0. */
    static function New(host: Host, year: int := 0, month: int := 0, day: int := 0): (n: NaiveDate)
      ensures RoundTrips(host, Fields(year, month, day, 0, 0, 0, 0)) ==>
                host.local(n.date) == Fields(year, month, day, 0, 0, 0, 0)
    {
      NaiveDate(MakeDate(host, year, month, day))
    }

    /** `NaiveDate.fromDate(d)`: the same local year, month and day, at midnight. */
    static function FromDate(host: Host, date: Instant): (n: NaiveDate)
      ensures RoundTrips(host, host.local(date).(hours := 0, minutes := 0, seconds := 0, ms := 0)) ==>
                host.local(n.date) == host.local(date).(hours := 0, minutes := 0, seconds := 0, ms := 0)
    {
      var f := host.local(date);
      New(host, f.year, f.month, f.day)
    }
  }

  /** Stripping the time of day twice is stripping it once. */
  lemma FromDateIdempotent(host: Host, date: Instant)
    requires RoundTrips(host, host.local(date).(hours := 0, minutes := 0, seconds := 0, ms := 0))
    ensures NaiveDate.FromDate(host, NaiveDate.FromDate(host, date).date) == NaiveDate.FromDate(host, date)
  {
  }
}
