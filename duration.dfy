/**
 * `Duration`: an immutable signed span of milliseconds. Its unit factories and
 * getters use the fixed ratios 1000 ms/s, 60 s/min, 60 min/h and 24 h/day; a
 * "day" is always 86,400,000 ms, with no calendar awareness.
 */
module Durations {
  import opened JsHost

  const MsPerSecond: real := 1000.0
  const MsPerMinute: real := 60000.0
  const MsPerHour: real := 3600000.0
  const MsPerDay: real := 86400000.0

  datatype Duration = Duration(ms: real) {

    /** `getMilliseconds`: exactly the stored span. */
    function GetMilliseconds(): (r: real)
      ensures Duration(r) == this
    {
      ms
    }

    /** `getSeconds`: the span divided by 1000. */
    function GetSeconds(): (r: real)
      ensures r * MsPerSecond == ms
    {
      GetMilliseconds() / 1000.0
    }

    /** `getMinutes`: seconds divided by 60. */
    function GetMinutes(): (r: real)
      ensures r * MsPerMinute == ms
    {
      GetSeconds() / 60.0
    }

    /** `getHours`: minutes divided by 60. */
    function GetHours(): (r: real)
      ensures r * MsPerHour == ms
    {
      GetMinutes() / 60.0
    }

    /** `getDays`: hours divided by 24, so a day is 86,400,000 ms. */
    function GetDays(): (r: real)
      ensures r * MsPerDay == ms
    {
      GetHours() / 24.0
    }

    /** `fromHours`: a span of `hours` hours, read back unchanged by `getHours`. */
    static function FromHours(hours: real): (d: Duration)
      ensures d.GetHours() == hours
      ensures d.ms == hours * MsPerHour
    {
      Duration(hours * 60.0 * 60.0 * 1000.0)
    }

    /** `fromMinutes`: read back unchanged by `getMinutes`. */
    static function FromMinutes(minutes: real): (d: Duration)
      ensures d.GetMinutes() == minutes
      ensures d.ms == minutes * MsPerMinute
    {
      Duration(minutes * 60.0 * 1000.0)
    }

    /** `fromSeconds`: read back unchanged by `getSeconds`. */
    static function FromSeconds(seconds: real): (d: Duration)
      ensures d.GetSeconds() == seconds
      ensures d.ms == seconds * MsPerSecond
    {
      Duration(seconds * 1000.0)
    }

    /** `fromMilliseconds`: read back unchanged by `getMilliseconds`. */
    static function FromMilliseconds(ms: real): (d: Duration)
      ensures d.GetMilliseconds() == ms
    {
      Duration(ms)
    }

    /** `fromDifference(a, b)`: the signed span from `a` to `b`, which `add` undoes. */
    static function FromDifference(a: Instant, b: Instant): (d: Duration)
      ensures Add(a, d) == b
      ensures a <= b <==> d.ms >= 0.0
    {
      Duration(b - a)
    }

    /** `add(date, duration)`: a new instant, `duration` later than `date`. */
    static function Add(date: Instant, duration: Duration): (r: Instant)
      ensures r - date == duration.GetMilliseconds()
    {
      date + duration.GetMilliseconds()
    }
  }

  /** `new Duration()`: the default span is zero. */
  const Zero: Duration := Duration(0.0)

  lemma ZeroIsEmpty(date: Instant)
    ensures Zero.GetMilliseconds() == 0.0 && Zero.GetDays() == 0.0
    ensures Duration.Add(date, Zero) == date
  {
  }

  /** `fromDifference` is antisymmetric and vanishes on equal instants. */
  lemma FromDifferenceAntisymmetric(a: Instant, b: Instant)
    ensures Duration.FromDifference(a, b).ms == -Duration.FromDifference(b, a).ms
    ensures Duration.FromDifference(a, a) == Zero
  {
  }

  /** Measuring the span `add` covered gives the duration back. */
  lemma DifferenceOfAdd(date: Instant, d: Duration)
    ensures Duration.FromDifference(date, Duration.Add(date, d)) == d
  {
  }

  /** Adding two durations in turn is adding their sum. */
  lemma AddAdditive(date: Instant, x: Duration, y: Duration)
    ensures Duration.Add(Duration.Add(date, x), y) == Duration.Add(date, Duration(x.ms + y.ms))
  {
  }

  /** `add` preserves order: a later instant stays later. */
  lemma AddMonotone(a: Instant, b: Instant, d: Duration)
    requires a <= b
    ensures Duration.Add(a, d) <= Duration.Add(b, d)
  {
  }

  /** `add(today, fromHours(24))` is 86,400,000 ms later, one `getDays` day. */
  lemma AddOneDay(date: Instant)
    ensures Duration.Add(date, Duration.FromHours(24.0)) == date + 86400000.0
    ensures Duration.FromDifference(date, Duration.Add(date, Duration.FromHours(24.0))).GetDays() == 1.0
  {
  }
}
