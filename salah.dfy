/**
 * The prayer-time engine of `Salah.ts`: the calculation methods, madhabs and
 * timing names, the constructor's latitude guard and defaults, the Julian Day
 * of a local date, the solar hour angles over the host's trigonometry, the
 * conversion of a fractional hour to a `Date`, the Islamic midnight, and the
 * batch `getTimings`.
 *
 * JavaScript numbers are exact reals here. A NaN that the control flow can
 * produce (an offset that did not parse, a division by zero under `acos`) is
 * `None` in an `Option<real>` and ends as the Invalid Date.
 */
module Salah {
  import opened Wrappers
  import opened JsHost
  import opened Durations
  import opened Time
  import AngleMath

  // ---------------------------------------------------------------------------
  // Calculation methods, madhabs and timing names

  /** `METHOD_NAMES`. */
  const MethodNames: seq<string> := ["MWL", "ISNA", "Egypt"]

  /** `isMethodName(val)`. */
  predicate IsMethodName(val: string) {
    val in MethodNames
  }

  /** A calculation method: the twilight angles (degrees) of fajr and isha. */
  datatype CalculationMethod = CalculationMethod(id: string, fullName: string, fajrParam: real, ishaParam: real)

  const MWL: CalculationMethod := CalculationMethod("MWL", "Muslim World League", 15.0, 15.0)

  const ISNA: CalculationMethod := CalculationMethod("ISNA", "Islamic Society of North America", 15.0, 15.0)

  const Egypt: CalculationMethod := CalculationMethod("Egypt", "Egpyt", 15.0, 15.0)

  /** The registry `Methods`, in declaration order. */
  const Methods: seq<CalculationMethod> := [MWL, ISNA, Egypt]

  /** The method names are exactly the identifiers of the registered methods. */
  lemma MethodNamesRegistered(val: string)
    ensures IsMethodName(val) <==> exists i :: 0 <= i < |Methods| && Methods[i].id == val
  {
    if IsMethodName(val) {
      var i :| 0 <= i < |MethodNames| && MethodNames[i] == val;
      assert Methods[i].id == val;
    }
  }

  /** The madhab decides the shadow length of asr: 1 for Shafi, 2 for Hanafi. */
  datatype Madhab = Shafi | Hanafi {
    function Value(): real {
      match this
      case Shafi => 1.0
      case Hanafi => 2.0
    }
  }

  /** `TimingName`: the seven times the engine computes. */
  datatype TimingName = Fajr | Sunrise | Dhuhr | Asr | Maghrib | Isha | Midnight {
    /** The name as the API spells it; always one of `TIMING_NAMES`. */
    function Text(): (s: string)
      ensures IsTimingName(s)
    {
      match this
      case Fajr => "fajr"
      case Sunrise => "sunrise"
      case Dhuhr => "dhuhr"
      case Asr => "asr"
      case Maghrib => "maghrib"
      case Isha => "isha"
      case Midnight => "midnight"
    }
  }

  /** `TIMING_NAMES`. */
  const TimingNames: seq<string> := ["fajr", "sunrise", "dhuhr", "asr", "maghrib", "isha", "midnight"]

  /** `isTimingName(val)`. */
  predicate IsTimingName(val: string) {
    val in TimingNames
  }

  /** The timing names are exactly the spellings of the seven timings, each spelled once. */
  lemma TimingNamesExactly(val: string)
    ensures IsTimingName(val) <==> exists t: TimingName :: t.Text() == val
    ensures forall s: TimingName, t: TimingName :: s.Text() == t.Text() ==> s == t
  {
    if IsTimingName(val) {
      var i :| 0 <= i < |TimingNames| && TimingNames[i] == val;
      var all := [Fajr, Sunrise, Dhuhr, Asr, Maghrib, Isha, Midnight];
      assert all[i].Text() == val;
    }
  }

  // ---------------------------------------------------------------------------
  // The Julian Day

  /**
   * `julian`: Meeus's Julian Day of a Gregorian calendar date (1-based month),
   * with January and February counted as months 13 and 14 of the previous year.
   */
  function JulianDay(year: int, month: int, day: int): real {
    var y := if month <= 2 then year - 1 else year;
    var m := if month <= 2 then month + 12 else month;
    var a := (y as real / 100.0).Floor;
    var b := 2 - a + (a as real / 4.0).Floor;
    (365.25 * (y + 4716) as real).Floor as real + (30.6001 * (m + 1) as real).Floor as real
      + day as real + b as real - 1524.5
  }

  /** The same day count in whole-number arithmetic: the day number at noon. */
  function JulianDayNumber(year: int, month: int, day: int): int {
    var y := if month <= 2 then year - 1 else year;
    var m := if month <= 2 then month + 12 else month;
    YearTerm(y) + MonthTerm(m) + day - 1524
  }

  /** The days contributed by the (shifted) year, with the Gregorian century correction. */
  function YearTerm(y: int): int {
    (1461 * (y + 4716)) / 4 + 2 - y / 100 + (y / 100) / 4
  }

  /** The days contributed by the (shifted) month. */
  function MonthTerm(m: int): int {
    (306001 * (m + 1)) / 10000
  }

  lemma FloorOfQuotient(x: int, d: int)
    requires d > 0
    ensures (x as real / d as real).Floor == x / d
  {
    var q, r := x / d, x % d;
    assert x as real / d as real == q as real + r as real / d as real;
  }

  /** The Julian Day is always a whole day number minus one half: dates begin at midnight. */
  lemma JulianDayHalf(year: int, month: int, day: int)
    ensures JulianDay(year, month, day) == JulianDayNumber(year, month, day) as real - 0.5
  {
    var y := if month <= 2 then year - 1 else year;
    var m := if month <= 2 then month + 12 else month;
    YearFloor(y);
    MonthFloor(m);
    FloorOfQuotient(y, 100);
    FloorOfQuotient(y / 100, 4);
  }

  /** `floor(365.25 (y + 4716))` in whole-number arithmetic. */
  lemma YearFloor(y: int)
    ensures (365.25 * (y + 4716) as real).Floor == (1461 * (y + 4716)) / 4
  {
    assert 365.25 * (y + 4716) as real == (1461 * (y + 4716)) as real / 4.0;
    FloorOfQuotient(1461 * (y + 4716), 4);
  }

  /** `floor(30.6001 (m + 1))` in whole-number arithmetic. */
  lemma MonthFloor(m: int)
    ensures (30.6001 * (m + 1) as real).Floor == MonthTerm(m)
  {
    assert 30.6001 * (m + 1) as real == (306001 * (m + 1)) as real / 10000.0;
    FloorOfQuotient(306001 * (m + 1), 10000);
  }

  /** January 1, 2000 begins half a day before the J2000 epoch (2451545.0). */
  lemma JulianDayJ2000()
    ensures JulianDay(2000, 1, 1) == 2451544.5
    ensures JulianDay(2000, 1, 1) + 0.5 == 2451545.0
  {
    JulianDayHalf(2000, 1, 1);
  }

  predicate IsLeapYear(y: int) {
    y % 4 == 0 && (y % 100 != 0 || y % 400 == 0)
  }

  /** Gregorian month lengths, 1-based month. */
  function DaysInMonth(y: int, m: int): int
    requires 1 <= m <= 12
  {
    if m == 2 then (if IsLeapYear(y) then 29 else 28)
    else if m == 4 || m == 6 || m == 9 || m == 11 then 30
    else 31
  }

  /**
   * The day count agrees with the Gregorian calendar: the first of the next
   * month comes exactly as many days after the first of this one as this month
   * has, leap years included, across the year boundary too.
   */
  lemma MonthLengths(y: int, m: int)
    requires 1 <= m <= 12
    ensures var (ny, nm) := if m == 12 then (y + 1, 1) else (y, m + 1);
            JulianDay(ny, nm, 1) - JulianDay(y, m, 1) == DaysInMonth(y, m) as real
  {
    var (ny, nm) := if m == 12 then (y + 1, 1) else (y, m + 1);
    JulianDayHalf(ny, nm, 1);
    JulianDayHalf(y, m, 1);
    MonthLengthsInDays(y, m);
  }

  lemma MonthLengthsInDays(y: int, m: int)
    requires 1 <= m <= 12
    ensures var (ny, nm) := if m == 12 then (y + 1, 1) else (y, m + 1);
            JulianDayNumber(ny, nm, 1) - JulianDayNumber(y, m, 1) == DaysInMonth(y, m)
  {
    if m == 2 {
      YearTermLeap(y);
    }
  }

  /** A shifted year is 366 days long when it ends in a leap February, 365 otherwise. */
  lemma YearTermLeap(y: int)
    ensures YearTerm(y) - YearTerm(y - 1) == if IsLeapYear(y) then 366 else 365
  {
    YearTermStep(y);
    CenturyStep(y);
  }

  /** The year term `floor(365.25 (x + 1)) - floor(365.25 x)` adds the leap day every fourth year. */
  lemma YearTermStep(y: int)
    ensures (1461 * (y + 4716)) / 4 - (1461 * (y + 4715)) / 4 == 365 + (if y % 4 == 0 then 1 else 0)
  {
    var x := y + 4715;
    assert (1461 * x) / 4 == 365 * x + x / 4;
    assert (1461 * (x + 1)) / 4 == 365 * (x + 1) + (x + 1) / 4;
    assert (x + 1) % 4 == y % 4;
  }

  /** The century terms drop the leap day in years divisible by 100 but not by 400. */
  lemma CenturyStep(y: int)
    ensures y / 100 - (y - 1) / 100 == (if y % 100 == 0 then 1 else 0)
    ensures (y / 100) / 4 - ((y - 1) / 100) / 4 == (if y % 400 == 0 then 1 else 0)
  {
    if y % 100 == 0 {
      assert (y - 1) / 100 == y / 100 - 1;
      assert y % 400 == 0 <==> (y / 100) % 4 == 0;
    } else {
      assert (y - 1) / 100 == y / 100;
    }
  }

  /** Within a month, consecutive days are one Julian Day apart. */
  lemma NextDay(y: int, m: int, d: int)
    ensures JulianDay(y, m, d + 1) - JulianDay(y, m, d) == 1.0
  {
    JulianDayHalf(y, m, d + 1);
    JulianDayHalf(y, m, d);
  }

  // ---------------------------------------------------------------------------
  // The sun's position (over the host's trigonometry)

  /**
   * `sunCoords(jd)`: the equation of time (hours) and the declination
   * (degrees) by the U.S. Naval Observatory's approximation.
   */
  function SunCoords(host: Host, jd: real): (c: (real, real))
    ensures -24.0 < c.0 < 24.0
  {
    var d := jd - 2451545.0;
    var g := AngleMath.NormalizeAngle(357.529 + 0.98560028 * d);
    var q := AngleMath.NormalizeAngle(280.459 + 0.98564736 * d);
    var l := AngleMath.NormalizeAngle(q + 1.915 * AngleMath.DSin(host, g) + 0.02 * AngleMath.DSin(host, 2.0 * g));
    var e := 23.439 - 0.00000036 * d;
    var ra := NormalizeHour(AngleMath.DAtan2(host, AngleMath.DCos(host, e) * AngleMath.DSin(host, l), AngleMath.DCos(host, l)) / 15.0);
    var eqt := q / 15.0 - ra;
    var decl := AngleMath.DAsin(host, AngleMath.DSin(host, e) * AngleMath.DSin(host, l));
    (eqt, decl)
  }

  /**
   * `(1 / 15) * acos(numerator / denominator)`: an hour angle in hours.
   * JavaScript's division by zero leads `acos` to NaN, here `None`.
   */
  function ArcHours(host: Host, numerator: real, denominator: real): (r: Option<real>)
    ensures r.Some? <==> denominator != 0.0
    ensures (forall x :: host.acos(x) >= 0.0) && r.Some? ==> r.value >= 0.0
  {
    if denominator == 0.0 then None
    else Some((1.0 / 15.0) * AngleMath.DAcos(host, numerator / denominator))
  }

  /** What `new Salah(options)` takes; an omitted option is `None`. */
  datatype SalahOptions = SalahOptions(lat: real, lng: real, timeZone: Option<string>,
                                       madhab: Option<Madhab>, calculationMethod: Option<CalculationMethod>)

  const DefaultTimeZone: string := "America/Toronto"

  /**
   * Why the constructor throws: the latitude guard, or the zone's reading
   * failing inside `getTimezoneOffset`.
   */
  datatype SalahError = HighLatitude | ZoneError(cause: ConvertError)

  const HighLatitudeMessage: string := "High latitudes are not available! (yet...)"

  /** Either one date for every name, or one date per name. */
  datatype Dates = One(date: Instant) | Many(dates: seq<Instant>)

  /** The `RangeError` of `getTimings`. */
  datatype TimingsError = SizeMismatch {
    function Message(): string {
      "Array `names` must match the size of Array `date`!"
    }
  }

  /** `new Date(h1) <= new Date(h2)` for two valid dates; nothing is claimed about Invalid Date. */
  predicate NotAfter(a: DateValue, b: DateValue) {
    a.At? && b.At? ==> a.time <= b.time
  }

  /** Math.acos never returns a negative angle. */
  ghost predicate AcosNonNegative(host: Host) {
    forall x :: host.acos(x) >= 0.0
  }

  /** `Math.acos(y) <= Math.acos(x)`. */
  ghost predicate AcosOrdered(host: Host, x: real, y: real) {
    host.acos(y) <= host.acos(x)
  }

  /** Math.acos decreases over its domain. */
  ghost predicate AcosDecreasing(host: Host) {
    forall x, y :: -1.0 <= x <= y <= 1.0 ==> AcosOrdered(host, x, y)
  }

  /**
   * An instance of the `Salah` class. `host` is the JavaScript environment it
   * runs in; `tzOffset` is the zone's offset, fixed once by the constructor.
   */
  datatype Salah = Salah(host: Host, lat: real, lng: real, calculationMethod: CalculationMethod,
                         timeZone: string, madhab: Madhab, tzOffset: Offset) {

    /**
     * `new Salah(options)`: latitudes above 60 degrees are refused (there is no
     * lower bound), omitted options default to the Muslim World League method,
     * America/Toronto and the Shafi madhab, and the zone's offset is read at the
     * top of the current hour `now` (with the corrected combination step of
     * `OffsetAt`); a zone Intl rejects throws.
     */
    static method New(host: Host, opts: SalahOptions, now: Instant) returns (r: Result<Salah, SalahError>)
      ensures opts.lat > 60.0 ==> r == Failure(HighLatitude)
      ensures var zone := opts.timeZone.GetOr(DefaultTimeZone);
              var offset := OffsetAt(host, zone, TopOfHour(host, now));
              && (opts.lat <= 60.0 && offset.Failure? ==> r == Failure(ZoneError(offset.error)))
              && (opts.lat <= 60.0 && offset.Success? ==>
                    r == Success(Salah(host, opts.lat, opts.lng, opts.calculationMethod.GetOr(MWL),
                                       zone, opts.madhab.GetOr(Shafi), offset.value)))
    {
      if opts.lat > 60.0 {
        return Failure(HighLatitude);
      }
      var zone := opts.timeZone.GetOr(DefaultTimeZone);
      var today := new Date(now);
      var offset := GetTimezoneOffset(host, zone, today);
      if offset.Failure? {
        return Failure(ZoneError(offset.error));
      }
      r := Success(Salah(host, opts.lat, opts.lng, opts.calculationMethod.GetOr(MWL),
                         zone, opts.madhab.GetOr(Shafi), offset.value));
    }

    /** `julian(date)`: the Julian Day of the date's local calendar day. */
    function Julian(date: Instant): real {
      var f := host.local(date);
      JulianDay(f.year, f.month + 1, f.day)
    }

    /** `zenith(jd)`: the local clock hour of solar noon; NaN when the offset is. */
    function Zenith(jd: real): Option<real> {
      match tzOffset
      case NotANumber => None
      case Hours(h) => Some(12.0 + h as real - lng / 15.0 - SunCoords(host, jd).0)
    }

    /**
     * The hour angle, in hours, at which the sun stands `angle` degrees below
     * the horizon on a day of declination `decl`.
     */
    function HorizonArc(angle: real, decl: real): Option<real> {
      ArcHours(host, ArcNumerator(angle, decl), ArcDenominator(decl))
    }

    /** The arccosine's numerator in `horizonHourAngle`: `-sin(angle) - sin(lat) sin(decl)`. */
    function ArcNumerator(angle: real, decl: real): real {
      -AngleMath.DSin(host, angle) - AngleMath.DSin(host, lat) * AngleMath.DSin(host, decl)
    }

    /** The arccosine's denominator in `horizonHourAngle` and `shadowLengthHour`: `cos(lat) cos(decl)`. */
    function ArcDenominator(decl: real): real {
      AngleMath.DCos(host, lat) * AngleMath.DCos(host, decl)
    }

    /**
     * `horizonHourAngle(angle, jd, direction)`: that hour angle before noon
     * (`direction` -1, the sunrise side) or after it (+1, the sunset side).
     */
    function HorizonHourAngle(angle: real, jd: real, direction: real): (r: Option<real>)
      requires direction == 1.0 || direction == -1.0
      ensures r.Some? <==> Zenith(jd).Some? && HorizonArc(angle, SunCoords(host, jd).1).Some?
      ensures AcosNonNegative(host) && r.Some? ==>
                if direction == 1.0 then r.value >= Zenith(jd).value else r.value <= Zenith(jd).value
    {
      match (Zenith(jd), HorizonArc(angle, SunCoords(host, jd).1))
      case (Some(z), Some(ta)) => Some(z + ta * direction)
      case _ => None
    }

    /**
     * `shadowLengthHour(length, jd)`: the afternoon hour at which a shadow is
     * `length` times its object plus its noon shadow.
     */
    function ShadowLengthHour(length: real, jd: real): (r: Option<real>)
      ensures r.Some? ==> Zenith(jd).Some?
      ensures AcosNonNegative(host) && r.Some? ==> r.value >= Zenith(jd).value
    {
      var decl := SunCoords(host, jd).1;
      var arc := ArcHours(host,
                          AngleMath.DSin(host, AngleMath.DAcot(host, length + AngleMath.DTan(host, lat - decl)))
                            - AngleMath.DSin(host, lat) * AngleMath.DSin(host, decl),
                          ArcDenominator(decl));
      match (Zenith(jd), arc)
      case (Some(z), Some(at)) => Some(z + at)
      case _ => None
    }

    /** Local midnight of the date's calendar day. */
    function MidnightOf(date: Instant): Instant {
      NaiveDate.FromDate(host, date).date
    }

    /** `hour2date(hour, date)`: `hour` hours after local midnight of `date`'s day. */
    function Hour2Date(hour: real, date: Instant): (r: Instant)
      ensures r - MidnightOf(date) == hour * MsPerHour
    {
      Duration.Add(NaiveDate.FromDate(host, date).date, Duration.FromHours(hour))
    }

    /** A fractional hour of `date`'s day as a `Date`; NaN gives the Invalid Date. */
    function AtHour(hour: Option<real>, date: Instant): (r: DateValue)
      ensures r.At? <==> hour.Some?
    {
      match hour
      case None => Invalid
      case Some(h) => At(Hour2Date(h, date))
    }

    function Fajr(date: Instant): DateValue {
      AtHour(HorizonHourAngle(calculationMethod.fajrParam, Julian(date), -1.0), date)
    }

    function Sunrise(date: Instant): DateValue {
      AtHour(HorizonHourAngle(0.833, Julian(date), -1.0), date)
    }

    function Dhuhr(date: Instant): DateValue {
      AtHour(Zenith(Julian(date)), date)
    }

    function Asr(date: Instant): DateValue {
      AtHour(ShadowLengthHour(madhab.Value(), Julian(date)), date)
    }

    function Maghrib(date: Instant): DateValue {
      AtHour(HorizonHourAngle(0.833, Julian(date), 1.0), date)
    }

    function Isha(date: Instant): DateValue {
      AtHour(HorizonHourAngle(calculationMethod.ishaParam, Julian(date), 1.0), date)
    }

    /** `new Date(year, month, day + 1)` of `date`'s local day. */
    function Tomorrow(date: Instant): Instant {
      var f := host.local(date);
      MakeDate(host, f.year, f.month, f.day + 1)
    }

    /** `midnight(date)`: halfway from today's maghrib to tomorrow's sunrise. */
    function Midnight(date: Instant): DateValue {
      match (Maghrib(date), Sunrise(Tomorrow(date)))
      case (At(sunset), At(sunrise)) =>
        var mid := Duration.FromDifference(sunset, sunrise).GetMilliseconds() / 2.0;
        At(Duration.Add(sunset, Duration(mid)))
      case _ => Invalid
    }

    /** `getTiming(name, date)`: `this[name](date)`. */
    function GetTiming(name: TimingName, date: Instant): DateValue {
      match name
      case Fajr => this.Fajr(date)
      case Sunrise => this.Sunrise(date)
      case Dhuhr => this.Dhuhr(date)
      case Asr => this.Asr(date)
      case Maghrib => this.Maghrib(date)
      case Isha => this.Isha(date)
      case Midnight => this.Midnight(date)
    }

    /**
     * `getTimings(names, date)`: with one date, every name at that date; with
     * an array of dates, names and dates in pairs, after a `RangeError` when
     * their lengths differ. Results keep the order of `names`.
     */
    method GetTimings(names: seq<TimingName>, date: Dates) returns (r: Result<seq<DateValue>, TimingsError>)
      ensures r.Failure? <==> date.Many? && |names| != |date.dates|
      ensures r.Success? ==>
                && |r.value| == |names|
                && forall i :: 0 <= i < |names| ==>
                     r.value[i] == GetTiming(names[i], if date.One? then date.date else date.dates[i])
    {
      if date.Many? {
        if |names| != |date.dates| {
          return Failure(SizeMismatch);
        }
        var dates := Pairwise((n: TimingName, d: Instant) => GetTiming(n, d), names, date.dates);
        return Success(dates);
      }
      var dates := Each((n: TimingName) => GetTiming(n, date.date), names);
      return Success(dates);
    }
  }

  /** The array-of-dates loop of `getTimings`: `f` of names and dates in pairs, in order. */
  method Pairwise<A, B, C>(f: (A, B) -> C, xs: seq<A>, ys: seq<B>) returns (zs: seq<C>)
    requires |xs| == |ys|
    ensures |zs| == |xs|
    ensures forall i :: 0 <= i < |xs| ==> zs[i] == f(xs[i], ys[i])
  {
    zs := [];
    for i := 0 to |xs|
      invariant |zs| == i
      invariant forall j :: 0 <= j < i ==> zs[j] == f(xs[j], ys[j])
    {
      var y := ys[i];
      var x := xs[i];
      zs := zs + [f(x, y)];
    }
  }

  /** The single-date loop of `getTimings`: `f` of every name, in order. */
  method Each<A, C>(f: A -> C, xs: seq<A>) returns (zs: seq<C>)
    ensures |zs| == |xs|
    ensures forall i :: 0 <= i < |xs| ==> zs[i] == f(xs[i])
  {
    zs := [];
    for i := 0 to |xs|
      invariant |zs| == i
      invariant forall j :: 0 <= j < i ==> zs[j] == f(xs[j])
    {
      zs := zs + [f(xs[i])];
    }
  }

  // ---------------------------------------------------------------------------
  // Properties of the timings

  /** `hour2date` is order-preserving and spaces hours exactly an hour of milliseconds apart. */
  lemma Hour2DateSpacing(s: Salah, h1: real, h2: real, date: Instant)
    ensures s.Hour2Date(h2, date) - s.Hour2Date(h1, date) == (h2 - h1) * MsPerHour
    ensures h1 <= h2 <==> s.Hour2Date(h1, date) <= s.Hour2Date(h2, date)
  {
    assert s.Hour2Date(h2, date) - s.Hour2Date(h1, date) == h2 * MsPerHour - h1 * MsPerHour;
  }

  /**
   * Where the host can build midnight of `date`'s day, `hour2date(h, date)`
   * reads as that day, and an hour within the day reads as that hour of it.
   */
  lemma Hour2DateOnDay(s: Salah, date: Instant)
    requires RoundTrips(s.host, s.host.local(date).(hours := 0, minutes := 0, seconds := 0, ms := 0))
    ensures var f := s.host.local(s.MidnightOf(date));
            f.year == s.host.local(date).year && f.month == s.host.local(date).month
            && f.day == s.host.local(date).day && f.hours == 0 && f.minutes == 0
    ensures s.Hour2Date(0.0, date) == s.MidnightOf(date)
  {
  }

  /**
   * The Islamic midnight lies exactly halfway between today's maghrib and
   * tomorrow's sunrise, so between the two; it is a valid date exactly when
   * both are.
   */
  lemma MidnightIsMidpoint(s: Salah, date: Instant)
    ensures s.Midnight(date).At? <==> s.Maghrib(date).At? && s.Sunrise(s.Tomorrow(date)).At?
    ensures s.Midnight(date).At? ==>
              var sunset := s.Maghrib(date).time;
              var sunrise := s.Sunrise(s.Tomorrow(date)).time;
              var mid := s.Midnight(date).time;
              && mid - sunset == sunrise - mid
              && (sunset <= sunrise ==> sunset <= mid <= sunrise)
  {
  }

  /**
   * With a non-negative arccosine, the day runs in order around noon:
   * fajr and sunrise no later than dhuhr, and asr, maghrib and isha no earlier.
   */
  lemma NoonSplitsTheDay(s: Salah, date: Instant)
    requires AcosNonNegative(s.host)
    ensures NotAfter(s.GetTiming(Fajr, date), s.GetTiming(Dhuhr, date))
    ensures NotAfter(s.GetTiming(Sunrise, date), s.GetTiming(Dhuhr, date))
    ensures NotAfter(s.GetTiming(Dhuhr, date), s.GetTiming(Asr, date))
    ensures NotAfter(s.GetTiming(Dhuhr, date), s.GetTiming(Maghrib, date))
    ensures NotAfter(s.GetTiming(Dhuhr, date), s.GetTiming(Isha, date))
  {
    var jd := s.Julian(date);
    if s.Zenith(jd).Some? {
      var z := s.Zenith(jd).value;
      var fajr := s.HorizonHourAngle(s.calculationMethod.fajrParam, jd, -1.0);
      if fajr.Some? { Hour2DateSpacing(s, fajr.value, z, date); }
      var sunrise := s.HorizonHourAngle(0.833, jd, -1.0);
      if sunrise.Some? { Hour2DateSpacing(s, sunrise.value, z, date); }
      var asr := s.ShadowLengthHour(s.madhab.Value(), jd);
      if asr.Some? { Hour2DateSpacing(s, z, asr.value, date); }
      var maghrib := s.HorizonHourAngle(0.833, jd, 1.0);
      if maghrib.Some? { Hour2DateSpacing(s, z, maghrib.value, date); }
      var isha := s.HorizonHourAngle(s.calculationMethod.ishaParam, jd, 1.0);
      if isha.Some? { Hour2DateSpacing(s, z, isha.value, date); }
    }
  }

  /** `(1 / 15) * acos(n / den)` shrinks as `n` grows, over the domain of the arccosine. */
  lemma ArcHoursDecreasing(host: Host, n1: real, n2: real, den: real)
    requires AcosDecreasing(host)
    requires den > 0.0 && -den <= n1 <= n2 <= den
    ensures ArcHours(host, n1, den).Some? && ArcHours(host, n2, den).Some?
    ensures ArcHours(host, n1, den).value >= ArcHours(host, n2, den).value
  {
    var x, y := n1 / den, n2 / den;
    assert -1.0 <= x <= y <= 1.0 by {
      assert x * den == n1 && y * den == n2;
      if x < -1.0 {
        AngleMath.MulLeftStrict(x, -1.0, den);
      }
      if x > y {
        AngleMath.MulLeftStrict(y, x, den);
      }
      if y > 1.0 {
        AngleMath.MulLeftStrict(1.0, y, den);
      }
    }
    assert AcosOrdered(host, x, y);
    var ax, ay := host.acos(x), host.acos(y);
    AngleMath.MulLeftMono(ay, ax, 180.0 / AngleMath.PI);
  }

  /**
   * A deeper angle below the horizon is reached further from noon: when the
   * sine of `deeper` is at least that of `shallower`, the denominator is
   * positive and both arccosine arguments lie in [-1, 1], the hour angle of
   * `deeper` is at least that of `shallower`.
   */
  lemma DeeperAngleWiderArc(s: Salah, deeper: real, shallower: real, decl: real)
    requires AcosDecreasing(s.host)
    requires AngleMath.DSin(s.host, deeper) >= AngleMath.DSin(s.host, shallower)
    requires InReach(s, deeper, shallower, decl)
    ensures s.HorizonArc(deeper, decl).Some? && s.HorizonArc(shallower, decl).Some?
    ensures s.HorizonArc(deeper, decl).value >= s.HorizonArc(shallower, decl).value
  {
    ArcHoursDecreasing(s.host, s.ArcNumerator(deeper, decl), s.ArcNumerator(shallower, decl), s.ArcDenominator(decl));
  }

  /**
   * On a day of declination `decl`, the sun reaches `deeper` below the horizon
   * and `shallower` above its lowest point: both arccosine arguments lie in
   * [-1, 1], with a positive denominator.
   */
  ghost predicate InReach(s: Salah, deeper: real, shallower: real, decl: real) {
    && s.ArcDenominator(decl) > 0.0
    && -s.ArcDenominator(decl) <= s.ArcNumerator(deeper, decl)
    && s.ArcNumerator(shallower, decl) <= s.ArcDenominator(decl)
  }

  /**
   * Fajr comes no later than sunrise, and isha no earlier than maghrib, on any
   * day when the sun dips to the method's twilight angles, those angles lie
   * below the horizon angle of sunrise and sunset, and the arccosine decreases.
   */
  lemma TwilightOutsideDaylight(s: Salah, date: Instant)
    requires AcosDecreasing(s.host)
    requires AngleMath.DSin(s.host, s.calculationMethod.fajrParam) >= AngleMath.DSin(s.host, 0.833)
    requires AngleMath.DSin(s.host, s.calculationMethod.ishaParam) >= AngleMath.DSin(s.host, 0.833)
    requires InReach(s, s.calculationMethod.fajrParam, 0.833, SunCoords(s.host, s.Julian(date)).1)
    requires InReach(s, s.calculationMethod.ishaParam, 0.833, SunCoords(s.host, s.Julian(date)).1)
    ensures NotAfter(s.GetTiming(Fajr, date), s.GetTiming(Sunrise, date))
    ensures NotAfter(s.GetTiming(Maghrib, date), s.GetTiming(Isha, date))
  {
    var jd := s.Julian(date);
    var decl := SunCoords(s.host, jd).1;
    DeeperAngleWiderArc(s, s.calculationMethod.fajrParam, 0.833, decl);
    DeeperAngleWiderArc(s, s.calculationMethod.ishaParam, 0.833, decl);
    if s.Zenith(jd).Some? {
      var z := s.Zenith(jd).value;
      var fa, sa := s.HorizonArc(s.calculationMethod.fajrParam, decl).value, s.HorizonArc(0.833, decl).value;
      var ia := s.HorizonArc(s.calculationMethod.ishaParam, decl).value;
      Hour2DateSpacing(s, z - fa, z - sa, date);
      Hour2DateSpacing(s, z + sa, z + ia, date);
    }
  }
}
