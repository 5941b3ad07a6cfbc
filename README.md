# Prayer times — a Dafny model of the calculation core

This project models the core of a GraphQL service that computes Islamic prayer
times (fajr, sunrise, dhuhr, asr, maghrib, isha and the Islamic midnight) for a
location, a calculation method and a madhab. The model covers:

- `math.ts` (module `AngleMath`): `normalize`, `normalizeAngle`, the degree and
  radian conversions and the degree-based trigonometric wrappers of `DMath`.
- `Duration.ts` (module `Durations`): the millisecond `Duration` value with its
  getters, factories, `fromDifference` and `add`.
- `time.ts` (module `Time`): `normalizeHour`, `getTimezoneOffset` (the date
  object it truncates in place is a class `Time.Date`), `timezoneConvert`
  (parsing the `en-US` formatter output), `dateRange` (a method with a loop,
  proved against the range function `Time.RangeOf`) and `NaiveDate`.
- `Salah.ts` (module `Salah`): the method and timing names, the method
  registry, the madhab, the `Salah` calculator with its constructor guard and
  defaults, `julian`, `sunCoords`, `zenith`, `horizonHourAngle`,
  `shadowLengthHour`, `hour2date`, the seven timings, `getTiming` and
  `getTimings` (a method with the source's two loops).
- The validators `IsISO8601`, `OnlyWith`, `OnlyWithout`, `IsStringUnion` and
  `ArrayIsStringUnion` (one module each), and `DateInput` with its declared
  constraints and its `date` getter (module `DateInputs`).

The JavaScript runtime is a parameter. `JsHost.Host` bundles `Math`'s
trigonometric functions, the local and UTC calendar readings of an instant,
`new Date(y, m, d, h, min, s)` in the local zone, and the `Intl` formatter with
its zone check. Every result that depends on them is stated in terms of the
host, and where a property needs something of it (an arc cosine that is
non-negative or decreasing, a calendar reading that round-trips) that is a
named predicate in the lemma's `requires`. `JsText` models the parts of
`String.prototype.split` and `parseInt` the core uses, and `JsValues` models
the JavaScript values the validators inspect (truthiness, `undefined`/`null`,
`String(value)`).

Numbers are exact reals and timestamps are real milliseconds since the epoch.
Where the source's control flow depends on `NaN`, it is explicit:
- `parseInt` returns `Option<int>`.
- An Invalid Date is `JsHost.DateValue.Invalid`.
- A time-zone offset that cannot be read is `Time.Offset.NotANumber`.
- An hour whose arc-cosine argument divides by zero is `None`.

## Model

| member | source | states |
|---|---|---|
| AngleMath.Normalize | src/utils/math.ts:10-17 | the result differs from the value by a whole number of `max` turns |
| AngleMath.NormalizeIsFlooredMod | src/utils/math.ts:10-17 | for a positive `max`, JavaScript's truncating `%` plus the negative correction equals the floored modulus |
| AngleMath.NormalizeInRange | src/utils/math.ts:3-17 | for a positive `max`, the result lies in `[0, max)` |
| AngleMath.NormalizeFixesRange | src/utils/math.ts:10-17 | a value already in `[0, max)` is returned unchanged |
| AngleMath.NormalizeIdempotent | src/utils/math.ts:10-17 | normalizing twice equals normalizing once |
| AngleMath.NormalizeExamples | src/utils/math.ts:10-17 | 450 normalizes to 90 and −33 normalizes to 327 modulo 360 |
| AngleMath.NormalizeAngle | src/utils/math.ts:46-54 | an angle is brought into `[0, 360)` and equals its floored modulus by 360 |
| AngleMath.Rad2Deg | src/utils/math.ts:26-28 | `rad * 180 / π`, the definition `ConversionsRoundTrip` inverts |
| AngleMath.Deg2Rad | src/utils/math.ts:37-39 | `deg * π / 180` |
| AngleMath.DSin | src/utils/math.ts:63-65 | the host's sine of the angle converted to radians |
| AngleMath.DCos | src/utils/math.ts:73-75 | the host's cosine of the angle converted to radians |
| AngleMath.DTan | src/utils/math.ts:83-85 | the host's tangent of the angle converted to radians |
| AngleMath.DAtan2 | src/utils/math.ts:93-95 | the host's `atan2`, converted to degrees |
| AngleMath.DAsin | src/utils/math.ts:103-105 | the host's arc sine, converted to degrees |
| AngleMath.DAcos | src/utils/math.ts:113-115 | the host's arc cosine, converted to degrees |
| AngleMath.DAtan | src/utils/math.ts:123-125 | the host's arc tangent, converted to degrees |
| AngleMath.DAcot | src/utils/math.ts:133-135 | the arc tangent of `1 / x`, converted to degrees |
| AngleMath.ConversionsRoundTrip | src/utils/math.ts:26-39 | `rad2deg` and `deg2rad` are inverse to each other and keep signs |
| Durations.Duration.GetMilliseconds | src/utils/Duration.ts:16-18 | the duration is exactly its millisecond count |
| Durations.Duration.GetSeconds | src/utils/Duration.ts:23-25 | seconds times 1000 give the milliseconds |
| Durations.Duration.GetMinutes | src/utils/Duration.ts:30-32 | minutes times 60000 give the milliseconds |
| Durations.Duration.GetHours | src/utils/Duration.ts:37-39 | hours times 3600000 give the milliseconds |
| Durations.Duration.GetDays | src/utils/Duration.ts:44-46 | days times 86400000 give the milliseconds |
| Durations.Duration.FromHours | src/utils/Duration.ts:54-57 | `getHours` of the result gives the hours back |
| Durations.Duration.FromMinutes | src/utils/Duration.ts:64-67 | `getMinutes` of the result gives the minutes back |
| Durations.Duration.FromSeconds | src/utils/Duration.ts:74-77 | `getSeconds` of the result gives the seconds back |
| Durations.Duration.FromMilliseconds | src/utils/Duration.ts:84-86 | `getMilliseconds` of the result gives the milliseconds back |
| Durations.Duration.FromDifference | src/utils/Duration.ts:95-98 | adding the difference to `a` gives `b`; it is non-negative iff `a <= b` |
| Durations.Duration.Add | src/utils/Duration.ts:107-109 | the result lies exactly the duration's milliseconds after the date |
| Durations.ZeroIsEmpty | src/utils/Duration.ts:8-10 | the default duration is zero in every unit, and adding it changes nothing |
| Durations.FromDifferenceAntisymmetric | src/utils/Duration.ts:95-98 | swapping the dates negates the difference; a date minus itself is zero |
| Durations.DifferenceOfAdd | src/utils/Duration.ts:95-109 | the difference between a date and the date plus `d` is `d` |
| Durations.AddAdditive | src/utils/Duration.ts:107-109 | adding `x` then `y` equals adding their sum |
| Durations.AddMonotone | src/utils/Duration.ts:107-109 | adding the same duration preserves the order of dates |
| Durations.AddOneDay | src/utils/Duration.ts:54-57 | `fromHours(24)` moves a date by 86400000 ms, which is one day by `getDays` |
| Time.NormalizeHour | src/utils/time.ts:9-11 | the hour is brought into `[0, 24)` by whole days |
| Time.Date.constructor | src/utils/time.ts:24-27 | the date object holds the given instant |
| Time.Date.SetMinutes | src/utils/time.ts:28 | the local minutes are replaced in place and the other fields are kept |
| Time.Date.SetSeconds | src/utils/time.ts:29 | the local seconds are replaced in place and the other fields are kept |
| Time.Date.SetMilliseconds | src/utils/time.ts:30 | the local milliseconds are replaced in place and the other fields are kept |
| Time.TopOfHourFields | src/utils/time.ts:28-30 | the three setters leave the local reading at the start of its hour |
| Time.TopOfHour | src/utils/time.ts:28-30 | the instant the three setters leave: the local reading with minutes, seconds and milliseconds zeroed |
| Time.TimezoneConvert | src/utils/time.ts:58-82 | an unknown zone fails, a formatter output without a time part fails, otherwise the local date of the parsed reading |
| Time.SplitFormatted | src/utils/time.ts:70-72 | splitting the formatter's output at `", "` yields the date part and the time part |
| Time.ReadingOfNumerals | src/utils/time.ts:73-80 | the six numerals parse back to their values, and hour 24 reads as 0 |
| Time.ParseFormattedReading | src/utils/time.ts:70-80 | a well-formed `MM/DD/YYYY, hh:mm:ss` string parses to its six fields, with hour 24 read as 0 |
| Time.TimezoneConvertReading | src/utils/time.ts:58-82 | in a known zone the result is the local date built from the zone's wall-clock reading, with month − 1 and hour 24 as 0 |
| Time.CombineOffsetAsWritten | src/utils/time.ts:43-55 | the source's combination step: a day difference beyond one is replaced by its sign; the result is within ±47 h |
| Time.CombineOffsetAsWrittenWithinMonth | src/utils/time.ts:43-55 | when both readings fall in the same month, the source's combination recovers the true offset |
| Time.CombineOffsetAsWrittenMonthEnd | src/utils/time.ts:50-53 | at UTC Jan 31 22:00 in a UTC+5 zone, the source's combination gives −43 while the corrected one gives 5 |
| Time.CombineOffset | src/utils/time.ts:43-55 | the corrected combination agrees with the source's whenever the day difference is at most one |
| Time.CombineOffsetRecovers | src/utils/time.ts:43-55 | for any whole-hour offset within ±23 h and month lengths of 28–31 days, the corrected combination of the shifted reading returns that offset |
| Time.OffsetWith | src/utils/time.ts:19-56 | the offset read at an instant: the converted zone reading and the UTC reading, joined by a given combination step |
| Time.OffsetAtAsWritten | src/utils/time.ts:19-56 | the offset as the source computes it, with the `Math.sign` clamp |
| Time.OffsetAt | src/utils/time.ts:19-56 | the offset with the corrected combination step, which the rest of the model uses |
| Time.GetTimezoneOffset | src/utils/time.ts:19-56 | the date passed in is truncated to its hour in place, and the result is `OffsetAt` at that hour: the corrected combination, which differs from the source only when the two readings fall in different months |
| Time.OffsetAtRecovers | src/utils/time.ts:19-56 | with the corrected step: when the zone's formatter shows the wall clock `offset` hours ahead of UTC, the offset read is exactly `offset`, across month ends too |
| Time.OffsetAtAsWrittenWithinMonth | src/utils/time.ts:19-56 | as the source computes it: the offset read is exactly `offset` when the zone's and UTC's days lie in the same month |
| Time.OffsetAtAsWrittenAcrossMonths | src/utils/time.ts:19-56 | as the source computes it: when the zone's and UTC's days lie in different months, the offset read is `offset ± 48` h, too late when the zone's day number is the larger |
| Time.StepsBeforeEnd | src/utils/time.ts:113 | `j` steps stay before the end iff `j` is below the ceiling of span/step |
| Time.RangeOf | src/utils/time.ts:111-119 | `start`, every whole step after it still before `end`, then `end` |
| Time.DateRange | src/utils/time.ts:93-120 | the three error cases hold exactly when the source throws them; otherwise the result is the inclusive range of `RangeOf` |
| Time.RangeEnds | src/utils/time.ts:84-120 | the range has at least two dates, starts at `start` and ends at `end` |
| Time.RangeGaps | src/utils/time.ts:84-120 | consecutive dates are exactly one step apart except the last gap, which is positive and at most one step |
| Time.RangeIncreasing | src/utils/time.ts:111-119 | the dates are strictly increasing |
| Time.NonPositiveStepNeverEnds | src/utils/time.ts:111-117 | with a step of zero or less, the loop test still holds after any number of iterations |
| Time.RangeExamples | src/utils/time.ts:93-120 | two days by one day gives 3 dates with the middle one a day later; one day by one hour gives 25 dates |
| Time.NaiveDate.New | src/utils/time.ts:127-129 | for a reading that round-trips, the date is local midnight of the given year, month and day |
| Time.NaiveDate.FromDate | src/utils/time.ts:131-137 | the result is local midnight of the date's own day |
| Time.FromDateIdempotent | src/utils/time.ts:131-137 | taking the naive date of a naive date changes nothing |
| Salah.MethodNamesRegistered | src/utils/Salah.ts:30-61 | a string is a method name iff some registered calculation method has it as its id |
| Salah.IsMethodName | src/utils/Salah.ts:34-37 | membership in the registered method ids `MWL`, `ISNA`, `Egypt` |
| Salah.TimingName.Text | src/utils/Salah.ts:68-78 | every timing name's text passes `isTimingName` |
| Salah.TimingNamesExactly | src/utils/Salah.ts:68-83 | `isTimingName` accepts exactly the texts of the seven timing names, and distinct names have distinct texts |
| Salah.IsTimingName | src/utils/Salah.ts:80-83 | membership in the seven timing names |
| Salah.JulianDay | src/utils/Salah.ts:113-133 | the Julian Date of a civil date, January and February counted as months 13 and 14 of the year before |
| Salah.JulianDayHalf | src/utils/Salah.ts:113-133 | the Julian Date of a civil date is its integer Julian Day Number minus one half |
| Salah.JulianDayJ2000 | src/utils/Salah.ts:113-133 | 2000-01-01 at 0h is Julian Date 2451544.5, half a day before the J2000 epoch used by `sunCoords` |
| Salah.MonthLengths | src/utils/Salah.ts:113-133 | the first days of consecutive months are the Gregorian month length apart, across leap years and year ends |
| Salah.MonthLengthsInDays | src/utils/Salah.ts:113-133 | the same month-length fact for the integer Julian Day Number |
| Salah.YearTermLeap | src/utils/Salah.ts:123-131 | the year term of the day count grows by 366 across a Gregorian leap day and by 365 otherwise |
| Salah.NextDay | src/utils/Salah.ts:113-133 | consecutive days of a month are exactly one Julian day apart |
| Salah.SunCoords | src/utils/Salah.ts:143-174 | the equation of time lies within ±24 h |
| Salah.Salah.Zenith | src/utils/Salah.ts:181-184 | `12 + tzOffset − lng / 15 − eqt`, `None` (NaN) when the stored offset is NaN |
| Salah.ArcHours | src/utils/Salah.ts:200-205 | the hour arc exists iff the denominator is non-zero, and it is non-negative when the host's `acos` is |
| Salah.Salah.New | src/utils/Salah.ts:92-105 | latitudes above 60 fail; otherwise an unknown zone fails, and success carries the MWL, America/Toronto and Shafi defaults and the zone's offset at the top of the current hour, combined with the corrected step |
| Salah.Salah.HorizonHourAngle | src/utils/Salah.ts:193-207 | the hour is defined iff the zenith and the arc are; with a non-negative `acos`, direction 1 lies after the zenith and −1 before it |
| Salah.Salah.ShadowLengthHour | src/utils/Salah.ts:215-225 | the shadow hour needs the zenith, and with a non-negative `acos` it lies after it |
| Salah.Salah.Hour2Date | src/utils/Salah.ts:233-237 | the result lies exactly `hour` hours after local midnight of the date |
| Salah.Salah.AtHour | src/utils/Salah.ts:233-237 | the time is a valid date iff its hour is a number |
| Salah.Salah.Fajr | src/utils/Salah.ts:244-249 | the horizon hour at the method's fajr angle, on the sunrise side |
| Salah.Salah.Sunrise | src/utils/Salah.ts:256-260 | the horizon hour at 0.833 degrees, on the sunrise side |
| Salah.Salah.Dhuhr | src/utils/Salah.ts:267-271 | the zenith hour |
| Salah.Salah.Asr | src/utils/Salah.ts:278-282 | the shadow-length hour for the madhab's shadow factor |
| Salah.Salah.Maghrib | src/utils/Salah.ts:289-293 | the horizon hour at 0.833 degrees, on the sunset side |
| Salah.Salah.Isha | src/utils/Salah.ts:300-305 | the horizon hour at the method's isha angle, on the sunset side |
| Salah.Salah.Midnight | src/utils/Salah.ts:312-327 | halfway from today's maghrib to tomorrow's sunrise |
| Salah.Salah.GetTiming | src/utils/Salah.ts:335-337 | dispatches on the timing name to the seven timings |
| Salah.Salah.GetTimings | src/utils/Salah.ts:346-368 | a range error iff dates are an array of another length; otherwise entry `i` is `getTiming` of name `i` for the single date or for date `i` |
| Salah.Pairwise | src/utils/Salah.ts:351-360 | the array-of-dates loop: the result has one entry per name, entry `i` computed from name `i` and date `i` |
| Salah.Each | src/utils/Salah.ts:361-365 | the single-date loop: the result has one entry per name, in the order of the names |
| Salah.Hour2DateSpacing | src/utils/Salah.ts:233-237 | two hours on one date are their difference in hours apart, in the same order |
| Salah.Hour2DateOnDay | src/utils/Salah.ts:233-237 | hour 0 is local midnight of the same calendar day |
| Salah.MidnightIsMidpoint | src/utils/Salah.ts:312-327 | midnight is defined iff sunset today and sunrise tomorrow are, and it lies halfway between them |
| Salah.NoonSplitsTheDay | src/utils/Salah.ts:244-305 | with a non-negative `acos`, fajr and sunrise come no later than dhuhr, and asr, maghrib and isha no earlier |
| Salah.ArcHoursDecreasing | src/utils/Salah.ts:200-205 | with a decreasing `acos`, a smaller numerator over the same positive denominator gives a longer arc |
| Salah.DeeperAngleWiderArc | src/utils/Salah.ts:193-207 | a sun angle with a larger sine lies farther from the zenith |
| Salah.TwilightOutsideDaylight | src/utils/Salah.ts:244-305 | when the method's fajr and isha angles are deeper than the 0.833° horizon, fajr comes no later than sunrise and isha no earlier than maghrib |
| IsISO8601.DateFields | src/validation/IsISO8601.ts:22 | a `YYYY-MM-DD` text splits at `-` into its three numerals |
| IsISO8601.TimeFields | src/validation/IsISO8601.ts:31 | an `hh:mm:ss` text splits at `:` into its three numerals |
| IsISO8601.Validate | src/validation/IsISO8601.ts:19-42 | split at spaces; a non-empty date that passes, and a time that passes when present |
| IsISO8601.ValidDate | src/validation/IsISO8601.ts:22-28 | year, month and day parse, month and day non-zero, month 1–12, day 1–31 |
| IsISO8601.ValidTime | src/validation/IsISO8601.ts:31-38 | hour, minute and second parse, hour 0–24, minute and second 0–59 |
| IsISO8601.DateOnly | src/validation/IsISO8601.ts:19-42 | a date without a time is accepted iff the month is 1–12 and the day is 1–31 |
| IsISO8601.ValidateDateOnly | src/validation/IsISO8601.ts:19-42 | a value without a space is accepted iff it is non-empty and its date fields pass |
| IsISO8601.ValidateDateTime | src/validation/IsISO8601.ts:19-42 | a value with one space is accepted iff the date is non-empty and valid, and a non-empty time is valid |
| IsISO8601.ValidDateOf | src/validation/IsISO8601.ts:22-28 | the date fields of a numeral date pass iff the month is 1–12 and the day is 1–31 |
| IsISO8601.ValidDateOfParsed | src/validation/IsISO8601.ts:22-28 | fields that all parse pass iff the month is 1–12 and the day is 1–31 |
| IsISO8601.RejectsUnreadableDate | src/validation/IsISO8601.ts:22-25 | a year, month or day that `parseInt` cannot read, or a zero month or day, rejects the date |
| IsISO8601.ValidTimeOfParsed | src/validation/IsISO8601.ts:31-38 | time fields that all parse pass iff the hour is 0–24 and the minute and second are 0–59 |
| IsISO8601.ValidTimeOf | src/validation/IsISO8601.ts:31-38 | numeral time fields pass iff the hour is at most 24 and the minute and second at most 59 |
| IsISO8601.AcceptsFebruary31 | src/validation/IsISO8601.ts:27-28 | `2024-02-31` is accepted, because the day is checked against 31 only |
| IsISO8601.DateAndTime | src/validation/IsISO8601.ts:19-42 | a valid date with a full time is accepted iff the hour is at most 24 and the minute and second at most 59 |
| IsISO8601.RejectsMissingSecond | src/validation/IsISO8601.ts:31-34 | a time without seconds is rejected |
| IsISO8601.RejectsEmptyDate | src/validation/IsISO8601.ts:20-21 | the empty string and a string starting with a space are rejected |
| IsISO8601.IgnoresAfterSecondSpace | src/validation/IsISO8601.ts:20 | anything after a second space is ignored |
| IsISO8601.AcceptsTrailingText | src/validation/IsISO8601.ts:22-23 | a year followed by letters (`2024AD-01-05`) is accepted, because `parseInt` stops at the first non-digit |
| IsISO8601.TrailingTextSplits | src/validation/IsISO8601.ts:20-22 | such a string has no space and splits into the lettered year, the month and the day |
| IsISO8601.TrailingTextParses | src/validation/IsISO8601.ts:22-28 | its date fields pass |
| OnlyWith.Validate | src/validation/OnlyWith.ts:20-32 | every named property (list form), or the one named property, is neither `undefined` nor `null` |
| OnlyWith.ListForm | src/validation/OnlyWith.ts:22-27 | the list form fails iff some named property is missing, `undefined` or `null` |
| OnlyWith.SingleForm | src/validation/OnlyWith.ts:28-31 | the single form passes iff the named property is present and neither `undefined` nor `null` |
| OnlyWith.ListOfOne | src/validation/OnlyWith.ts:20-32 | a one-name list behaves like the single name, and an empty list always passes |
| OnlyWith.IgnoresValue | src/validation/OnlyWith.ts:20-32 | the decorated property's own value plays no part |
| OnlyWith.FalsyCountsAsPresent | src/validation/OnlyWith.ts:20-32 | a related property holding 0, "", false or NaN counts as defined |
| OnlyWith.ListIsEveryName | src/validation/OnlyWith.ts:22-32 | the list form passes iff the single form passes for every name |
| OnlyWithout.Validate | src/validation/OnlyWithout.ts:19-31 | a missing value passes; otherwise no named property is truthy (list form), or the named property is `undefined` or `null` |
| OnlyWithout.MissingValuePasses | src/validation/OnlyWithout.ts:20 | an `undefined` or `null` value always passes |
| OnlyWithout.ListForm | src/validation/OnlyWithout.ts:22-27 | for a defined value, the list form fails iff some named property is truthy; an empty list passes |
| OnlyWithout.SingleForm | src/validation/OnlyWithout.ts:28-31 | for a defined value, the single form passes iff the property is missing, `undefined` or `null` |
| OnlyWithout.ListAndSingleDisagree | src/validation/OnlyWithout.ts:22-31 | a falsy but defined related property passes the list form and fails the single form |
| OnlyWithout.ListAndSingleAgree | src/validation/OnlyWithout.ts:20-31 | for a related property that is truthy or not defined, the two forms agree |
| IsStringUnion.IsStringUnion | src/validation/IsStringUnion.ts:21-24 | a string that the union's checker accepts |
| IsStringUnion.ArrayIsStringUnion | src/validation/IsStringUnion.ts:42-49 | an array whose every element is such a string |
| IsStringUnion.ArrayMessage | src/validation/IsStringUnion.ts:50-54 | the message quoting the first failing element, `undefined` when none fails |
| IsStringUnion.FirstFailing | src/validation/IsStringUnion.ts:52 | the index found is the first element that is not a string satisfying the check; none iff all satisfy it |
| IsStringUnion.NonStringRejected | src/validation/IsStringUnion.ts:21-24 | a non-string is rejected whatever the type check |
| IsStringUnion.ArrayOfOne | src/validation/IsStringUnion.ts:42-49 | a one-element array passes iff its element passes `IsStringUnion`; an empty array passes; a non-array fails |
| IsStringUnion.MessageNamesFirstFailure | src/validation/IsStringUnion.ts:50-54 | for a failing array, the message quotes the first failing element |
| IsStringUnion.ArrayIsEveryElement | src/validation/IsStringUnion.ts:42-49 | an array passes iff every element passes `IsStringUnion` |
| DateInputs.Rules | src/inputs/DateInput.ts:12-33 | the validators each field declares |
| DateInputs.Valid | src/inputs/DateInput.ts:12-33 | every present field passes every rule it declares |
| DateInputs.Date | src/inputs/DateInput.ts:35-45 | the three components when all are truthy, else the string's fields, else now |
| DateInputs.ComponentsFirst | src/inputs/DateInput.ts:35-38 | non-zero year, month and day give the local date with month − 1, whatever the string |
| DateInputs.ZeroFallsThrough | src/inputs/DateInput.ts:36-45 | a zero component is ignored as falsy, and with no string the result is the current time |
| DateInputs.StringRoundTrip | src/inputs/DateInput.ts:39-43 | a `YYYY-MM-DD` string alone gives the local date of its year, month − 1 and day |
| DateInputs.FieldsDateOf | src/inputs/DateInput.ts:40-43 | string fields that parse give the local date of the parsed values |
| DateInputs.ValidRanges | src/inputs/DateInput.ts:17-28 | a valid input's month is 1–12 and its day 1–31 |
| DateInputs.ValidFormsExclusive | src/inputs/DateInput.ts:7-33 | a valid input with any component has all three and no string |
| DateInputs.DayIgnoresString | src/inputs/DateInput.ts:12-33 | `day` carries no `OnlyWithout("string")`, while `year` and `month` reject a string beside them |
| DateInputs.ValidComponentsGiveDate | src/inputs/DateInput.ts:12-38 | a valid input with a non-zero year gives the local date of its components, all in range |
| DateInputs.ValidZeroYearGivesNow | src/inputs/DateInput.ts:12-45 | a valid input with year 0 gives the current time |
| DateInputs.ValidStringGivesDate | src/inputs/DateInput.ts:30-44 | a valid string input without spaces parses to a month 1–12 and a day 1–31, and gives their local date |
| JsText.Split | src/utils/time.ts:72 | `String.prototype.split` with a string separator |
| JsText.ParseInt | src/validation/IsISO8601.ts:22 | `parseInt` without a radix: white space, sign, `0x` prefix, then the longest digit run; NaN when there is none |
| JsText.SplitJoin | src/utils/time.ts:72-78 | joining the pieces of a split with the separator gives the string back |
| JsText.ParseShowNat | src/utils/time.ts:73-78 | `parseInt` of a decimal numeral followed by a non-numeral gives its value |
| JsText.ParsePad2 | src/utils/time.ts:73-78 | `parseInt` of a two-digit numeral followed by a non-numeral gives its value |
| JsText.SplitThree | src/validation/IsISO8601.ts:22 | three numerals joined by a non-digit separator split back into the three |

## Left out

- Floating point: numbers are exact reals. Rounding, overflow to `Infinity` and
  the `NaN` produced by `Math.acos` outside [−1, 1] are not modelled, because
  the host's `acos` is a total function on reals. Only the `NaN` from a zero
  denominator and from an unreadable offset is carried.
- Trigonometry, the calendar readings of `Date`, `new Date(...)` in the local
  zone (including JavaScript's rule that years 0–99 mean 1900–1999) and
  `Intl.DateTimeFormat` come from the host parameter. Their correctness is an
  assumption about the runtime, named as a predicate wherever a lemma needs it.
- The current time (`new Date()` in `getTimezoneOffset`, the `Salah`
  constructor and `DateInput.date`) is a parameter `now`.
- The `console.log` calls in `timezoneConvert` are left out.
- The `Duration` alternative of `fajrParam`/`ishaParam` is not modelled. The
  source casts both to `number`, and every registered method uses a number.
- Time.DateRange: requires a positive step when `start < end`. With a step of
  zero or less that passes the size check, the source loops forever
  (`Time.NonPositiveStepNeverEnds`); the source does not say what it means
  such a step to do, so no corrected behaviour is modelled.
- Time.GetTimezoneOffset: combines the two readings with the corrected step
  `CombineOffset`, not the source's `Math.sign` clamp. When the zone's day and
  UTC's day fall in different months, the source's result is 48 h off
  (`Time.OffsetAtAsWrittenAcrossMonths`); `Time.OffsetAtAsWritten` models the
  source's value.
- Time.OffsetAtRecovers: is proved for the corrected step. For the source as
  written, recovery holds only while both readings share a month
  (`Time.OffsetAtAsWrittenWithinMonth`).
- Salah.Salah.New: stores the corrected offset. The source stores
  `getTimezoneOffset`'s value, 48 h off when the constructor runs in the hours
  around a month end where the zone's day and UTC's day differ.
- IsISO8601.Validate takes a string. The decorator's `value.split` on a
  non-string throws, and that is not modelled.
- DateInputs.Valid assumes the GraphQL layer's `skipMissingProperties`: a field
  that is `undefined` or `null` skips its validators.
- Time.TimezoneConvertReading: only covers formatter output of the
  `MM/DD/YYYY, hh:mm:ss` shape; other output is covered by the general
  `Time.ConvertParsed`.
- Salah.NoonSplitsTheDay, Salah.TwilightOutsideDaylight: hold under named
  assumptions about the host's `acos` and the method's angles, because the
  trigonometry itself is not modelled.
- The GraphQL resolvers, the remaining input types, the server set-up and
  `LocationInput`/`CalculationInput` are not part of this model.

## Findings

| source | as written | input that shows it | evidently intended | confidence | as-written member | corrected member |
|---|---|---|---|---|---|---|
| src/utils/time.ts:50-53 | a day difference of more than one (a month boundary) is replaced by `Math.sign(daysDiff)` | UTC Jan 31 22:00 with a UTC+5 zone: the zone reads Feb 1 03:00, `daysDiff` is −30 and is clamped to −1, and the offset comes out −43 h | the wall clock crossed into the next month, so the day shift is −sign(daysDiff) and the offset is 5 h; `Time.GetTimezoneOffset` and `Salah.Salah.New` use the corrected step | not executed | Time.CombineOffsetAsWritten | Time.CombineOffset |
