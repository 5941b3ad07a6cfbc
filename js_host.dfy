/**
 * What the JavaScript host supplies and the model does not define: the radian
 * functions of `Math`, the calendar fields of `Date` in the host's own zone and
 * in UTC, the `Date` constructor from local fields, and the IANA time-zone
 * database behind `Intl.DateTimeFormat`. They are fields of a `Host` value, so
 * every operation that uses one takes the host as a parameter and nothing is
 * assumed about them beyond what a lemma states as its hypothesis.
 */
module JsHost {

  /** An instant, in milliseconds since the Unix epoch (`Date.prototype.getTime`). */
  type Instant = real

  /**
   * A broken-down calendar reading. `month` is 0-based, as `Date.getMonth`
   * reports it and as `new Date(year, month, ...)` takes it.
   */
  datatype Fields = Fields(year: int, month: int, day: int,
                           hours: int, minutes: int, seconds: int, ms: int)

  datatype Host = Host(
    // Math.sin, Math.cos, ... : radians in, radians out
    sin: real -> real,
    cos: real -> real,
    tan: real -> real,
    asin: real -> real,
    acos: real -> real,
    atan: real -> real,
    atan2: (real, real) -> real,
    // getFullYear/getMonth/getDate/getHours/... of an instant in the host's zone
    local: Instant -> Fields,
    // getUTCFullYear/getUTCMonth/getUTCDate/getUTCHours/...
    utc: Instant -> Fields,
    // new Date(year, month, day, hours, minutes, seconds, ms) in the host's zone
    makeLocal: Fields -> Instant,
    // whether Intl.DateTimeFormat accepts the zone identifier
    knownZone: string -> bool,
    // Intl.DateTimeFormat("en-US", {timeZone, hour12: false, 2-digit fields}).format
    format: (string, Instant) -> string
  )

  /** A `Date` value: an instant, or the Invalid Date that NaN components produce. */
  datatype DateValue = At(time: Instant) | Invalid

  /** `new Date(year, month, day)`: the time of day defaults to zero. */
  function MakeDate(host: Host, year: int, month: int, day: int): Instant {
    host.makeLocal(Fields(year, month, day, 0, 0, 0, 0))
  }

  /** The host's `Date` constructor gives back the fields it was built from. */
  ghost predicate RoundTrips(host: Host, f: Fields) {
    host.local(host.makeLocal(f)) == f
  }
}
