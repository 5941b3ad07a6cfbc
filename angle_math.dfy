/**
 * Angle arithmetic in degrees: the normalisation into `[0, max)` built on
 * JavaScript's truncating `%`, the degree/radian conversions, and the
 * degree-based wrappers around the host's radian trigonometry.
 */
module AngleMath {
  import opened JsHost

  /** Rounding toward zero, as the quotient of JavaScript's `%` rounds. */
  function Trunc(x: real): (n: int)
    ensures x >= 0.0 ==> n as real <= x < n as real + 1.0
    ensures x < 0.0 ==> n as real - 1.0 < x <= n as real
  {
    if x >= 0.0 then x.Floor else -((-x).Floor)
  }

  /** JavaScript's `v % m` on numbers: the remainder takes the sign of `v`. */
  function JsRem(v: real, m: real): real
    requires m != 0.0
  {
    v - m * Trunc(v / m) as real
  }

  /** `k` whole turns of size `m`. */
  function Turns(k: int, m: real): real {
    k as real * m
  }

  /** The floored modulo: the representative of `v` in `[0, m)`. */
  function FlooredMod(v: real, m: real): (r: real)
    requires m > 0.0
    ensures 0.0 <= r < m
  {
    FloorBounds(v, m);
    v - m * (v / m).Floor as real
  }

  lemma FloorBounds(v: real, m: real)
    requires m > 0.0
    ensures 0.0 <= v - m * (v / m).Floor as real < m
  {
    var q := v / m;
    var f := q.Floor as real;
    assert m * q == v;
    assert f <= q < f + 1.0;
    MulLeftMono(f, q, m);
    MulLeftStrict(q, f + 1.0, m);
    assert m * (f + 1.0) == m * f + m;
    assert v < m * f + m;
  }

  lemma MulLeftMono(a: real, b: real, m: real)
    requires m > 0.0 && a <= b
    ensures m * a <= m * b
  {
  }

  lemma MulLeftStrict(a: real, b: real, m: real)
    requires m > 0.0 && a < b
    ensures m * a < m * b
  {
  }

  /**
   * `normalize(v, max)`: the truncating remainder, moved up by `max` when it is
   * negative. The result always differs from `v` by whole turns of `max`.
   */
  function Normalize(v: real, max: real): (r: real)
    requires max != 0.0
    ensures exists k: int :: r == v + Turns(k, max)
  {
    var normalized := JsRem(v, max);
    var t := Trunc(v / max);
    if normalized < 0.0 then
      assert normalized + max == v + Turns(1 - t, max);
      normalized + max
    else
      assert normalized == v + Turns(-t, max);
      normalized
  }

  /** For a positive modulus, `normalize` is the floored modulo. */
  lemma NormalizeIsFlooredMod(v: real, max: real)
    requires max > 0.0
    ensures Normalize(v, max) == FlooredMod(v, max)
  {
    var q := v / max;
    var f := q.Floor;
    var t := Trunc(q);
    assert q * max == v;
    if q >= 0.0 {
      assert t == f;
    } else if q == f as real {
      assert t == f;
      assert JsRem(v, max) == 0.0;
    } else {
      assert t == f + 1;
      MulLeftStrict(q, t as real, max);
      assert JsRem(v, max) < 0.0;
    }
  }

  /** For a positive modulus the result lies in `[0, max)`. */
  lemma NormalizeInRange(v: real, max: real)
    requires max > 0.0
    ensures 0.0 <= Normalize(v, max) < max
  {
    NormalizeIsFlooredMod(v, max);
  }

  /** A value already in `[0, max)` is returned unchanged. */
  lemma NormalizeFixesRange(v: real, max: real)
    requires 0.0 <= v < max
    ensures Normalize(v, max) == v
  {
    var q := v / max;
    assert max * q == v;
    if q >= 1.0 {
      MulLeftMono(1.0, q, max);
    }
    if q < 0.0 {
      MulLeftStrict(q, 0.0, max);
    }
    assert 0.0 <= q < 1.0;
    assert Trunc(q) == 0;
  }

  /** Normalizing twice is normalizing once. */
  lemma NormalizeIdempotent(v: real, max: real)
    requires max > 0.0
    ensures Normalize(Normalize(v, max), max) == Normalize(v, max)
  {
    NormalizeInRange(v, max);
    NormalizeFixesRange(Normalize(v, max), max);
  }

  /** The two reference values: 450 wraps to 90, and -33 wraps to 327. */
  lemma NormalizeExamples()
    ensures Normalize(360.0 + 90.0, 360.0) == 90.0
    ensures Normalize(0.0 - 33.0, 360.0) == 327.0
  {
    assert (450.0 / 360.0).Floor == 1;
    assert JsRem(-33.0, 360.0) == -33.0;
  }

  /** `DMath.normalizeAngle`: an angle in degrees brought into `[0, 360)`. */
  function NormalizeAngle(angle: real): (r: real)
    ensures 0.0 <= r < 360.0
    ensures r == FlooredMod(angle, 360.0)
  {
    NormalizeIsFlooredMod(angle, 360.0);
    Normalize(angle, 360.0)
  }

  /** `Math.PI`. */
  const PI: real := 3.141592653589793

  function Rad2Deg(rad: real): real {
    rad * (180.0 / PI)
  }

  function Deg2Rad(deg: real): real {
    deg * (PI / 180.0)
  }

  /** The two conversions are inverse to each other and preserve order. */
  lemma ConversionsRoundTrip(x: real)
    ensures Rad2Deg(Deg2Rad(x)) == x
    ensures Deg2Rad(Rad2Deg(x)) == x
    ensures x >= 0.0 ==> Rad2Deg(x) >= 0.0 && Deg2Rad(x) >= 0.0
  {
  }

  // The DMath wrappers: degrees in (or out), the host's radian functions inside.

  function DSin(host: Host, x: real): real { host.sin(Deg2Rad(x)) }

  function DCos(host: Host, x: real): real { host.cos(Deg2Rad(x)) }

  function DTan(host: Host, x: real): real { host.tan(Deg2Rad(x)) }

  function DAtan2(host: Host, y: real, x: real): real { Rad2Deg(host.atan2(y, x)) }

  function DAsin(host: Host, x: real): real { Rad2Deg(host.asin(x)) }

  function DAcos(host: Host, x: real): real { Rad2Deg(host.acos(x)) }

  function DAtan(host: Host, x: real): real { Rad2Deg(host.atan(x)) }

  /**
   * `acot(x) = atan(1 / x)` in degrees. At `x = 0` JavaScript divides to
   * `Infinity`, whose arctangent is exactly a right angle.
   */
  function DAcot(host: Host, x: real): real {
    if x == 0.0 then Rad2Deg(PI / 2.0) else Rad2Deg(host.atan(1.0 / x))
  }
}
