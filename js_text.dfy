/**
 * The two string built-ins the core leans on, with JavaScript's semantics:
 * `String.prototype.split` with a string separator, and `parseInt` without a
 * radix (leading white space, an optional sign, an optional `0x` prefix, then
 * the longest run of digits; `NaN`, here `None`, when there are none).
 * `ShowNat` and `Pad2` write numbers the way the date strings carry them.
 */
module JsText {
  import opened Wrappers

  /** No character of `s` occurs in `sep`, so no occurrence of `sep` can start in `s`. */
  predicate Avoids(s: string, sep: string) {
    forall i :: 0 <= i < |s| ==> s[i] !in sep
  }

  /** `s.split(sep)`: the pieces between the leftmost non-overlapping occurrences of `sep`. */
  function Split(s: string, sep: string): (parts: seq<string>)
    requires |sep| > 0
    ensures |parts| >= 1
    decreases |s|
  {
    if |s| < |sep| then [s]
    else if s[..|sep|] == sep then [""] + Split(s[|sep|..], sep)
    else
      var rest := Split(s[1..], sep);
      [[s[0]] + rest[0]] + rest[1..]
  }

  /** `parts.join(sep)`. */
  function Join(parts: seq<string>, sep: string): string
    requires |parts| >= 1
  {
    if |parts| == 1 then parts[0] else parts[0] + sep + Join(parts[1..], sep)
  }

  /** Splitting loses nothing: joining the pieces back gives the string. */
  lemma {:induction false} SplitJoin(s: string, sep: string)
    requires |sep| > 0
    ensures Join(Split(s, sep), sep) == s
    decreases |s|
  {
    if |s| < |sep| {
    } else if s[..|sep|] == sep {
      SplitJoin(s[|sep|..], sep);
      var rest := Split(s[|sep|..], sep);
      assert Split(s, sep) == [""] + rest;
      assert ([""] + rest)[1..] == rest;
      assert s == s[..|sep|] + s[|sep|..];
    } else {
      var rest := Split(s[1..], sep);
      SplitJoin(s[1..], sep);
      var parts := [[s[0]] + rest[0]] + rest[1..];
      assert Split(s, sep) == parts;
      if |rest| == 1 {
        assert Join(parts, sep) == [s[0]] + rest[0];
      } else {
        assert parts[1..] == rest[1..];
        assert Join(rest, sep) == rest[0] + sep + Join(rest[1..], sep);
      }
      assert s == [s[0]] + s[1..];
    }
  }

  /** A string holding no separator character is a single piece. */
  lemma {:induction false} SplitAvoiding(s: string, sep: string)
    requires |sep| > 0 && Avoids(s, sep)
    ensures Split(s, sep) == [s]
    decreases |s|
  {
    if |s| >= |sep| {
      assert s[0] != sep[0];
      assert s[..|sep|] != sep;
      SplitAvoiding(s[1..], sep);
      assert [s[0]] + s[1..] == s;
    }
  }

  /** A separator-free head followed by the separator gives the head as first piece. */
  lemma {:induction false} SplitAfter(a: string, sep: string, b: string)
    requires |sep| > 0 && Avoids(a, sep)
    ensures Split(a + sep + b, sep) == [a] + Split(b, sep)
    decreases |a|
  {
    var s := a + sep + b;
    if |a| == 0 {
      assert s == sep + b;
      assert s[..|sep|] == sep;
      assert s[|sep|..] == b;
    } else {
      assert s[0] == a[0] && a[0] !in sep;
      assert s[..|sep|] != sep by { assert s[..|sep|][0] == a[0]; }
      SplitAfter(a[1..], sep, b);
      assert s[1..] == a[1..] + sep + b;
      assert [a[0]] + a[1..] == a;
    }
  }

  /** JavaScript's StrWhiteSpaceChar: white space and line terminators. */
  predicate IsWhiteSpace(c: char) {
    c == '\t' || c == '\n' || c == '\U{B}' || c == '\U{C}' || c == '\r' || c == ' '
    || c == '\U{A0}' || c == '\U{1680}' || ('\U{2000}' <= c <= '\U{200A}')
    || c == '\U{2028}' || c == '\U{2029}' || c == '\U{202F}' || c == '\U{205F}'
    || c == '\U{3000}' || c == '\U{FEFF}'
  }

  /** Drops the leading white space, as `parseInt` does first. */
  function TrimStart(s: string): (t: string)
    ensures |t| <= |s|
  {
    if |s| > 0 && IsWhiteSpace(s[0]) then TrimStart(s[1..]) else s
  }

  /** The value of a digit character in any radix up to 36; 36 for anything else. */
  function DigitValue(c: char): (v: nat)
    ensures v <= 36
  {
    if '0' <= c <= '9' then c as int - '0' as int
    else if 'a' <= c <= 'z' then c as int - 'a' as int + 10
    else if 'A' <= c <= 'Z' then c as int - 'A' as int + 10
    else 36
  }

  predicate IsDigit(c: char, radix: nat) {
    DigitValue(c) < radix
  }

  predicate IsDecimalDigit(c: char) {
    '0' <= c <= '9'
  }

  /** The length of the run of radix digits that starts `s`. */
  function DigitRun(s: string, radix: nat): (n: nat)
    ensures n <= |s|
  {
    if |s| > 0 && IsDigit(s[0], radix) then 1 + DigitRun(s[1..], radix) else 0
  }

  /** The number a digit string denotes in the given radix. */
  function DigitsValue(ds: string, radix: nat): nat {
    if |ds| == 0 then 0
    else DigitsValue(ds[..|ds| - 1], radix) * radix + DigitValue(ds[|ds| - 1])
  }

  /** `parseInt(s)`: `None` stands for `NaN`. */
  function ParseInt(s: string): (r: Option<int>) {
    var t := TrimStart(s);
    var negative := |t| > 0 && t[0] == '-';
    var u := if |t| > 0 && (t[0] == '-' || t[0] == '+') then t[1..] else t;
    var hex := |u| >= 2 && u[0] == '0' && (u[1] == 'x' || u[1] == 'X');
    var radix := if hex then 16 else 10;
    var w := if hex then u[2..] else u;
    var n := DigitRun(w, radix);
    if n == 0 then None
    else
      var magnitude: int := DigitsValue(w[..n], radix);
      Some(if negative then -magnitude else magnitude)
  }

  /** A character that ends a leading run of decimal digits without starting a hex prefix. */
  predicate EndsNumber(rest: string) {
    rest == [] || (!IsDecimalDigit(rest[0]) && rest[0] != 'x' && rest[0] != 'X')
  }

  lemma {:induction false} DigitRunOfDigits(ds: string, rest: string)
    requires forall i :: 0 <= i < |ds| ==> IsDecimalDigit(ds[i])
    requires EndsNumber(rest)
    ensures DigitRun(ds + rest, 10) == |ds|
    decreases |ds|
  {
    if |ds| > 0 {
      assert (ds + rest)[1..] == ds[1..] + rest;
      DigitRunOfDigits(ds[1..], rest);
    } else {
      assert ds + rest == rest;
    }
  }

  /** `parseInt` reads the leading decimal digits and stops at anything else. */
  lemma ParseDigits(ds: string, rest: string)
    requires |ds| > 0 && forall i :: 0 <= i < |ds| ==> IsDecimalDigit(ds[i])
    requires EndsNumber(rest)
    ensures ParseInt(ds + rest) == Some(DigitsValue(ds, 10))
  {
    var s := ds + rest;
    assert !IsWhiteSpace(s[0]);
    assert TrimStart(s) == s;
    assert s[0] != '-' && s[0] != '+';
    assert !(|s| >= 2 && s[0] == '0' && (s[1] == 'x' || s[1] == 'X')) by {
      if |s| >= 2 && |ds| == 1 { assert s[1] == rest[0]; }
    }
    DigitRunOfDigits(ds, rest);
    assert s[..|ds|] == ds;
  }

  function DigitChar(d: nat): (c: char)
    requires d < 10
    ensures IsDecimalDigit(c) && DigitValue(c) == d
  {
    ('0' as int + d) as char
  }

  /** The decimal numeral of `n`, without leading zeros. */
  function ShowNat(n: nat): (s: string)
    ensures |s| > 0 && forall i :: 0 <= i < |s| ==> IsDecimalDigit(s[i])
  {
    if n < 10 then [DigitChar(n)] else ShowNat(n / 10) + [DigitChar(n % 10)]
  }

  lemma {:induction false} ShowNatValue(n: nat)
    ensures DigitsValue(ShowNat(n), 10) == n
  {
    if n >= 10 {
      ShowNatValue(n / 10);
      var s := ShowNat(n);
      assert s[..|s| - 1] == ShowNat(n / 10);
    }
  }

  /** A two-digit field, zero-padded, as the formatter and ISO dates write it. */
  function Pad2(n: nat): (s: string)
    requires n < 100
    ensures |s| == 2 && forall i :: 0 <= i < |s| ==> IsDecimalDigit(s[i])
  {
    [DigitChar(n / 10), DigitChar(n % 10)]
  }

  /** `parseInt` reads back every number `ShowNat` writes, whatever non-digit follows. */
  lemma ParseShowNat(n: nat, rest: string)
    requires EndsNumber(rest)
    ensures ParseInt(ShowNat(n) + rest) == Some(n)
  {
    ShowNatValue(n);
    ParseDigits(ShowNat(n), rest);
  }

  /** `parseInt` reads back a zero-padded two-digit field. */
  lemma ParsePad2(n: nat, rest: string)
    requires n < 100 && EndsNumber(rest)
    ensures ParseInt(Pad2(n) + rest) == Some(n)
  {
    var s := Pad2(n);
    assert s[..1] == [DigitChar(n / 10)];
    assert s[..1][..0] == [];
    assert DigitsValue(s[..1], 10) == n / 10;
    assert DigitsValue(s, 10) == n;
    ParseDigits(s, rest);
  }

  /** `parseInt` reads a bare numeral back. */
  lemma ParseShowNatAlone(n: nat)
    ensures ParseInt(ShowNat(n)) == Some(n)
  {
    ParseShowNat(n, []);
    assert ShowNat(n) + [] == ShowNat(n);
  }

  /** `parseInt` reads a bare two-digit field back. */
  lemma ParsePad2Alone(n: nat)
    requires n < 100
    ensures ParseInt(Pad2(n)) == Some(n)
  {
    ParsePad2(n, []);
    assert Pad2(n) + [] == Pad2(n);
  }

  /** Every character is a decimal digit. */
  predicate AllDecimal(s: string) {
    forall i :: 0 <= i < |s| ==> IsDecimalDigit(s[i])
  }

  lemma DecimalAvoids(s: string, sep: string)
    requires AllDecimal(s) && forall j :: 0 <= j < |sep| ==> !IsDecimalDigit(sep[j])
    ensures Avoids(s, sep)
  {
    forall i | 0 <= i < |s| ensures s[i] !in sep {
      assert IsDecimalDigit(s[i]);
    }
  }

  /** Three numerals joined by a one-character separator split back into the three. */
  lemma SplitThree(a: string, b: string, c: string, sep: string)
    requires |sep| == 1 && !IsDecimalDigit(sep[0])
    requires AllDecimal(a) && AllDecimal(b) && AllDecimal(c)
    ensures Split(a + sep + b + sep + c, sep) == [a, b, c]
  {
    DecimalAvoids(a, sep);
    DecimalAvoids(b, sep);
    DecimalAvoids(c, sep);
    SplitAfter(a, sep, b + sep + c);
    SplitAfter(b, sep, c);
    SplitAvoiding(c, sep);
    assert a + sep + b + sep + c == a + sep + (b + sep + c);
  }

  /** `[a, b, c] = parts.map(parseInt)`: a missing element is undefined. */
  function ParseAt(parts: seq<string>, i: nat): Option<int> {
    if i < |parts| then ParseInt(parts[i]) else None
  }
}
