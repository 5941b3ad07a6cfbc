/**
 * The `IsISO8601` validator: a date "YYYY-MM-DD", optionally followed by a
 * space and a time "hh:mm:ss". Each field is read with `parseInt`, so leading
 * digits count and trailing text is ignored; the month must be 1..12, the day
 * 1..31 (not checked against the month), the hour 0..24, minutes and seconds
 * 0..59.
 */
module IsISO8601 {
  import opened Wrappers
  import opened JsText

  /** The checks on `[year, month, day]`: `!month` and `!day` reject a zero as well. */
  predicate ValidDate(fields: seq<string>) {
    var year, month, day := ParseAt(fields, 0), ParseAt(fields, 1), ParseAt(fields, 2);
    if year.None? then false
    else if month.None? || month.value == 0 then false
    else if day.None? || day.value == 0 then false
    else if month.value < 1 || month.value > 12 then false
    else if day.value < 1 || day.value > 31 then false
    else true
  }

  /** The checks on `[hour, minute, second]`. */
  predicate ValidTime(fields: seq<string>) {
    var hour, minute, second := ParseAt(fields, 0), ParseAt(fields, 1), ParseAt(fields, 2);
    if hour.None? || minute.None? || second.None? then false
    else if hour.value < 0 || hour.value > 24 then false
    else if minute.value < 0 || minute.value > 59 then false
    else if second.value < 0 || second.value > 59 then false
    else true
  }

  /**
   * `validate(value)`: split at spaces into the date and the (optional) time;
   * an empty date fails, an absent or empty time is not checked.
   */
  predicate Validate(value: string) {
    var parts := Split(value, " ");
    var date := parts[0];
    if date == "" then false
    else if !ValidDate(Split(date, "-")) then false
    else if |parts| >= 2 && parts[1] != "" then ValidTime(Split(parts[1], ":"))
    else true
  }

  const DefaultMessage: string := "string `$value` is not a valid ISO8601 (YYYY-MM-DD hh:mm:ss) string!"

  /** The date part "Y-MM-DD" as written with a numeral year and two-digit month and day. */
  function DateText(year: nat, month: nat, day: nat): string
    requires month < 100 && day < 100
  {
    ShowNat(year) + "-" + Pad2(month) + "-" + Pad2(day)
  }

  /** The time part "hh:mm:ss". */
  function TimeText(hour: nat, minute: nat, second: nat): string
    requires hour < 100 && minute < 100 && second < 100
  {
    Pad2(hour) + ":" + Pad2(minute) + ":" + Pad2(second)
  }

  lemma DateFields(year: nat, month: nat, day: nat)
    requires month < 100 && day < 100
    ensures Split(DateText(year, month, day), "-") == [ShowNat(year), Pad2(month), Pad2(day)]
  {
    SplitThree(ShowNat(year), Pad2(month), Pad2(day), "-");
  }

  lemma TimeFields(hour: nat, minute: nat, second: nat)
    requires hour < 100 && minute < 100 && second < 100
    ensures Split(TimeText(hour, minute, second), ":") == [Pad2(hour), Pad2(minute), Pad2(second)]
  {
    SplitThree(Pad2(hour), Pad2(minute), Pad2(second), ":");
  }

  lemma DateTextAvoidsSpace(year: nat, month: nat, day: nat)
    requires month < 100 && day < 100
    ensures Avoids(DateText(year, month, day), " ")
  {
    DecimalAvoids(ShowNat(year), " ");
    DecimalAvoids(Pad2(month), " ");
    DecimalAvoids(Pad2(day), " ");
  }

  lemma TimeTextAvoidsSpace(hour: nat, minute: nat, second: nat)
    requires hour < 100 && minute < 100 && second < 100
    ensures Avoids(TimeText(hour, minute, second), " ")
  {
    DecimalAvoids(Pad2(hour), " ");
    DecimalAvoids(Pad2(minute), " ");
    DecimalAvoids(Pad2(second), " ");
  }

  /**
   * A date-only string is accepted exactly when its month is 1..12 and its day
   * 1..31, whatever the month: "2024-02-31" passes.
   */
  lemma DateOnly(year: nat, month: nat, day: nat)
    requires month < 100 && day < 100
    ensures Validate(DateText(year, month, day)) <==> 1 <= month <= 12 && 1 <= day <= 31
  {
    var d := DateText(year, month, day);
    DateTextAvoidsSpace(year, month, day);
    SplitAvoiding(d, " ");
    DateFields(year, month, day);
    ValidateDateOnly(d, [ShowNat(year), Pad2(month), Pad2(day)]);
    ValidDateOf(year, month, day);
  }

  /** `Validate` of a string without spaces is the date check on its "-" pieces. */
  lemma ValidateDateOnly(value: string, fields: seq<string>)
    requires Split(value, " ") == [value] && Split(value, "-") == fields
    ensures Validate(value) <==> value != "" && ValidDate(fields)
  {
  }

  /** `Validate` of "date time" is the date check and, for a non-empty time, the clock check. */
  lemma ValidateDateTime(value: string, date: string, time: string, dateFields: seq<string>, timeFields: seq<string>)
    requires Split(value, " ") == [date, time]
    requires Split(date, "-") == dateFields && Split(time, ":") == timeFields
    ensures Validate(value) <==> date != "" && ValidDate(dateFields) && (time != "" ==> ValidTime(timeFields))
  {
  }

  /** A date field that `parseInt` cannot read (NaN), or a zero month or day, rejects the date. */
  lemma RejectsUnreadableDate(fields: seq<string>)
    requires ParseAt(fields, 0).None? || ParseAt(fields, 1).None? || ParseAt(fields, 2).None?
             || ParseAt(fields, 1) == Some(0) || ParseAt(fields, 2) == Some(0)
    ensures !ValidDate(fields)
  {
  }

  /** The date check on written numerals is the range check on their values. */
  lemma ValidDateOf(year: nat, month: nat, day: nat)
    requires month < 100 && day < 100
    ensures ValidDate([ShowNat(year), Pad2(month), Pad2(day)]) <==> 1 <= month <= 12 && 1 <= day <= 31
  {
    ParseShowNatAlone(year);
    ParsePad2Alone(month);
    ParsePad2Alone(day);
    ValidDateOfParsed([ShowNat(year), Pad2(month), Pad2(day)], year, month, day);
  }

  lemma ValidDateOfParsed(fields: seq<string>, year: int, month: int, day: int)
    requires ParseAt(fields, 0) == Some(year) && ParseAt(fields, 1) == Some(month) && ParseAt(fields, 2) == Some(day)
    ensures ValidDate(fields) <==> 1 <= month <= 12 && 1 <= day <= 31
  {
  }

  lemma ValidTimeOfParsed(fields: seq<string>, hour: int, minute: int, second: int)
    requires ParseAt(fields, 0) == Some(hour) && ParseAt(fields, 1) == Some(minute) && ParseAt(fields, 2) == Some(second)
    ensures ValidTime(fields) <==> 0 <= hour <= 24 && 0 <= minute <= 59 && 0 <= second <= 59
  {
  }

  /** The clock check on written numerals is the range check on their values. */
  lemma ValidTimeOf(hour: nat, minute: nat, second: nat)
    requires hour < 100 && minute < 100 && second < 100
    ensures ValidTime([Pad2(hour), Pad2(minute), Pad2(second)]) <==> hour <= 24 && minute <= 59 && second <= 59
  {
    ParsePad2Alone(hour);
    ParsePad2Alone(minute);
    ParsePad2Alone(second);
    ValidTimeOfParsed([Pad2(hour), Pad2(minute), Pad2(second)], hour, minute, second);
  }

  /** February 31 is not told apart from a real date. */
  lemma AcceptsFebruary31()
    ensures Validate(DateText(2024, 2, 31))
  {
    DateOnly(2024, 2, 31);
  }

  /** "Y-MM-DD hh:mm:ss" with a good date is accepted exactly when the clock is in range, hour 24 included. */
  lemma DateAndTime(year: nat, month: nat, day: nat, hour: nat, minute: nat, second: nat)
    requires 1 <= month <= 12 && 1 <= day <= 31
    requires hour < 100 && minute < 100 && second < 100
    ensures Validate(DateText(year, month, day) + " " + TimeText(hour, minute, second))
            <==> hour <= 24 && minute <= 59 && second <= 59
  {
    var d, t := DateText(year, month, day), TimeText(hour, minute, second);
    DateTextAvoidsSpace(year, month, day);
    TimeTextAvoidsSpace(hour, minute, second);
    SplitAfter(d, " ", t);
    SplitAvoiding(t, " ");
    DateFields(year, month, day);
    TimeFields(hour, minute, second);
    ValidateDateTime(d + " " + t, d, t, [ShowNat(year), Pad2(month), Pad2(day)], [Pad2(hour), Pad2(minute), Pad2(second)]);
    ValidDateOf(year, month, day);
    ValidTimeOf(hour, minute, second);
  }

  /** A time part with only hours and minutes fails: the seconds are undefined. */
  lemma RejectsMissingSecond(year: nat, month: nat, day: nat, hour: nat, minute: nat)
    requires month < 100 && day < 100 && hour < 100 && minute < 100
    ensures !Validate(DateText(year, month, day) + " " + Pad2(hour) + ":" + Pad2(minute))
  {
    var d := DateText(year, month, day);
    var t := Pad2(hour) + ":" + Pad2(minute);
    DateTextAvoidsSpace(year, month, day);
    DecimalAvoids(Pad2(hour), " ");
    DecimalAvoids(Pad2(minute), " ");
    assert Avoids(t, " ");
    SplitAfter(d, " ", t);
    SplitAvoiding(t, " ");
    DecimalAvoids(Pad2(hour), ":");
    DecimalAvoids(Pad2(minute), ":");
    SplitAfter(Pad2(hour), ":", Pad2(minute));
    SplitAvoiding(Pad2(minute), ":");
    assert d + " " + Pad2(hour) + ":" + Pad2(minute) == d + " " + t;
  }

  /** A string with nothing before its first space, the empty string included, fails. */
  lemma RejectsEmptyDate(rest: string)
    ensures !Validate("")
    ensures !Validate(" " + rest)
  {
    assert (" " + rest)[..1] == " " && (" " + rest)[1..] == rest;
  }

  /** Whatever follows a second space is never looked at. */
  lemma IgnoresAfterSecondSpace(date: string, time: string, rest: string)
    requires Avoids(date, " ") && Avoids(time, " ")
    ensures Validate(date + " " + time + " " + rest) == Validate(date + " " + time)
  {
    SplitAfter(date, " ", time + " " + rest);
    SplitAfter(time, " ", rest);
    SplitAfter(date, " ", time);
    SplitAvoiding(time, " ");
    assert date + " " + time + " " + rest == date + " " + (time + " " + rest);
  }

  /** `parseInt` reads leading digits: a year field "2024AD" counts as 2024. */
  lemma AcceptsTrailingText(year: nat, month: nat, day: nat)
    requires 1 <= month <= 12 && 1 <= day <= 31
    ensures Validate(ShowNat(year) + "AD-" + Pad2(month) + "-" + Pad2(day))
  {
    var y := ShowNat(year) + "AD";
    var s := y + "-" + Pad2(month) + "-" + Pad2(day);
    TrailingTextSplits(year, month, day);
    assert s == ShowNat(year) + "AD-" + Pad2(month) + "-" + Pad2(day);
    ValidateDateOnly(s, [y, Pad2(month), Pad2(day)]);
    TrailingTextParses(year, month, day);
  }

  lemma TrailingTextSplits(year: nat, month: nat, day: nat)
    requires month < 100 && day < 100
    ensures var s := ShowNat(year) + "AD" + "-" + Pad2(month) + "-" + Pad2(day);
            Split(s, " ") == [s] && Split(s, "-") == [ShowNat(year) + "AD", Pad2(month), Pad2(day)]
  {
    var y := ShowNat(year) + "AD";
    DecimalAvoids(ShowNat(year), "-");
    DecimalAvoids(ShowNat(year), " ");
    assert Avoids(y, "-") && Avoids(y, " ");
    DecimalAvoids(Pad2(month), "-");
    DecimalAvoids(Pad2(day), "-");
    DecimalAvoids(Pad2(month), " ");
    DecimalAvoids(Pad2(day), " ");
    var s := y + "-" + Pad2(month) + "-" + Pad2(day);
    assert s == y + "-" + (Pad2(month) + "-" + Pad2(day));
    assert Avoids(s, " ");
    SplitAvoiding(s, " ");
    SplitAfter(y, "-", Pad2(month) + "-" + Pad2(day));
    SplitAfter(Pad2(month), "-", Pad2(day));
    SplitAvoiding(Pad2(day), "-");
  }

  lemma TrailingTextParses(year: nat, month: nat, day: nat)
    requires 1 <= month <= 12 && 1 <= day <= 31
    ensures ValidDate([ShowNat(year) + "AD", Pad2(month), Pad2(day)])
  {
    var fields := [ShowNat(year) + "AD", Pad2(month), Pad2(day)];
    assert ParseAt(fields, 0) == Some(year) by {
      ParseShowNat(year, "AD");
    }
    assert ParseAt(fields, 1) == Some(month) by {
      ParsePad2Alone(month);
    }
    assert ParseAt(fields, 2) == Some(day) by {
      ParsePad2Alone(day);
    }
    ValidDateOfParsed(fields, year, month, day);
  }
}
