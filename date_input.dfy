/**
 * `DateInput`: a date given either as year, month and day or as a
 * "YYYY-MM-DD" string, its declared field constraints, and its `date` getter.
 *
 * The constraints are checked the way the GraphQL layer runs them: a field
 * that is missing (undefined or null) is skipped, a present field must pass
 * every rule declared on it.
 */
module DateInputs {
  import opened Wrappers
  import opened JsHost
  import opened JsText
  import opened JsValues
  import OnlyWith
  import OnlyWithout
  import IsISO8601

  /** The four nullable fields; `None` is undefined or null, which every check treats alike. */
  datatype DateInput = DateInput(year: Option<int>, month: Option<int>, day: Option<int>, text: Option<string>)

  function NumberField(o: Option<int>): JsValue {
    match o
    case None => Undefined
    case Some(n) => Number(n as real)
  }

  function TextField(o: Option<string>): JsValue {
    match o
    case None => Undefined
    case Some(s) => Str(s)
  }

  /** The input as the object the validators see; the string field is named "string". */
  function AsObject(input: DateInput): map<string, JsValue> {
    map["year" := NumberField(input.year), "month" := NumberField(input.month),
        "day" := NumberField(input.day), "string" := TextField(input.text)]
  }

  /** The decorators a field carries. */
  datatype Rule =
    | OnlyWithRule(with: PropertyNames)
    | OnlyWithoutRule(without: PropertyNames)
    | MinRule(min: int)
    | MaxRule(max: int)
    | ISO8601Rule

  /** The declared constraints, field by field. */
  function Rules(field: string): seq<Rule> {
    if field == "year" then [OnlyWithRule(Many(["day", "month"])), OnlyWithoutRule(One("string"))]
    else if field == "month" then [OnlyWithRule(Many(["day", "year"])), OnlyWithoutRule(One("string")), MinRule(1), MaxRule(12)]
    else if field == "day" then [OnlyWithRule(Many(["year", "month"])), MinRule(1), MaxRule(31)]
    else if field == "string" then [OnlyWithoutRule(Many(["day", "month", "year"])), ISO8601Rule]
    else []
  }

  /** One rule on a present value; `IsISO8601` on a non-string throws, counted as a failure. */
  predicate Holds(rule: Rule, value: JsValue, obj: map<string, JsValue>) {
    match rule
    case OnlyWithRule(names) => OnlyWith.Validate(value, names, obj)
    case OnlyWithoutRule(names) => OnlyWithout.Validate(value, names, obj)
    case MinRule(min) => value.Number? && value.n >= min as real
    case MaxRule(max) => value.Number? && value.n <= max as real
    case ISO8601Rule => value.Str? && IsISO8601.Validate(value.s)
  }

  predicate FieldValid(input: DateInput, field: string) {
    var obj := AsObject(input);
    var value := Get(obj, field);
    !Defined(value) || forall i :: 0 <= i < |Rules(field)| ==> Holds(Rules(field)[i], value, obj)
  }

  /** The input passes validation. */
  predicate Valid(input: DateInput) {
    FieldValid(input, "year") && FieldValid(input, "month") && FieldValid(input, "day") && FieldValid(input, "string")
  }

  /** The `date` getter: the components when all three are truthy, else the string, else `now`. */
  function Date(host: Host, now: Instant, input: DateInput): DateValue {
    if input.year.Some? && input.year.value != 0 && input.day.Some? && input.day.value != 0
       && input.month.Some? && input.month.value != 0
    then At(MakeDate(host, input.year.value, input.month.value - 1, input.day.value))
    else if input.text.Some? && input.text.value != "" then StringDate(host, input.text.value)
    else At(now)
  }

  /** The string form: split at "-", `parseInt` each piece, shift the month; NaN gives the Invalid Date. */
  function StringDate(host: Host, s: string): DateValue {
    FieldsDate(host, Split(s, "-"))
  }

  /** `new Date(year, month - 1, day)` of the parsed pieces. */
  function FieldsDate(host: Host, parts: seq<string>): DateValue {
    var year, month, day := ParseAt(parts, 0), ParseAt(parts, 1), ParseAt(parts, 2);
    if year.Some? && month.Some? && day.Some?
    then At(MakeDate(host, year.value, month.value - 1, day.value))
    else Invalid
  }

  // ---------------------------------------------------------------------------
  // The getter

  /** Truthy components win over the string, and their 1-based month becomes 0-based. */
  lemma ComponentsFirst(host: Host, now: Instant, input: DateInput, y: int, m: int, d: int)
    requires input.year == Some(y) && input.month == Some(m) && input.day == Some(d)
    requires y != 0 && m != 0 && d != 0
    ensures Date(host, now, input) == At(MakeDate(host, y, m - 1, d))
    ensures forall t :: Date(host, now, input.(text := t)) == Date(host, now, input)
  {
  }

  /** A zero component counts as absent: the getter falls through to the string, then to `now`. */
  lemma ZeroFallsThrough(host: Host, now: Instant, input: DateInput)
    requires input.year == Some(0) || input.month == Some(0) || input.day == Some(0)
    ensures Date(host, now, input) == Date(host, now, input.(year := None))
    ensures input.text.None? ==> Date(host, now, input) == At(now)
  {
  }

  /** A "Y-MM-DD" string is read back to the date it writes. */
  lemma StringRoundTrip(host: Host, now: Instant, year: nat, month: nat, day: nat)
    requires month < 100 && day < 100
    ensures Date(host, now, DateInput(None, None, None, Some(IsISO8601.DateText(year, month, day))))
            == At(MakeDate(host, year, month - 1, day))
  {
    var s := IsISO8601.DateText(year, month, day);
    IsISO8601.DateFields(year, month, day);
    var parts := [ShowNat(year), Pad2(month), Pad2(day)];
    assert ParseAt(parts, 0) == Some(year) by {
      ParseShowNatAlone(year);
    }
    assert ParseAt(parts, 1) == Some(month) by {
      ParsePad2Alone(month);
    }
    assert ParseAt(parts, 2) == Some(day) by {
      ParsePad2Alone(day);
    }
    FieldsDateOf(host, parts, year, month, day);
  }

  lemma FieldsDateOf(host: Host, parts: seq<string>, year: int, month: int, day: int)
    requires ParseAt(parts, 0) == Some(year) && ParseAt(parts, 1) == Some(month) && ParseAt(parts, 2) == Some(day)
    ensures FieldsDate(host, parts) == At(MakeDate(host, year, month - 1, day))
  {
  }

  // ---------------------------------------------------------------------------
  // The declared constraints

  /** A valid input keeps a present month in 1..12 and a present day in 1..31. */
  lemma ValidRanges(input: DateInput)
    requires Valid(input)
    ensures input.month.Some? ==> 1 <= input.month.value <= 12
    ensures input.day.Some? ==> 1 <= input.day.value <= 31
  {
    var obj := AsObject(input);
    if input.month.Some? {
      assert Holds(Rules("month")[2], Get(obj, "month"), obj);
      assert Holds(Rules("month")[3], Get(obj, "month"), obj);
    }
    if input.day.Some? {
      assert Holds(Rules("day")[1], Get(obj, "day"), obj);
      assert Holds(Rules("day")[2], Get(obj, "day"), obj);
    }
  }

  /**
   * In a valid input the two forms exclude each other: any component brings
   * all three and no string.
   */
  lemma ValidFormsExclusive(input: DateInput)
    requires Valid(input)
    requires input.year.Some? || input.month.Some? || input.day.Some?
    ensures input.year.Some? && input.month.Some? && input.day.Some? && input.text.None?
  {
    var obj := AsObject(input);
    if input.day.Some? {
      assert Holds(Rules("day")[0], Get(obj, "day"), obj);
      assert OnlyWith.Validate(Get(obj, "day"), Many(["year", "month"]), obj);
      assert Defined(Get(obj, ["year", "month"][0]));
      assert input.year.Some?;
    }
    if input.month.Some? {
      assert Holds(Rules("month")[0], Get(obj, "month"), obj);
      assert Defined(Get(obj, ["day", "year"][1]));
      assert input.year.Some?;
    }
    assert Holds(Rules("year")[0], Get(obj, "year"), obj);
    assert Holds(Rules("year")[1], Get(obj, "year"), obj);
    assert Defined(Get(obj, ["day", "month"][0]));
    assert Defined(Get(obj, ["day", "month"][1]));
  }

  /** The day's rules, unlike the year's and the month's, do not mention the string. */
  lemma DayIgnoresString(input: DateInput, t: Option<string>)
    ensures FieldValid(input.(text := t), "day") == FieldValid(input, "day")
    ensures input.year.Some? && input.text.Some? ==> !FieldValid(input, "year")
    ensures input.month.Some? && input.text.Some? ==> !FieldValid(input, "month")
  {
    var obj, obj' := AsObject(input), AsObject(input.(text := t));
    assert forall n :: n != "string" ==> Get(obj, n) == Get(obj', n);
    if input.year.Some? && input.text.Some? {
      assert !Holds(Rules("year")[1], Get(obj, "year"), obj);
    }
    if input.month.Some? && input.text.Some? {
      assert !Holds(Rules("month")[1], Get(obj, "month"), obj);
    }
  }

  /** A valid input with a non-zero year gives the date of its components. */
  lemma ValidComponentsGiveDate(host: Host, now: Instant, input: DateInput)
    requires Valid(input) && input.year.Some? && input.year.value != 0
    ensures input.month.Some? && input.day.Some?
    ensures 1 <= input.month.value <= 12 && 1 <= input.day.value <= 31
    ensures Date(host, now, input) == At(MakeDate(host, input.year.value, input.month.value - 1, input.day.value))
  {
    ValidFormsExclusive(input);
    ValidRanges(input);
  }

  /**
   * A valid input with year 0 passes validation yet gives `now`: the getter
   * reads the zero year as absent and there is no string to fall back on.
   */
  lemma ValidZeroYearGivesNow(host: Host, now: Instant, input: DateInput)
    requires Valid(input) && input.year == Some(0)
    ensures Date(host, now, input) == At(now)
  {
    ValidFormsExclusive(input);
  }

  /**
   * A valid input given as a string without spaces always gives a real date:
   * the month and day the validator checked, the month shifted to 0-based.
   */
  lemma ValidStringGivesDate(host: Host, now: Instant, input: DateInput)
    requires Valid(input) && input.text.Some? && Avoids(input.text.value, " ")
    ensures var parts := Split(input.text.value, "-");
            && ParseAt(parts, 0).Some? && ParseAt(parts, 1).Some? && ParseAt(parts, 2).Some?
            && 1 <= ParseAt(parts, 1).value <= 12 && 1 <= ParseAt(parts, 2).value <= 31
            && Date(host, now, input)
               == At(MakeDate(host, ParseAt(parts, 0).value, ParseAt(parts, 1).value - 1, ParseAt(parts, 2).value))
  {
    var s := input.text.value;
    if input.year.Some? || input.month.Some? || input.day.Some? {
      ValidFormsExclusive(input);
    }
    var obj := AsObject(input);
    assert Holds(Rules("string")[1], Get(obj, "string"), obj);
    assert IsISO8601.Validate(s);
    SplitAvoiding(s, " ");
    assert IsISO8601.ValidDate(Split(s, "-"));
    assert input == DateInput(None, None, None, Some(s));
    var parts := Split(s, "-");
    FieldsDateOf(host, parts, ParseAt(parts, 0).value, ParseAt(parts, 1).value, ParseAt(parts, 2).value);
  }
}
