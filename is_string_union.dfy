/**
 * `IsStringUnion` and `ArrayIsStringUnion`: membership of a string, or of
 * every element of an array, in a string union described by a checker
 * function, and the message that names the first element that fails.
 */
module IsStringUnion {
  import opened Wrappers
  import opened JsValues

  /** `IsStringUnion.validate`: a string the checker accepts. */
  predicate IsStringUnion(value: JsValue, typeCheck: string -> bool) {
    value.Str? && typeCheck(value.s)
  }

  /** `ArrayIsStringUnion.validate`: an array whose every element passes `IsStringUnion`. */
  predicate ArrayIsStringUnion(value: JsValue, typeCheck: string -> bool) {
    if !value.Array? then false
    else forall i :: 0 <= i < |value.items| ==> IsStringUnion(value.items[i], typeCheck)
  }

  /** `values.find(v => typeof v !== "string" || !check(v))`, as an index. */
  function FirstFailing(values: seq<JsValue>, typeCheck: string -> bool): (r: Option<nat>)
    ensures r.Some? ==> r.value < |values| && !IsStringUnion(values[r.value], typeCheck)
                        && forall j :: 0 <= j < r.value ==> IsStringUnion(values[j], typeCheck)
    ensures r.None? <==> forall j :: 0 <= j < |values| ==> IsStringUnion(values[j], typeCheck)
  {
    if |values| == 0 then None
    else if !IsStringUnion(values[0], typeCheck) then Some(0)
    else match FirstFailing(values[1..], typeCheck)
      case None => None
      case Some(k) => Some(k + 1)
  }

  /**
   * `ArrayIsStringUnion.defaultMessage`: "string `<first failing element>`
   * does not satisfy union $constraint2", the element written by `String`
   * ("undefined" when none fails). `None` when the value is not an array,
   * where `find` throws.
   */
  function ArrayMessage(value: JsValue, typeCheck: string -> bool, numberText: real -> string): Option<string> {
    if !value.Array? then None
    else
      var failed := match FirstFailing(value.items, typeCheck)
        case None => Undefined
        case Some(i) => value.items[i];
      Some("string `" + ToText(failed, numberText) + "` does not satisfy union $constraint2")
  }

  const StringMessage: string := "string `$value` does not satisfy $constraint2"

  /** A non-string never reaches the checker: every checker gives the same verdict. */
  lemma NonStringRejected(value: JsValue, c1: string -> bool, c2: string -> bool)
    requires !value.Str?
    ensures !IsStringUnion(value, c1) && IsStringUnion(value, c1) == IsStringUnion(value, c2)
  {
  }

  /** The array form on a one-element array is the single form on its element; anything but an array fails. */
  lemma ArrayOfOne(v: JsValue, typeCheck: string -> bool)
    ensures ArrayIsStringUnion(Array([v]), typeCheck) == IsStringUnion(v, typeCheck)
    ensures ArrayIsStringUnion(Array([]), typeCheck)
    ensures !ArrayIsStringUnion(v, typeCheck) || v.Array?
  {
    assert [v][0] == v;
  }

  /**
   * A failing array's message names an element that fails, and every element
   * before it passes.
   */
  lemma MessageNamesFirstFailure(items: seq<JsValue>, typeCheck: string -> bool, numberText: real -> string)
    requires !ArrayIsStringUnion(Array(items), typeCheck)
    ensures exists i :: 0 <= i < |items| && !IsStringUnion(items[i], typeCheck)
              && (forall j :: 0 <= j < i ==> IsStringUnion(items[j], typeCheck))
              && ArrayMessage(Array(items), typeCheck, numberText)
                 == Some("string `" + ToText(items[i], numberText) + "` does not satisfy union $constraint2")
  {
    var i := FirstFailing(items, typeCheck).value;
    assert !IsStringUnion(items[i], typeCheck);
  }

  /** The array form is the single form on every element. */
  lemma ArrayIsEveryElement(items: seq<JsValue>, typeCheck: string -> bool)
    ensures ArrayIsStringUnion(Array(items), typeCheck) <==> forall i :: 0 <= i < |items| ==> IsStringUnion(items[i], typeCheck)
  {
  }
}
