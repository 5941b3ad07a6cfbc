/**
 * The JavaScript values the validators inspect, JavaScript's truthiness, the
 * property lookup of a plain object, and `String(value)`.
 */
module JsValues {
  /** A JavaScript value. `NaN` is apart from the other numbers; `Object` is any non-array object. */
  datatype JsValue =
    | Undefined
    | Null
    | Bool(b: bool)
    | Number(n: real)
    | NaN
    | Str(s: string)
    | Array(items: seq<JsValue>)
    | Object

  /** `Boolean(v)`: false exactly for undefined, null, false, 0, NaN and "". */
  predicate Truthy(v: JsValue) {
    match v
    case Undefined => false
    case Null => false
    case Bool(b) => b
    case Number(n) => n != 0.0
    case NaN => false
    case Str(s) => s != ""
    case Array(_) => true
    case Object => true
  }

  /** `v !== undefined && v !== null`. */
  predicate Defined(v: JsValue) {
    !v.Undefined? && !v.Null?
  }

  /** `object[name]`: an absent property reads as undefined. */
  function Get(obj: map<string, JsValue>, name: string): JsValue {
    if name in obj then obj[name] else Undefined
  }

  /** A decorator's related property: one name, or an array of names. */
  datatype PropertyNames = One(name: string) | Many(names: seq<string>)

  /**
   * `String(v)`. Numbers other than NaN go through `numberText`, the host's
   * `Number.prototype.toString`; an array joins its elements with "," and
   * writes undefined and null elements as empty.
   */
  function ToText(v: JsValue, numberText: real -> string): string
    decreases v, 1
  {
    match v
    case Undefined => "undefined"
    case Null => "null"
    case Bool(b) => if b then "true" else "false"
    case Number(n) => numberText(n)
    case NaN => "NaN"
    case Str(s) => s
    case Array(items) => ItemsText(v, items, numberText)
    case Object => "[object Object]"
  }

  /** `items.join(",")` for the elements of the array `whole`. */
  function ItemsText(whole: JsValue, items: seq<JsValue>, numberText: real -> string): string
    requires forall i :: 0 <= i < |items| ==> items[i] < whole
    decreases whole, 0, |items|
  {
    if |items| == 0 then ""
    else
      var first := if Defined(items[0]) then ToText(items[0], numberText) else "";
      if |items| == 1 then first else first + "," + ItemsText(whole, items[1..], numberText)
  }
}
