/**
 * The `OnlyWithout` validator: a defined decorated property is valid only when
 * the related properties are absent. The list form asks that none be truthy,
 * the single form that it be undefined or null, so 0 and "" are absent to the
 * first and present to the second.
 */
module OnlyWithout {
  import opened JsValues

  /** `validate(value, args)`. */
  predicate Validate(value: JsValue, related: PropertyNames, obj: map<string, JsValue>) {
    if !Defined(value) then true
    else match related
      case Many(names) => !exists i :: 0 <= i < |names| && Truthy(Get(obj, names[i]))
      case One(name) => !Defined(Get(obj, name))
  }

  const DefaultMessage: string := "property `$property` is only valid when property(s): `$constraint1` are NOT defined!"

  /** An undefined or null decorated value passes whatever the other properties hold. */
  lemma MissingValuePasses(value: JsValue, related: PropertyNames, obj: map<string, JsValue>)
    requires value.Undefined? || value.Null?
    ensures Validate(value, related, obj)
  {
  }

  /** For a defined value, the list form fails exactly when some named property is truthy. */
  lemma ListForm(value: JsValue, names: seq<string>, obj: map<string, JsValue>)
    requires Defined(value)
    ensures !Validate(value, Many(names), obj) <==> exists i :: 0 <= i < |names| && names[i] in obj && Truthy(obj[names[i]])
    ensures Validate(value, Many([]), obj)
  {
    if !Validate(value, Many(names), obj) {
      var i :| 0 <= i < |names| && Truthy(Get(obj, names[i]));
      assert names[i] in obj;
    }
  }

  /** For a defined value, the single form passes exactly when the property is undefined or null. */
  lemma SingleForm(value: JsValue, name: string, obj: map<string, JsValue>)
    requires Defined(value)
    ensures Validate(value, One(name), obj) <==> name !in obj || obj[name].Undefined? || obj[name].Null?
  {
  }

  /**
   * The two forms disagree on defined falsy properties: a list naming a
   * property that holds 0 or "" passes, the same name alone fails.
   */
  lemma ListAndSingleDisagree(value: JsValue, name: string, obj: map<string, JsValue>)
    requires Defined(value) && name in obj && obj[name] in {Number(0.0), Str(""), Bool(false), NaN}
    ensures Validate(value, Many([name]), obj)
    ensures !Validate(value, One(name), obj)
  {
    assert [name][0] == name;
  }

  /** On truthy or missing properties the two forms agree. */
  lemma ListAndSingleAgree(value: JsValue, name: string, obj: map<string, JsValue>)
    requires Defined(value)
    requires Truthy(Get(obj, name)) || !Defined(Get(obj, name))
    ensures Validate(value, Many([name]), obj) == Validate(value, One(name), obj)
  {
    assert [name][0] == name;
  }
}
