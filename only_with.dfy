/**
 * The `OnlyWith` validator: the decorated property is valid only when every
 * related property is defined (neither undefined nor null) on the same object.
 */
module OnlyWith {
  import opened JsValues

  /**
   * `validate(value, args)`: the loop over an array of names stops at the
   * first undefined or null property; a single name is checked alone.
   * The decorated value itself is never looked at.
   */
  predicate Validate(value: JsValue, related: PropertyNames, obj: map<string, JsValue>) {
    match related
    case Many(names) => forall i :: 0 <= i < |names| ==> Defined(Get(obj, names[i]))
    case One(name) => Defined(Get(obj, name))
  }

  const DefaultMessage: string := "property `$property` is only valid when property(s): `$constraint1` are defined!"

  /** The list form fails exactly at a named property that is missing or null. */
  lemma ListForm(value: JsValue, names: seq<string>, obj: map<string, JsValue>)
    ensures !Validate(value, Many(names), obj) <==>
              exists i :: 0 <= i < |names| && (names[i] !in obj || obj[names[i]].Undefined? || obj[names[i]].Null?)
  {
    if !Validate(value, Many(names), obj) {
      var i :| 0 <= i < |names| && !Defined(Get(obj, names[i]));
      assert names[i] !in obj || obj[names[i]].Undefined? || obj[names[i]].Null?;
    }
  }

  /** The single form passes exactly when the named property is present and neither `undefined` nor `null`. */
  lemma SingleForm(value: JsValue, name: string, obj: map<string, JsValue>)
    ensures Validate(value, One(name), obj) <==> name in obj && !obj[name].Undefined? && !obj[name].Null?
  {
  }

  /** A list of one name means the same as that name alone; an empty list always passes. */
  lemma ListOfOne(value: JsValue, name: string, obj: map<string, JsValue>)
    ensures Validate(value, Many([name]), obj) == Validate(value, One(name), obj)
    ensures Validate(value, Many([]), obj)
  {
    assert [name][0] == name;
  }

  /** The verdict does not depend on the decorated value. */
  lemma IgnoresValue(v1: JsValue, v2: JsValue, related: PropertyNames, obj: map<string, JsValue>)
    ensures Validate(v1, related, obj) == Validate(v2, related, obj)
  {
  }

  /** Falsy but defined values (0, "", false, NaN) count as present. */
  lemma FalsyCountsAsPresent(value: JsValue, name: string, obj: map<string, JsValue>)
    requires name in obj && obj[name] in {Number(0.0), Str(""), Bool(false), NaN}
    ensures Validate(value, One(name), obj) && Validate(value, Many([name]), obj)
  {
    ListOfOne(value, name, obj);
  }

  /** The list form is the single form applied to each name in turn. */
  lemma ListIsEveryName(value: JsValue, names: seq<string>, obj: map<string, JsValue>)
    ensures Validate(value, Many(names), obj) <==> forall i :: 0 <= i < |names| ==> Validate(value, One(names[i]), obj)
  {
  }
}
