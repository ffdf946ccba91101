/**
 * The type tags of property definitions, the coercion a property's setter
 * applies (`coerce`) and the conversion of an attribute string into a
 * property value (`deserialize`), from x-element-properties.js.
 */
module Coercion {
  import opened JsValue

  /** The `type` of a property definition, one of the five constructors the source recognises. */
  datatype PropType = Boolean | String | Number | Array | Object

  /** The tags a reflected property can be read and written as. */
  predicate Reflectable(t: PropType)
  {
    t == Boolean || t == String || t == Number
  }

  /**
   * `coerce(value, type)`: arrays and plain objects pass through their own
   * tag and become null otherwise; the other tags call their conversion.
   */
  function Coerce(v: Value, t: PropType): (r: Value)
    ensures t == Array ==> (v.Arr? && r == v) || (!v.Arr? && r == Null)
    ensures t == Object ==> (v.Obj? && r == v) || (!v.Obj? && r == Null)
    ensures t == Boolean ==> r.Bool? && (r.b <==> Truthy(v))
    ensures t == String ==> r.Str? && r.s == ToStr(v)
    ensures t == Number ==> r.Num? && r.n == ToNumber(v)
  {
    match t
    case Array => if v.Arr? then v else Null
    case Object => if v.Obj? then v else Null
    case Boolean => Bool(Truthy(v))
    case String => Str(ToStr(v))
    case Number => Num(ToNumber(v))
  }

  /** Coercing a coerced value again changes nothing. */
  lemma CoerceIdempotent(v: Value, t: PropType)
    ensures Coerce(Coerce(v, t), t) == Coerce(v, t)
  {
  }

  /**
   * `deserialize(attr, value, type)`, where `None` is the null an attribute
   * reads as when it is absent.
   */
  function Deserialize(attr: string, value: Option<string>, t: PropType): (r: Value)
    ensures value == Some("undefined") ==> r == Undefined
    ensures value != Some("undefined") && t == Boolean ==>
              r.Bool? && (r.b <==> value == Some("") || value == Some("true") || value == Some(attr))
    ensures value != Some("undefined") && t != Boolean && value.Some? ==> r == Str(value.value)
    ensures value != Some("undefined") && t != Boolean && value.None? ==> r == Null
  {
    if value == Some("undefined") then Undefined
    else if t == Boolean then Bool(value == Some("") || value == Some("true") || value == Some(attr))
    else if value.Some? then Str(value.value)
    else Null
  }
}
