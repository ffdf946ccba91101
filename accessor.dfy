/**
 * The accessor pair `addPropertyAccessor` installs for one declared property
 * (x-element-properties.js), as functions over the part of the element the
 * accessors touch: its DOM attributes, its per-property slots
 * (`target[Symbol.for(prop)]`) and the log of warnings.
 */
module Accessor {
  import opened JsValue
  import opened Coercion
  import opened CaseTransform

  /** One entry of the `properties` block: `{ type, value, reflect }` under its name. */
  datatype PropDef = PropDef(name: string, ptype: PropType, defaultValue: Value, reflect: bool)

  /** The attribute a property reflects to and is observed through. */
  function AttrName(d: PropDef): string
  {
    CamelToDash(d.name)
  }

  /**
   * `attrs` are the element's attributes, `slots` the values of
   * non-reflected properties, `warnings` the names of the properties a
   * `console.warn` was logged for, oldest first.
   */
  datatype Store = Store(attrs: map<string, string>, slots: map<string, Value>, warnings: seq<string>)

  /** `getAttribute(name)`: the value, or null (`None`) when the attribute is absent. */
  function GetAttribute(attrs: map<string, string>, name: string): Option<string>
  {
    if name in attrs then Some(attrs[name]) else None
  }

  /** The JavaScript value `getAttribute` returns. */
  function AttrValue(raw: Option<string>): Value
  {
    if raw.Some? then Str(raw.value) else Null
  }

  /** A slot that was never written reads as undefined. */
  function Slot(slots: map<string, Value>, name: string): Value
  {
    if name in slots then slots[name] else Undefined
  }

  /** A value passed to the setter as a function is called once, and its result is what is written. */
  function Resolve(valueOrFn: Value): (v: Value)
    ensures valueOrFn.Fn? ==> v == valueOrFn.result
    ensures !valueOrFn.Fn? ==> v == valueOrFn
  {
    if valueOrFn.Fn? then valueOrFn.result else valueOrFn
  }

  /** Reflected access to a property whose tag is not Boolean, String or Number only logs a warning. */
  predicate ReflectWarns(d: PropDef)
  {
    d.reflect && !Reflectable(d.ptype)
  }

  /**
   * The setter's effect on the store (its `invalidate()` is the
   * scheduler's). A reflected Boolean sets the attribute to "" when the
   * coerced value is truthy and removes it otherwise; a reflected String or
   * Number removes it when the resolved value is undefined or null and sets
   * it to the coerced value's spelling otherwise; a non-reflected property
   * stores the coerced value in its slot.
   */
  function Write(d: PropDef, st: Store, valueOrFn: Value): (r: Store)
    ensures forall a :: a != AttrName(d) ==> GetAttribute(r.attrs, a) == GetAttribute(st.attrs, a)
    ensures forall n :: n != d.name ==> Slot(r.slots, n) == Slot(st.slots, n)
    ensures !d.reflect ==> r.attrs == st.attrs
    ensures d.reflect ==> r.slots == st.slots
    ensures r.warnings == st.warnings + if ReflectWarns(d) then [d.name] else []
  {
    var value := Resolve(valueOrFn);
    var result := Coerce(value, d.ptype);
    var attr := AttrName(d);
    if d.reflect then
      if d.ptype == Boolean then
        st.(attrs := if Truthy(result) then st.attrs[attr := ""] else st.attrs - {attr})
      else if d.ptype == String || d.ptype == Number then
        var shouldReflect := value != Undefined && value != Null;
        st.(attrs := if shouldReflect then st.attrs[attr := ToStr(result)] else st.attrs - {attr})
      else
        st.(warnings := st.warnings + [d.name])
    else
      st.(slots := st.slots[d.name := result])
  }

  /**
   * The getter's result. A reflected Boolean is the attribute's presence, a
   * reflected String its value or '' when absent, a reflected Number the
   * number its value spells (0 when absent); a non-reflected property is its
   * slot.
   */
  function Read(d: PropDef, st: Store): (r: Value)
    ensures ReflectWarns(d) ==> r == Undefined
    ensures d.reflect && d.ptype == Boolean ==> r.Bool?
    ensures d.reflect && d.ptype == String ==> r.Str?
    ensures d.reflect && d.ptype == Number ==> r.Num?
  {
    if d.reflect then
      var raw := AttrValue(GetAttribute(st.attrs, AttrName(d)));
      if d.ptype == Boolean then Bool(AttrName(d) in st.attrs)
      else if d.ptype == String then Str(ToStr(if Truthy(raw) then raw else Str("")))
      else if d.ptype == Number then Num(ToNumber(raw))
      else Undefined
    else
      Slot(st.slots, d.name)
  }

  /** The getter's warning, logged on a reflected read of an unsupported tag. */
  function NoteRead(d: PropDef, st: Store): (r: Store)
    ensures r.attrs == st.attrs && r.slots == st.slots
    ensures r.warnings == st.warnings + if ReflectWarns(d) then [d.name] else []
  {
    if ReflectWarns(d) then st.(warnings := st.warnings + [d.name]) else st
  }

  /**
   * The write `addPropertyAccessor` performs once the accessor is in place:
   * a value captured from the instance first, then an attribute already
   * present (deserialized), then the definition's default; none, when no
   * source is there.
   */
  function InitialValue(d: PropDef, captured: Value, attrs: map<string, string>): (r: Option<Value>)
    ensures captured != Undefined ==> r == Some(captured)
    ensures captured == Undefined && AttrName(d) in attrs ==>
              r == Some(Deserialize(AttrName(d), Some(attrs[AttrName(d)]), d.ptype))
    ensures captured == Undefined && AttrName(d) !in attrs && d.defaultValue != Undefined ==> r == Some(d.defaultValue)
    ensures r == None <==> captured == Undefined && AttrName(d) !in attrs && d.defaultValue == Undefined
  {
    if captured != Undefined then Some(captured)
    else if AttrName(d) in attrs then Some(Deserialize(AttrName(d), Some(attrs[AttrName(d)]), d.ptype))
    else if d.defaultValue != Undefined then Some(d.defaultValue)
    else None
  }

  // ---------------------------------------------------------------------
  // What a read returns after a write

  /** Reflected Boolean: the attribute is "" exactly when the value is truthy, and the getter answers its truthiness. */
  lemma WriteReflectedBoolean(d: PropDef, st: Store, valueOrFn: Value)
    requires d.reflect && d.ptype == Boolean
    ensures var r := Write(d, st, valueOrFn);
      GetAttribute(r.attrs, AttrName(d)) == (if Truthy(Resolve(valueOrFn)) then Some("") else None)
      && Read(d, r) == Bool(Truthy(Resolve(valueOrFn)))
  {
  }

  /** Reflected String: undefined and null remove the attribute and read back as ''; any other value reads back coerced. */
  lemma WriteReflectedString(d: PropDef, st: Store, valueOrFn: Value)
    requires d.reflect && d.ptype == String
    ensures var value := Resolve(valueOrFn); var r := Write(d, st, valueOrFn);
      if value == Undefined || value == Null then
        AttrName(d) !in r.attrs && Read(d, r) == Str("")
      else
        GetAttribute(r.attrs, AttrName(d)) == Some(ToStr(value)) && Read(d, r) == Coerce(value, String)
  {
  }

  /**
   * Reflected Number: undefined and null remove the attribute and read back
   * as 0; any other value is stored as its spelling and reads back as the
   * number it coerces to.
   */
  lemma WriteReflectedNumber(d: PropDef, st: Store, valueOrFn: Value)
    requires d.reflect && d.ptype == Number
    ensures var value := Resolve(valueOrFn); var r := Write(d, st, valueOrFn);
      if value == Undefined || value == Null then
        AttrName(d) !in r.attrs && Read(d, r) == Num(Int(0))
      else
        GetAttribute(r.attrs, AttrName(d)) == Some(NumberToString(ToNumber(value)))
        && Read(d, r) == Coerce(value, Number)
  {
    NumberStringRoundTrip(ToNumber(Resolve(valueOrFn)));
  }

  /** Non-reflected: the slot holds the coerced value, the getter returns exactly it, and no attribute changes. */
  lemma WriteNotReflected(d: PropDef, st: Store, valueOrFn: Value)
    requires !d.reflect
    ensures var r := Write(d, st, valueOrFn);
      r.attrs == st.attrs && Read(d, r) == Coerce(Resolve(valueOrFn), d.ptype)
  {
  }

  /** Reflected Array or Object: the write only logs a warning, and the read is undefined. */
  lemma WriteReflectedUnsupported(d: PropDef, st: Store, valueOrFn: Value)
    requires ReflectWarns(d)
    ensures var r := Write(d, st, valueOrFn);
      r.attrs == st.attrs && r.slots == st.slots && r.warnings == st.warnings + [d.name]
      && Read(d, r) == Undefined
  {
  }

  /** The part of a store a property's accessors depend on: its attribute when reflected, its slot otherwise. */
  predicate SameFor(d: PropDef, st1: Store, st2: Store)
  {
    if d.reflect then GetAttribute(st1.attrs, AttrName(d)) == GetAttribute(st2.attrs, AttrName(d))
    else Slot(st1.slots, d.name) == Slot(st2.slots, d.name)
  }

  /** A reflected read is derived live from the attribute, never from cached state; a non-reflected read only from its slot. */
  lemma ReadIsLocal(d: PropDef, st1: Store, st2: Store)
    requires SameFor(d, st1, st2)
    ensures Read(d, st1) == Read(d, st2)
  {
    if d.reflect {
      assert (AttrName(d) in st1.attrs) == (AttrName(d) in st2.attrs);
    }
  }

  /** A write of a property leaves the same store part whatever else differed. */
  lemma WriteIsLocal(d: PropDef, st1: Store, st2: Store, valueOrFn: Value)
    requires SameFor(d, st1, st2)
    ensures SameFor(d, Write(d, st1, valueOrFn), Write(d, st2, valueOrFn))
  {
  }

  // ---------------------------------------------------------------------
  // Attribute feedback

  /**
   * After a reflected write, the host notifies the element of the attribute
   * it just wrote; deserializing that attribute and writing it through the
   * setter again stores the same attributes, so the feedback stops there.
   * The one exception is a String property whose value spells "undefined".
   */
  lemma ReflectionFixpoint(d: PropDef, st: Store, valueOrFn: Value)
    requires d.reflect && Reflectable(d.ptype)
    requires !(d.ptype == String && GetAttribute(Write(d, st, valueOrFn).attrs, AttrName(d)) == Some("undefined"))
    ensures var r := Write(d, st, valueOrFn);
      Write(d, r, Deserialize(AttrName(d), GetAttribute(r.attrs, AttrName(d)), d.ptype)).attrs == r.attrs
  {
    var r := Write(d, st, valueOrFn);
    var attr := AttrName(d);
    if attr in r.attrs {
      var spelled := r.attrs[attr];
      if d.ptype == Number {
        var n := ToNumber(Resolve(valueOrFn));
        assert spelled == NumberToString(n);
        NumberStringRoundTrip(n);
        assert spelled != "undefined" by {
          if n.Int? && n.i >= 0 {
            assert IsDigit(spelled[0]);
          }
        }
      }
      FeedbackOfPresent(d, r, spelled);
    } else {
      FeedbackOfAbsent(d, r);
    }
  }

  /** The feedback of an attribute that is present and does not spell "undefined" sets it again to the same string. */
  lemma FeedbackOfPresent(d: PropDef, r: Store, spelled: string)
    requires d.reflect && Reflectable(d.ptype)
    requires GetAttribute(r.attrs, AttrName(d)) == Some(spelled) && spelled != "undefined"
    requires d.ptype == Boolean ==> spelled == ""
    requires d.ptype == Number ==> NumberToString(ParseNumber(spelled)) == spelled
    ensures Write(d, r, Deserialize(AttrName(d), Some(spelled), d.ptype)).attrs == r.attrs
  {
    assert r.attrs[AttrName(d) := spelled] == r.attrs;
  }

  /** The feedback of an absent attribute removes it, which leaves it absent. */
  lemma FeedbackOfAbsent(d: PropDef, r: Store)
    requires d.reflect && Reflectable(d.ptype)
    requires AttrName(d) !in r.attrs
    ensures Write(d, r, Deserialize(AttrName(d), None, d.ptype)).attrs == r.attrs
  {
    assert r.attrs - {AttrName(d)} == r.attrs;
  }

  /** The exception: a reflected String written as "undefined" is removed by the feedback, and then reads as ''. */
  lemma UndefinedSpellingRemovedByFeedback(d: PropDef, st: Store)
    requires d.reflect && d.ptype == String
    ensures var r := Write(d, st, Str("undefined"));
      GetAttribute(r.attrs, AttrName(d)) == Some("undefined")
      && var back := Write(d, r, Deserialize(AttrName(d), GetAttribute(r.attrs, AttrName(d)), d.ptype));
      AttrName(d) !in back.attrs && Read(d, back) == Str("")
  {
  }
}
