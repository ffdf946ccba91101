# x-element property engine, modelled in Dafny

x-element is a small base class for custom elements. A component declares a
`properties` block. Each entry gives a property's `type` (Boolean, String,
Number, Array or Object), an optional default `value`, and whether it
`reflect`s to an attribute. When the element first connects, the base class
installs a getter/setter pair on the instance for every declared property:

- The setter coerces the value and either mirrors it into the attribute or
  keeps it in a private slot, then invalidates the template.
- The getter derives the value back from the attribute or the slot.
- Attribute changes reported by the host are deserialized and written
  through the setter.
- Invalidations are batched: one render per burst of synchronous changes,
  deferred to a microtask.

This project models that core: `x-element-properties.js` and
`x-element-basic.js`.

- `js_value.dfy` (`JsValue`): the JavaScript values the engine handles,
  with truthiness, `String(v)` and `Number(v)`.
- `case_transform.dfy` (`CaseTransform`): the camel-case/dash-case name
  transforms, and the memo the two share (`caseMap`).
- `coercion.dfy` (`Coercion`): the type tags, `coerce` and `deserialize`.
- `accessor.dfy` (`Accessor`): the accessor pair of one property, as
  functions over the element's attributes, its slots and its warning log.
  Also the initial-value precedence of `addPropertyAccessor`.
- `scheduler.dfy` (`Scheduler`): `invalidate`, `async` and the deferred
  render, as a state machine over the `_needsRender` flag, a FIFO microtask
  queue and a render counter.
- `element.dfy` (`Element`): the element itself as a class whose fields are
  updated in place. It has the constructor, the property accessors as
  methods, `upgradeProperty`, the two `connectedCallback` loops,
  `initializeProperties` and `attributeChangedCallback`. Each method is
  proved against the functions of the modules above; the two loops are
  proved against fold functions.

## Model

| member | source | states |
|---|---|---|
| JsValue.ParseNumber | x-element-properties.js:76-77 | `Number(s)` of a non-empty string of decimal digits is the integer those digits denote |
| JsValue.NumberStringRoundTrip | x-element-properties.js:100-108 | every number's attribute spelling `String(n)` parses back to `n` under `Number(...)`, NaN included |
| JsValue.NumberSpellingRoundTrip | x-element-properties.js:76-77 | `Number(String(v))` of a number value is the number `Number(v)` gives |
| Coercion.Coerce | x-element-properties.js:140-150 | Array and Object pass a value of their own kind through unchanged and give null for anything else; Boolean gives the value's truthiness, String its `String(...)` spelling, Number its `Number(...)` conversion |
| Coercion.CoerceIdempotent | x-element-properties.js:140-150 | coercing an already coerced value to the same tag changes nothing |
| Coercion.Deserialize | x-element-properties.js:152-160 | the string "undefined" becomes undefined; for Boolean the result is true exactly for "", "true" or the attribute's own name; for other tags the string is returned as is, and an absent attribute stays null |
| CaseTransform.CamelToDash | x-element-properties.js:172-177 | the attribute name has no upper-case letter, and is well-formed dash case when the property name has no dash |
| CaseTransform.ReplaceWithoutDash | x-element-properties.js:166-168 | the no-dash short cut of `dashToCamelCase` returns what the regular-expression replacement would |
| CaseTransform.CamelRoundTrip | x-element-properties.js:162-177 | a property name without a dash maps to its attribute name and back to itself |
| CaseTransform.DashRoundTrip | x-element-properties.js:162-177 | a well-formed dash-case attribute name maps to its property name and back to itself |
| CaseTransform.CamelToDashInjective | x-element-properties.js:172-177 | distinct dash-free property names have distinct attribute names |
| CaseTransform.CaseMemo.constructor | x-element-properties.js:7 | the shared memo starts empty |
| CaseTransform.CaseMemo.DashToCamelCase | x-element-properties.js:162-170 | a truthy cached answer is returned with the memo unchanged; otherwise the transform is computed and cached under the name; every cached entry stays the answer of one of the two transforms |
| CaseTransform.CaseMemo.CamelToDashCase | x-element-properties.js:172-177 | the same, for the camel-to-dash transform |
| CaseTransform.SharedMemoCrossTalk | x-element-properties.js:162-177 | after `dashToCamelCase("fooBar")`, `camelToDashCase("fooBar")` answers "fooBar" from the shared memo where the transform gives "foo-bar" |
| Scheduler.Initial | x-element-basic.js:6-11 | a constructed element is clean, with nothing queued and exactly one render done |
| Scheduler.Invalidate | x-element-basic.js:27-35 | afterwards a render is pending; from the clean state exactly one render callback is queued; while one is pending nothing changes |
| Scheduler.Async | x-element-basic.js:69-75 | a function is queued as a microtask; anything else is ignored |
| Scheduler.RunDeferred | x-element-basic.js:30-33 | the oldest microtask runs; the deferred render clears the flag and renders once; other callbacks leave the flag and the render count alone |
| Scheduler.CoherentPreserved | x-element-basic.js:27-35 | every transition keeps the flag set exactly when one render callback is queued |
| Scheduler.InvalidationsCoalesce | x-element-basic.js:22-35 | any number (at least one) of synchronous `invalidate()` calls has the effect of one |
| Scheduler.DrainRendersPerFlush | x-element-basic.js:27-35 | running the microtask queue empty renders once per queued render callback and leaves the flag clear if there was one |
| Scheduler.BurstRendersOnce | x-element-basic.js:22-26 | a burst of invalidations renders exactly once when the microtasks run, and leaves the element clean so that the next invalidation schedules again |
| Accessor.Resolve | x-element-properties.js:89-90 | a function passed to the setter is replaced by its result; any other value is used as is |
| Accessor.Write | x-element-properties.js:88-120 | the setter changes at most the property's own attribute (when reflected) or its own slot (when not); a reflected Array or Object adds one warning |
| Accessor.Read | x-element-properties.js:70-87 | a reflected Boolean reads as a boolean, String as a string, Number as a number; a reflected Array or Object reads as undefined |
| Accessor.NoteRead | x-element-properties.js:78-83 | the getter logs a warning for a reflected Array or Object, and changes nothing else |
| Accessor.InitialValue | x-element-properties.js:123-137 | the initial write takes an imperative value first, then an existing attribute (deserialized), then the default; there is no write exactly when none of the three is there |
| Accessor.WriteReflectedBoolean | x-element-properties.js:94-99 | a reflected Boolean's attribute is "" exactly when the value is truthy and absent otherwise, and the getter answers that truthiness |
| Accessor.WriteReflectedString | x-element-properties.js:100-108 | a reflected String removes the attribute for undefined or null and then reads as ''; otherwise the attribute is the value's spelling and reads back as the coerced value |
| Accessor.WriteReflectedNumber | x-element-properties.js:100-108 | a reflected Number removes the attribute for undefined or null and then reads as 0; otherwise the attribute spells the coerced number and reads back as it |
| Accessor.WriteNotReflected | x-element-properties.js:115-117 | a non-reflected property keeps the coerced value in its slot, reads back exactly it, and touches no attribute |
| Accessor.WriteReflectedUnsupported | x-element-properties.js:109-114 | a reflected Array or Object write only logs a warning, and the property reads as undefined |
| Accessor.ReadIsLocal | x-element-properties.js:70-87 | the getter depends only on the property's own attribute (reflected) or its own slot (not reflected) |
| Accessor.WriteIsLocal | x-element-properties.js:88-120 | the setter's effect on the property's own attribute or slot does not depend on the rest of the element |
| Accessor.ReflectionFixpoint | x-element-properties.js:19-32 | deserializing the attribute a reflected write produced and writing it through the setter again leaves the attributes unchanged, unless a String value spells "undefined" |
| Accessor.UndefinedSpellingRemovedByFeedback | x-element-properties.js:152-154 | a reflected String written as "undefined" sets the attribute "undefined"; that attribute's feedback deserializes to undefined and removes the attribute, and the property then reads as '' |
| Element.Lookup | x-element-properties.js:21-23 | `props[prop]` is found exactly when `prop` is declared, and is that declaration |
| Element.LookupFinds | x-element-properties.js:55-58 | with distinct names, looking up a declared property's name finds its own definition |
| Element.ObservedAttributes | x-element-properties.js:46-51 | one attribute per declared property, in order, each its attribute name; with dash-free names each is well-formed dash case and maps back to its property |
| Element.ReplayBeforeInstallIsNoop | x-element-basic.js:81-99 | before any accessor is installed, `upgradeObservedAttributes` leaves the element as it was |
| Element.InstallSchedulesAtMostOnce | x-element-properties.js:53-61 | however many properties receive an initial value, installation schedules at most one render |
| Element.InstallPrecedence | x-element-properties.js:123-137 | after installation every property reads as its own initial-value write alone would leave it (imperative value, else attribute, else default), whatever the other properties wrote |
| Element.Element.constructor | x-element-basic.js:6-11 | the element starts with its attributes and own values, no accessor, not initialized, clean, and one render that saw the starting state |
| Element.Element.Render | x-element-basic.js:17-20 | one more render, and the template sees the current properties |
| Element.Element.Invalidate | x-element-basic.js:27-35 | the element's schedule moves as `Scheduler.Invalidate` says |
| Element.Element.Async | x-element-basic.js:69-75 | the element's schedule moves as `Scheduler.Async` says |
| Element.Element.RunDeferred | x-element-basic.js:30-33 | one microtask runs as `Scheduler.RunDeferred` says; a deferred render sees the latest property state |
| Element.Element.PropertiesInitialized | x-element-properties.js:34-36 | true exactly when every declared accessor is installed, false exactly when none is |
| Element.Element.GetProperty | x-element-properties.js:70-87 | an installed property reads through its getter (logging its warning if any); otherwise the own data property, or undefined |
| Element.Element.SetProperty | x-element-properties.js:88-120 | an installed property is written through the setter and invalidates; otherwise an own data property is set and nothing is scheduled |
| Element.Element.UpgradeProperty | x-element-basic.js:91-99 | an own data property is deleted and reassigned, which leaves it as it was; an installed accessor cannot be deleted, so its getter's value goes back through its setter |
| Element.Element.UpgradeObservedAttributes | x-element-basic.js:81-86 | every observed attribute name in turn goes through `upgradeProperty` |
| Element.Element.AddPropertyAccessor | x-element-properties.js:63-138 | the current value is captured and the accessor installed, taking over any own data property, then the initial value is written; an accessor already installed makes `defineProperty` throw |
| Element.Element.InitializeProperties | x-element-properties.js:53-61 | on first use every accessor is installed in declaration order and the element is marked initialized; on an initialized element the first declared property throws |
| Element.Element.ConnectedCallback | x-element-properties.js:12-17 | the first connection installs every property by precedence; a later connection replays the observed properties through their setters and then throws; a later connection of an element that declares no property passes and changes nothing |
| Element.Element.ConnectedCallbackOnce | x-element-properties.js:12-17 | the first connection installs every property; a later connection changes nothing and does not throw |
| Element.Element.AttributeChanged | x-element-properties.js:19-32 | called after the host has stored the new value: an unchanged value does nothing; an undeclared attribute throws, even before initialization; a declared one is deserialized and written through the setter once initialized, and ignored before |
| Element.HostWrite | x-element-properties.js:130-133 | after the host sets or removes an attribute, `getAttribute` answers the new value for it and the old value for every other name |
| Element.Element.HostSetAttribute | x-element-properties.js:19-32 | the host stores the attribute, then reports an observed one to the callback, which never throws because every observed attribute is declared; before initialization only the attribute changes, after it a changed value goes through the property's setter |
| Element.ObservedAreDeclared | x-element-properties.js:46-51 | every observed attribute name maps back to a declared property |
| Element.RankFromAttribute | x-element-properties.js:130-133 | installing a non-reflected String `rank` over the attribute rank="7" stores "7" |
| Element.AttributeBeforeConnect | x-element-properties.js:27-30 | an attribute the host sets before the first connection is ignored by the callback and read by installation: `rank` then reads "7" |
| Element.InstallWithoutSourcesIsNoop | x-element-properties.js:123-137 | when no declared property has an imperative value, an attribute or a default, installation writes nothing and schedules nothing |
| Element.ReplayUnsetReflectedString | x-element-basic.js:91-99 | replaying an installed reflected String whose attribute is absent (and whose attribute name is its property name) creates the attribute with value "" |
| Element.ReplayUnsetNotReflected | x-element-basic.js:91-99 | replaying an installed non-reflected property that was never written stores the coercion of undefined: "undefined" for String, NaN for Number, false for Boolean, null for Array and Object |
| Element.ReconnectThrows | x-element-properties.js:12-17 | connecting an element with an unset reflected String `rank` twice: the second connection throws and leaves `rank=""` behind |
| Element.ReconnectOnceKeepsState | x-element-properties.js:12-17 | with installation on the first connection only, both connections pass and no attribute appears |

## Left out

- `x-element.js` (rendering with lit-html), `index.js` and the demo are not part of this model. The template function is modelled only as the snapshot of the property state that a render sees (`lastRender`).
- The DOM itself is left out: shadow roots, `innerHTML` and attribute storage details. Attributes are a map from name to string, changed by the setters and by `Element.Element.HostSetAttribute`, which always reports an observed attribute (the platform does not report the removal of an absent attribute; the callback ignores that report anyway, since old and new value are both null).
- The microtask queue is modelled per element. Interleaving with other elements' microtasks and with promise rejections is not modelled.
- `listen`, `unlisten` and `dispatchError` (x-element-basic.js:37-63) only forward to DOM event APIs, so they are not modelled.
- A callback passed to `async` and a function passed to a setter are modelled by their result only. Any other effect they have is not captured.
- The re-entrant `attributeChangedCallback` that the host raises for the element's own `setAttribute` and `removeAttribute` calls is not modelled inside the setter. `Accessor.ReflectionFixpoint` shows that this round writes the same attribute again, except for a String value spelling "undefined".
- The text of the `console.warn` messages is not modelled. Only which property warned is kept.
- Numbers are integers and NaN. Left out of `Number(...)`: fractions, exponents, Infinity, and hexadecimal, octal (`"0o17"`) and binary literals. `-0` is left out too.
- JsValue.ParseNumber: the integer-valued decimals `"1.0"` and `"1."` give NaN here, where `Number(...)` gives 1.
- JsValue.ParseNumber: only the white space listed in `IsSpace` is trimmed. U+1680, U+2000 to U+200A, U+2028, U+2029, U+202F, U+205F and U+3000, which `Number(...)` also trims, are not.
- JsValue.NumberToString: every integer is spelled in plain decimal. JavaScript spells magnitudes of 10^21 and above in exponent form (`"1e+21"`), and integers above 2^53 are not exactly representable as JavaScript numbers at all.
- CaseTransform.CamelToDash: only ASCII capitals are lowered. The regular expression at x-element-properties.js:9 matches ASCII capitals only, but the `toLowerCase` at line 175 lowers the whole name, non-ASCII capitals included. For `"prixÉ"` the source gives the attribute `"prixé"`, which does not map back, while the model keeps `"prixÉ"`. CaseTransform.CamelRoundTrip and CaseTransform.DashRoundTrip therefore hold of the source only for names whose capitals are ASCII. The element only accepts declared names that are entirely ASCII (`Element.PlainName`), where model and source agree.
- The type tag is one of the five constructors. A user-supplied type function, exotic objects such as dates or class instances under `Object`, and `Object.prototype.toString` tags are left out.
- Element.Element.AddPropertyAccessor and Element.Element.GetProperty: `target[prop]` is read as an own data property or undefined. Properties the element inherits from `HTMLElement` (`title`, `hidden`, `id`, `lang`, `tabIndex`) are not modelled. In the source, a declared `title` is captured as the inherited `''` and takes the imperative branch instead of its default. Such a value has to be passed in the constructor's own values to be modelled. Writing such a name before installation also goes to the inherited setter in the source, which is not modelled either.
- Keys inherited from `Object.prototype` (`caseMap["constructor"]`, `props["toString"]`) are not modelled.
- Element.Element.AttributeChanged, AddPropertyAccessor and the other element members use the pure case transforms, not the shared memo. The constructor requires declared names to be plain: ASCII, with no dash. Under that restriction the memo returns what the pure transforms return; the cross-talk it allows between different names is shown separately by `CaseTransform.SharedMemoCrossTalk`.

## Findings

| source | as written | input that shows it | evidently intended | confidence | as-written member | corrected member |
|---|---|---|---|---|---|---|
| x-element-properties.js:12-17 | Every connection runs `upgradeObservedAttributes` and `initializeProperties` again. On a second connection, `upgradeProperty` finds the installed accessor as an own property; the delete is refused, so the getter's value goes back through the setter. `Object.defineProperty` then meets the non-configurable accessor and throws a TypeError. A non-reflected property that was never written is also replayed: undefined goes through its setter, so its slot becomes "undefined" for String, NaN for Number, false for Boolean and null for Array or Object (Element.ReplayUnsetNotReflected). | An element declaring `rank: { type: String, reflect: true }`, never assigned, is removed from the document and inserted again. The second `connectedCallback` gives the element the attribute `rank=""`, then throws "Cannot redefine property: rank". | Properties are installed once, on the first connection. A later connection leaves properties and attributes as they are. | high; not executed | Element.ReconnectThrows | Element.Element.ConnectedCallbackOnce |
