/**
 * One custom element built on the base classes of x-element-basic.js and
 * x-element-properties.js: its attributes, the slots of its non-reflected
 * properties, the data properties set on it before its accessors exist,
 * which accessors are installed, the `__initialized` and `_needsRender`
 * flags, the microtask queue and the renders performed.
 */
module Element {
  import opened JsValue
  import opened Coercion
  import opened CaseTransform
  import opened Accessor
  import Scheduler

  /** The TypeErrors the element's callbacks can throw. */
  datatype JsError =
    | CannotRedefine(prop: string)    // `Object.defineProperty` on an accessor that is already installed
    | UndeclaredProperty(prop: string) // `props[prop].type` for a name the `properties` block lacks

  datatype Outcome = Pass | Fail(error: JsError)

  // ---------------------------------------------------------------------
  // The `properties` block

  predicate DistinctNames(defs: seq<PropDef>)
  {
    forall i, j :: 0 <= i < j < |defs| ==> defs[i].name != defs[j].name
  }

  /**
   * A property name this model accepts: no dash, and only ASCII characters,
   * the range on which the modelled case transforms agree with `toLowerCase`.
   */
  predicate PlainName(name: string)
  {
    '-' !in name && forall k :: 0 <= k < |name| ==> name[k] as int < 128
  }

  /** The definitions this model accepts: the keys of an object are distinct, and every name is plain. */
  predicate WellFormed(defs: seq<PropDef>)
  {
    DistinctNames(defs) && forall i :: 0 <= i < |defs| ==> PlainName(defs[i].name)
  }

  function Names(defs: seq<PropDef>): set<string>
  {
    set d | d in defs :: d.name
  }

  /** `props[prop]`: the definition declared under `name`, if any. */
  function Lookup(defs: seq<PropDef>, name: string): (r: Option<PropDef>)
    ensures r.Some? <==> name in Names(defs)
    ensures r.Some? ==> r.value in defs && r.value.name == name
  {
    if defs == [] then None
    else if defs[0].name == name then Some(defs[0])
    else
      var r := Lookup(defs[1..], name);
      assert Names(defs) == {defs[0].name} + Names(defs[1..]) by {
        assert defs == [defs[0]] + defs[1..];
      }
      r
  }

  lemma {:induction false} LookupFinds(defs: seq<PropDef>, k: nat)
    requires DistinctNames(defs) && k < |defs|
    ensures Lookup(defs, defs[k].name) == Some(defs[k])
  {
    if k > 0 {
      assert defs[1..][k - 1] == defs[k];
      LookupFinds(defs[1..], k - 1);
    }
  }

  /** `observedAttributes`: the dash-case name of every declared property, in declaration order. */
  function ObservedAttributes(defs: seq<PropDef>): (r: seq<string>)
    ensures |r| == |defs|
    ensures forall i :: 0 <= i < |r| ==> r[i] == AttrName(defs[i])
    ensures WellFormed(defs) ==> forall i :: 0 <= i < |r| ==> IsDashCase(r[i]) && DashToCamel(r[i]) == defs[i].name
  {
    if defs == [] then []
    else
      var rest := ObservedAttributes(defs[1..]);
      if WellFormed(defs) then
        CamelRoundTrip(defs[0].name);
        assert WellFormed(defs[1..]) by {
          forall i | 0 <= i < |defs[1..]| ensures PlainName(defs[1..][i].name) {
            assert defs[1..][i] == defs[i + 1];
          }
        }
        [AttrName(defs[0])] + rest
      else
        [AttrName(defs[0])] + rest
  }

  /** `target[prop]` before an accessor exists: an own data property, or undefined. */
  function OwnValue(own: map<string, Value>, name: string): Value
  {
    if name in own then own[name] else Undefined
  }

  // ---------------------------------------------------------------------
  // The two loops of connectedCallback, as folds over the store and the scheduler

  /** `addPropertyAccessor` on a fresh property: the initial-value write, if any, through the setter. */
  function InstallOne(d: PropDef, own: map<string, Value>, s: (Store, Scheduler.Sched)): (Store, Scheduler.Sched)
  {
    match InitialValue(d, OwnValue(own, d.name), s.0.attrs)
    case None => s
    case Some(v) => (Write(d, s.0, v), Scheduler.Invalidate(s.1))
  }

  /** The loop of `initializeProperties` over properties that have no accessor yet. */
  function InstallAll(defs: seq<PropDef>, own: map<string, Value>, s: (Store, Scheduler.Sched)): (Store, Scheduler.Sched)
    decreases |defs|
  {
    if defs == [] then s else InstallOne(defs[|defs| - 1], own, InstallAll(defs[..|defs| - 1], own, s))
  }

  /** One more step of the installation loop, and the own property it reads is still the original one. */
  lemma InstallPrefixStep(defs: seq<PropDef>, i: nat, own: map<string, Value>, s: (Store, Scheduler.Sched))
    requires DistinctNames(defs) && i < |defs|
    ensures InstallAll(defs[..i + 1], own, s) == InstallOne(defs[i], own, InstallAll(defs[..i], own, s))
    ensures Names(defs[..i + 1]) == Names(defs[..i]) + {defs[i].name}
    ensures defs[i].name !in Names(defs[..i])
    ensures forall x :: InstallOne(defs[i], own - Names(defs[..i]), x) == InstallOne(defs[i], own, x)
    ensures own - Names(defs[..i]) - {defs[i].name} == own - Names(defs[..i + 1])
  {
    assert defs[..i + 1] == defs[..i] + [defs[i]];
    assert defs[..i + 1][..i] == defs[..i];
    assert OwnValue(own - Names(defs[..i]), defs[i].name) == OwnValue(own, defs[i].name);
  }

  /**
   * `upgradeProperty(target, name)` when `name` is an installed accessor:
   * the delete is refused, and the getter's value goes back through the
   * setter. For any other own property the delete and reassignment leave
   * things as they were.
   */
  function ReplayOne(name: string, defs: seq<PropDef>, installed: set<string>, s: (Store, Scheduler.Sched)): (Store, Scheduler.Sched)
  {
    if name in installed && Lookup(defs, name).Some? then
      var d := Lookup(defs, name).value;
      (Write(d, NoteRead(d, s.0), Read(d, s.0)), Scheduler.Invalidate(s.1))
    else s
  }

  /** The `forEach` of `upgradeObservedAttributes`. */
  function ReplayAll(names: seq<string>, defs: seq<PropDef>, installed: set<string>, s: (Store, Scheduler.Sched)): (Store, Scheduler.Sched)
    decreases |names|
  {
    if names == [] then s else ReplayOne(names[|names| - 1], defs, installed, ReplayAll(names[..|names| - 1], defs, installed, s))
  }
  /** One more step of the `forEach`. */
  lemma ReplayPrefixStep(names: seq<string>, i: nat, defs: seq<PropDef>, installed: set<string>, s: (Store, Scheduler.Sched))
    requires i < |names|
    ensures ReplayAll(names[..i + 1], defs, installed, s) == ReplayOne(names[i], defs, installed, ReplayAll(names[..i], defs, installed, s))
  {
    assert names[..i + 1][..i] == names[..i];
  }


  /** Before any accessor is installed, `upgradeObservedAttributes` changes nothing. */
  lemma {:induction false} ReplayBeforeInstallIsNoop(names: seq<string>, defs: seq<PropDef>, s: (Store, Scheduler.Sched))
    ensures ReplayAll(names, defs, {}, s) == s
    decreases |names|
  {
    if names != [] {
      ReplayBeforeInstallIsNoop(names[..|names| - 1], defs, s);
    }
  }

  /** However many properties receive an initial value, installation schedules at most one render. */
  lemma {:induction false} InstallSchedulesAtMostOnce(defs: seq<PropDef>, own: map<string, Value>, s: (Store, Scheduler.Sched))
    ensures InstallAll(defs, own, s).1 == s.1 || InstallAll(defs, own, s).1 == Scheduler.Invalidate(s.1)
    decreases |defs|
  {
    if defs != [] {
      InstallSchedulesAtMostOnce(defs[..|defs| - 1], own, s);
    }
  }

  /** Installation writes no attribute but those of the installed properties, and no slot but theirs. */
  lemma {:induction false} InstallAllFrame(defs: seq<PropDef>, own: map<string, Value>, s: (Store, Scheduler.Sched), d: PropDef)
    requires forall e :: e in defs ==> e.name != d.name && AttrName(e) != AttrName(d)
    ensures SameFor(d, InstallAll(defs, own, s).0, s.0)
    decreases |defs|
  {
    if defs != [] {
      var pre := defs[..|defs| - 1];
      assert forall e :: e in pre ==> e in defs;
      InstallAllFrame(pre, own, s, d);
    }
  }

  /** The definitions before the last one neither share its name nor its attribute name. */
  lemma PrefixDistinctFromLast(defs: seq<PropDef>)
    requires WellFormed(defs) && defs != []
    ensures var d := defs[|defs| - 1];
      forall e :: e in defs[..|defs| - 1] ==> e.name != d.name && AttrName(e) != AttrName(d)
  {
    var last := |defs| - 1;
    var d := defs[last];
    forall e | e in defs[..last] ensures e.name != d.name && AttrName(e) != AttrName(d) {
      var i :| 0 <= i < last && defs[..last][i] == e;
      assert e == defs[i];
      CamelToDashInjective(e.name, d.name);
    }
  }

  /** Installing the definitions before the last one leaves the last one's attribute and slot as they were. */
  lemma PrefixSparesLast(defs: seq<PropDef>, own: map<string, Value>, s: (Store, Scheduler.Sched))
    requires WellFormed(defs) && defs != []
    ensures var d := defs[|defs| - 1]; var mid := InstallAll(defs[..|defs| - 1], own, s);
      SameFor(d, mid.0, s.0) && GetAttribute(mid.0.attrs, AttrName(d)) == GetAttribute(s.0.attrs, AttrName(d))
  {
    var last := |defs| - 1;
    var d := defs[last];
    PrefixDistinctFromLast(defs);
    InstallAllFrame(defs[..last], own, s, d);
    AttrUntouched(defs[..last], own, s, AttrName(d));
  }

  /** The last definition's write leaves every earlier property's attribute and slot as they were. */
  lemma LastSparesPrefix(defs: seq<PropDef>, own: map<string, Value>, s: (Store, Scheduler.Sched), k: nat)
    requires WellFormed(defs) && k < |defs| - 1
    ensures SameFor(defs[k], InstallAll(defs, own, s).0, InstallAll(defs[..|defs| - 1], own, s).0)
  {
    CamelToDashInjective(defs[|defs| - 1].name, defs[k].name);
  }

  /**
   * Initial-value precedence, property by property: after installation each
   * property reads as if only its own initial-value write had happened
   * (imperative value, else existing attribute, else default, else no write).
   */
  lemma {:induction false} InstallPrecedence(defs: seq<PropDef>, own: map<string, Value>, s: (Store, Scheduler.Sched), k: nat)
    requires WellFormed(defs) && k < |defs|
    ensures Read(defs[k], InstallAll(defs, own, s).0) ==
      match InitialValue(defs[k], OwnValue(own, defs[k].name), s.0.attrs)
      case None => Read(defs[k], s.0)
      case Some(v) => Read(defs[k], Write(defs[k], s.0, v))
    decreases |defs|
  {
    var d := defs[k];
    var last := |defs| - 1;
    var pre := defs[..last];
    var mid := InstallAll(pre, own, s);
    if k == last {
      PrefixSparesLast(defs, own, s);
      assert InitialValue(d, OwnValue(own, d.name), mid.0.attrs) == InitialValue(d, OwnValue(own, d.name), s.0.attrs) by {
        assert (AttrName(d) in mid.0.attrs) == (AttrName(d) in s.0.attrs);
      }
      match InitialValue(d, OwnValue(own, d.name), s.0.attrs)
      case None =>
        ReadIsLocal(d, mid.0, s.0);
      case Some(v) =>
        WriteIsLocal(d, mid.0, s.0, v);
        ReadIsLocal(d, Write(d, mid.0, v), Write(d, s.0, v));
    } else {
      assert WellFormed(pre) by {
        forall i | 0 <= i < |pre| ensures PlainName(pre[i].name) { assert pre[i] == defs[i]; }
      }
      assert defs[k] == pre[k];
      InstallPrecedence(pre, own, s, k);
      LastSparesPrefix(defs, own, s, k);
      ReadIsLocal(d, InstallAll(defs, own, s).0, mid.0);
    }
  }

  /** Installation leaves an attribute that no installed property reflects to as it was. */
  lemma {:induction false} AttrUntouched(defs: seq<PropDef>, own: map<string, Value>, s: (Store, Scheduler.Sched), a: string)
    requires forall e :: e in defs ==> AttrName(e) != a
    ensures GetAttribute(InstallAll(defs, own, s).0.attrs, a) == GetAttribute(s.0.attrs, a)
    decreases |defs|
  {
    if defs != [] {
      var pre := defs[..|defs| - 1];
      assert forall e :: e in pre ==> e in defs;
      AttrUntouched(pre, own, s, a);
    }
  }

  // ---------------------------------------------------------------------
  // The element

  class Element {
    /** The component type's `properties` block, in key order. */
    const defs: seq<PropDef>
    var attrs: map<string, string>
    /** `target[Symbol.for(prop)]` of the non-reflected properties. */
    var slots: map<string, Value>
    /** The properties a `console.warn` was logged for, oldest first. */
    var warnings: seq<string>
    /** Own data properties of the instance, set before their accessors were installed. */
    var own: map<string, Value>
    /** The properties whose accessor pair is defined on the instance. */
    var installed: set<string>
    /** `__initialized` */
    var initialized: bool
    /** `_needsRender` */
    var needsRender: bool
    /** The pending microtasks. */
    var queue: seq<Scheduler.Job>
    var renders: nat
    /** The property store as the latest render saw it. */
    var lastRender: Store

    /** The invariant that holds between the element's callbacks, also midway through installation. */
    ghost predicate Consistent()
      reads this
    {
      && WellFormed(defs)
      && installed <= Names(defs)
      && own.Keys !! installed
      && Scheduler.Coherent(Schedule())
    }

    /** `__initialized` is set exactly when every accessor is installed, and no accessor is before. */
    ghost predicate Valid()
      reads this
    {
      && Consistent()
      && (initialized ==> installed == Names(defs))
      && (!initialized ==> installed == {})
    }

    function CurrentStore(): Store
      reads this
    {
      Store(attrs, slots, warnings)
    }

    function Schedule(): Scheduler.Sched
      reads this
    {
      Scheduler.Sched(needsRender, queue, renders)
    }

    /**
     * The constructor, for an element that may already carry attributes and
     * own properties when it is upgraded: it performs the one synchronous
     * render, before any property can be written.
     */
    constructor (defs: seq<PropDef>, attrs: map<string, string>, own: map<string, Value>)
      requires WellFormed(defs)
      ensures Valid()
      ensures this.defs == defs && this.attrs == attrs && this.own == own
      ensures slots == map[] && warnings == [] && installed == {} && !initialized
      ensures Schedule() == Scheduler.Initial() && lastRender == CurrentStore()
    {
      this.defs := defs;
      this.attrs := attrs;
      this.own := own;
      slots := map[];
      warnings := [];
      installed := {};
      initialized := false;
      needsRender := false;
      queue := [];
      renders := 0;
      lastRender := Store(attrs, map[], []);
      new;
      Render();
    }

    /** `render()`: the template sees the current property values. */
    method Render()
      modifies this`renders, this`lastRender
      ensures renders == old(renders) + 1 && lastRender == CurrentStore()
    {
      renders := renders + 1;
      lastRender := CurrentStore();
    }

    /** `invalidate()` */
    method Invalidate()
      requires Consistent()
      modifies this`needsRender, this`queue
      ensures Consistent()
      ensures Schedule() == Scheduler.Invalidate(old(Schedule()))
    {
      Scheduler.CoherentPreserved(Schedule(), Undefined);
      if !needsRender {
        needsRender := true;
        // `this.async(() => { ... })`: the arrow function passes the function check
        queue := queue + [Scheduler.Flush];
      }
    }

    /** `async(callback)` */
    method Async(callback: Value)
      requires Consistent()
      modifies this`queue
      ensures Consistent()
      ensures Schedule() == Scheduler.Async(old(Schedule()), callback)
    {
      Scheduler.CoherentPreserved(Schedule(), callback);
      if callback.Fn? {
        queue := queue + [Scheduler.Invoke(callback)];
      }
    }

    /**
     * One microtask. The deferred render callback clears `_needsRender`
     * and renders the latest store; a callback from elsewhere does nothing
     * this model can see.
     */
    method RunDeferred() returns (ran: bool)
      requires Consistent()
      modifies this`needsRender, this`queue, this`renders, this`lastRender
      ensures Consistent()
      ensures ran <==> old(queue) != []
      ensures Schedule() == Scheduler.RunDeferred(old(Schedule()))
      ensures old(queue) != [] && old(queue)[0].Flush? ==> lastRender == CurrentStore()
      ensures !(old(queue) != [] && old(queue)[0].Flush?) ==> lastRender == old(lastRender)
    {
      Scheduler.CoherentPreserved(Schedule(), Undefined);
      if queue == [] {
        return false;
      }
      var job := queue[0];
      queue := queue[1..];
      ran := true;
      match job
      case Flush =>
        needsRender := false;
        Render();
      case Invoke(_) =>
    }

    /** `propertiesInitialized` */
    function PropertiesInitialized(): (r: bool)
      reads this
      requires Valid()
      ensures r ==> installed == Names(defs)
      ensures !r ==> installed == {}
    {
      initialized
    }

    /** What `target[name]` reads, without the getter's warning. */
    function PropertyValue(name: string): Value
      reads this
      requires Consistent()
    {
      if name in installed then Read(Lookup(defs, name).value, CurrentStore()) else OwnValue(own, name)
    }

    /** `target[name]`: the getter when the accessor is installed, the own data property otherwise. */
    method GetProperty(name: string) returns (v: Value)
      requires Consistent()
      modifies this`warnings
      ensures Consistent()
      ensures v == old(PropertyValue(name))
      ensures name in installed ==> CurrentStore() == NoteRead(Lookup(defs, name).value, old(CurrentStore()))
      ensures name !in installed ==> warnings == old(warnings)
    {
      if name in installed {
        var d := Lookup(defs, name).value;
        v := Read(d, CurrentStore());
        if ReflectWarns(d) {
          warnings := warnings + [d.name];
        }
      } else {
        v := OwnValue(own, name);
      }
    }

    /**
     * `target[name] = valueOrFn`: the setter when the accessor is installed,
     * which writes the store and then invalidates; otherwise a plain own data
     * property.
     */
    method SetProperty(name: string, valueOrFn: Value)
      requires Consistent()
      modifies this`attrs, this`slots, this`warnings, this`own, this`needsRender, this`queue
      ensures Consistent()
      ensures name in installed ==>
        && CurrentStore() == Write(Lookup(defs, name).value, old(CurrentStore()), valueOrFn)
        && Schedule() == Scheduler.Invalidate(old(Schedule()))
        && own == old(own)
      ensures name !in installed ==>
        own == old(own)[name := valueOrFn] && CurrentStore() == old(CurrentStore()) && Schedule() == old(Schedule())
    {
      if name in installed {
        var d := Lookup(defs, name).value;
        var st := Write(d, CurrentStore(), valueOrFn);
        attrs, slots, warnings := st.attrs, st.slots, st.warnings;
        Invalidate();
      } else {
        own := own[name := valueOrFn];
      }
    }

    /** `upgradeProperty(target, name)` */
    method UpgradeProperty(name: string)
      requires Consistent()
      modifies this`attrs, this`slots, this`warnings, this`own, this`needsRender, this`queue
      ensures Consistent() && own == old(own)
      ensures (CurrentStore(), Schedule()) == ReplayOne(name, defs, installed, (old(CurrentStore()), old(Schedule())))
    {
      if name in own || name in installed {
        var value := GetProperty(name);
        if name !in installed {
          // a configurable data property is deleted; the installed accessor is not configurable and stays
          own := own - {name};
        }
        SetProperty(name, value);
        assert name !in installed ==> own == old(own);
      }
    }

    /** `upgradeObservedAttributes(target)` */
    method UpgradeObservedAttributes()
      requires Consistent()
      modifies this`attrs, this`slots, this`warnings, this`own, this`needsRender, this`queue
      ensures Consistent() && own == old(own)
      ensures (CurrentStore(), Schedule()) ==
        ReplayAll(ObservedAttributes(defs), defs, installed, (old(CurrentStore()), old(Schedule())))
    {
      var names := ObservedAttributes(defs);
      ghost var s0 := (CurrentStore(), Schedule());
      var i := 0;
      while i < |names|
        invariant 0 <= i <= |names|
        invariant Consistent() && own == old(own)
        invariant (CurrentStore(), Schedule()) == ReplayAll(names[..i], defs, installed, s0)
      {
        ReplayPrefixStep(names, i, defs, installed, s0);
        UpgradeProperty(names[i]);
        i := i + 1;
      }
      assert names[..|names|] == names;
    }

    /**
     * `addPropertyAccessor(target, prop, type, value, reflect)`: capture the
     * current value, define the accessor pair (which throws if one is
     * already defined), then perform the initial-value write.
     */
    method AddPropertyAccessor(d: PropDef) returns (r: Outcome)
      requires Consistent() && d in defs
      modifies this`attrs, this`slots, this`warnings, this`own, this`installed, this`needsRender, this`queue
      ensures Consistent()
      ensures d.name in old(installed) ==>
        && r == Fail(CannotRedefine(d.name))
        && CurrentStore() == NoteRead(d, old(CurrentStore()))
        && own == old(own) && installed == old(installed) && Schedule() == old(Schedule())
      ensures d.name !in old(installed) ==>
        && r == Pass
        && installed == old(installed) + {d.name} && own == old(own) - {d.name}
        && (CurrentStore(), Schedule()) == InstallOne(d, old(own), (old(CurrentStore()), old(Schedule())))
    {
      var k :| 0 <= k < |defs| && defs[k] == d;
      LookupFinds(defs, k);
      var initialValue := GetProperty(d.name);
      if d.name in installed {
        return Fail(CannotRedefine(d.name));
      }
      installed := installed + {d.name};
      own := own - {d.name};
      r := Pass;
      match InitialValue(d, initialValue, attrs)
      case None =>
      case Some(v) =>
        SetProperty(d.name, v);
    }

    /** `initializeProperties(target)`: install every accessor, then set `__initialized`. */
    method InitializeProperties() returns (r: Outcome)
      requires Valid()
      modifies this`attrs, this`slots, this`warnings, this`own, this`installed, this`initialized, this`needsRender, this`queue
      ensures Valid()
      ensures old(initialized) && |defs| > 0 ==>
        && r == Fail(CannotRedefine(defs[0].name))
        && CurrentStore() == NoteRead(defs[0], old(CurrentStore()))
        && own == old(own) && installed == old(installed) && Schedule() == old(Schedule())
      ensures !(old(initialized) && |defs| > 0) ==>
        && r == Pass && initialized
        && own == old(own) - Names(defs)
        && (CurrentStore(), Schedule()) == InstallAll(defs, old(own), (old(CurrentStore()), old(Schedule())))
    {
      ghost var own0, s0 := own, (CurrentStore(), Schedule());
      var i := 0;
      while i < |defs|
        invariant 0 <= i <= |defs|
        invariant Consistent() && initialized == old(initialized)
        invariant old(initialized) ==> i == 0 && installed == old(installed) && own == own0 && (CurrentStore(), Schedule()) == s0
        invariant !old(initialized) ==>
          && installed == Names(defs[..i])
          && own == own0 - Names(defs[..i])
          && (CurrentStore(), Schedule()) == InstallAll(defs[..i], own0, s0)
      {
        var d := defs[i];
        InstallPrefixStep(defs, i, own0, s0);
        var res := AddPropertyAccessor(d);
        if res.Fail? {
          return res;
        }
        i := i + 1;
      }
      assert defs[..|defs|] == defs;
      initialized := true;
      r := Pass;
    }

    /**
     * `connectedCallback()` as written: replay the observed properties, then
     * install the accessors. On a second connection the replay goes through
     * the installed setters and the installation throws.
     */
    method ConnectedCallback() returns (r: Outcome)
      requires Valid()
      modifies this`attrs, this`slots, this`warnings, this`own, this`installed, this`initialized, this`needsRender, this`queue
      ensures Valid()
      ensures !old(initialized) ==>
        && r == Pass && initialized && installed == Names(defs)
        && own == old(own) - Names(defs)
        && (CurrentStore(), Schedule()) == InstallAll(defs, old(own), (old(CurrentStore()), old(Schedule())))
      ensures old(initialized) && |defs| > 0 ==>
        && r == Fail(CannotRedefine(defs[0].name))
        && own == old(own) && installed == old(installed)
        && var replayed := ReplayAll(ObservedAttributes(defs), defs, old(installed), (old(CurrentStore()), old(Schedule())));
           CurrentStore() == NoteRead(defs[0], replayed.0) && Schedule() == replayed.1
      ensures old(initialized) && |defs| == 0 ==>
        r == Pass && CurrentStore() == old(CurrentStore()) && Schedule() == old(Schedule()) && own == old(own)
    {
      ReplayBeforeInstallIsNoop(ObservedAttributes(defs), defs, (CurrentStore(), Schedule()));
      UpgradeObservedAttributes();
      r := InitializeProperties();
    }

    /**
     * `connectedCallback()` as intended: the properties are installed on the
     * first connection only, and a later connection changes nothing.
     */
    method ConnectedCallbackOnce() returns (r: Outcome)
      requires Valid()
      modifies this`attrs, this`slots, this`warnings, this`own, this`installed, this`initialized, this`needsRender, this`queue
      ensures Valid() && r == Pass && initialized && installed == Names(defs)
      ensures !old(initialized) ==>
        && own == old(own) - Names(defs)
        && (CurrentStore(), Schedule()) == InstallAll(defs, old(own), (old(CurrentStore()), old(Schedule())))
      ensures old(initialized) ==>
        CurrentStore() == old(CurrentStore()) && Schedule() == old(Schedule()) && own == old(own)
    {
      if !initialized {
        ReplayBeforeInstallIsNoop(ObservedAttributes(defs), defs, (CurrentStore(), Schedule()));
        UpgradeObservedAttributes();
        r := InitializeProperties();
      } else {
        r := Pass;
      }
    }

    /**
     * `attributeChangedCallback(attr, oldValue, newValue)`: a changed
     * attribute is deserialized and written through the property's setter,
     * once the properties are initialized.
     */
    method AttributeChanged(attr: string, oldValue: Option<string>, newValue: Option<string>) returns (r: Outcome)
      requires Valid()
      requires GetAttribute(attrs, attr) == newValue
      modifies this`attrs, this`slots, this`warnings, this`own, this`needsRender, this`queue
      ensures Valid()
      ensures var prop := DashToCamel(attr);
        if newValue == oldValue || (Lookup(defs, prop).Some? && !initialized) then
          r == Pass && CurrentStore() == old(CurrentStore()) && Schedule() == old(Schedule()) && own == old(own)
        else if Lookup(defs, prop).None? then
          r == Fail(UndeclaredProperty(prop))
          && CurrentStore() == old(CurrentStore()) && Schedule() == old(Schedule()) && own == old(own)
        else
          var d := Lookup(defs, prop).value;
          && r == Pass && own == old(own)
          && CurrentStore() == Write(d, old(CurrentStore()), Deserialize(attr, newValue, d.ptype))
          && Schedule() == Scheduler.Invalidate(old(Schedule()))
    {
      r := Pass;
      if newValue != oldValue {
        var prop := DashToCamel(attr);
        var d := Lookup(defs, prop);
        if d.None? {
          return Fail(UndeclaredProperty(prop));
        }
        if initialized {
          SetProperty(prop, Deserialize(attr, newValue, d.value.ptype));
        }
      }
    }

    /**
     * The host sets (`Some`) or removes (`None`) an attribute, by markup or by
     * other code, and then reports the change to `attributeChangedCallback`
     * when the attribute is observed. An observed attribute always names a
     * declared property, so the callback never throws here.
     */
    method HostSetAttribute(name: string, value: Option<string>) returns (r: Outcome)
      requires Valid()
      modifies this`attrs, this`slots, this`warnings, this`own, this`needsRender, this`queue
      ensures Valid() && r == Pass && own == old(own)
      ensures var st := old(CurrentStore()).(attrs := HostWrite(old(attrs), name, value));
        if name !in ObservedAttributes(defs) || value == old(GetAttribute(attrs, name)) || !initialized then
          CurrentStore() == st && Schedule() == old(Schedule())
        else
          && Lookup(defs, DashToCamel(name)).Some?
          && var d := Lookup(defs, DashToCamel(name)).value;
          && CurrentStore() == Write(d, st, Deserialize(name, value, d.ptype))
          && Schedule() == Scheduler.Invalidate(old(Schedule()))
    {
      var before := GetAttribute(attrs, name);
      attrs := HostWrite(attrs, name, value);
      r := Pass;
      if name in ObservedAttributes(defs) {
        ObservedAreDeclared(defs, name);
        r := AttributeChanged(name, before, value);
      }
    }
  }

  /** Every observed attribute names a declared property. */
  lemma ObservedAreDeclared(defs: seq<PropDef>, attr: string)
    requires WellFormed(defs) && attr in ObservedAttributes(defs)
    ensures Lookup(defs, DashToCamel(attr)).Some?
  {
    var r := ObservedAttributes(defs);
    var i :| 0 <= i < |r| && r[i] == attr;
    assert defs[i] in defs;
  }

  /** The host's attribute store after it sets or removes `name`. */
  function HostWrite(attrs: map<string, string>, name: string, value: Option<string>): (r: map<string, string>)
    ensures GetAttribute(r, name) == value
    ensures forall a :: a != name ==> GetAttribute(r, a) == GetAttribute(attrs, a)
  {
    if value.Some? then attrs[name := value.value] else attrs - {name}
  }

  lemma RankAttribute(d: PropDef)
    requires d.name == "rank"
    ensures AttrName(d) == "rank"
  {
    assert CamelToDash("k") == "k";
    assert CamelToDash("nk") == "nk";
    assert CamelToDash("ank") == "ank";
  }

  /** When no property has an imperative value, an attribute or a default, installation writes nothing and schedules nothing. */
  lemma {:induction false} InstallWithoutSourcesIsNoop(defs: seq<PropDef>, own: map<string, Value>, s: (Store, Scheduler.Sched))
    requires forall d :: d in defs ==> InitialValue(d, OwnValue(own, d.name), s.0.attrs) == None
    ensures InstallAll(defs, own, s) == s
    decreases |defs|
  {
    if defs != [] {
      var pre := defs[..|defs| - 1];
      assert forall d :: d in pre ==> d in defs;
      InstallWithoutSourcesIsNoop(pre, own, s);
      assert defs[|defs| - 1] in defs;
    }
  }

  /**
   * Replaying an installed reflected String whose attribute is absent, and
   * whose attribute name is its property name (so that `upgradeProperty`
   * reaches it), writes the getter's '' back: the attribute appears with value "".
   */
  lemma ReplayUnsetReflectedString(defs: seq<PropDef>, installed: set<string>, s: (Store, Scheduler.Sched), k: nat)
    requires DistinctNames(defs) && k < |defs|
    requires defs[k].reflect && defs[k].ptype == String && AttrName(defs[k]) == defs[k].name
    requires defs[k].name in installed && AttrName(defs[k]) !in s.0.attrs
    ensures GetAttribute(ReplayOne(AttrName(defs[k]), defs, installed, s).0.attrs, AttrName(defs[k])) == Some("")
  {
    LookupFinds(defs, k);
  }

  /**
   * Replaying an installed non-reflected property that was never written
   * sends undefined through its setter: the slot then holds the coercion of
   * undefined, the string "undefined" for a String.
   */
  lemma ReplayUnsetNotReflected(defs: seq<PropDef>, installed: set<string>, s: (Store, Scheduler.Sched), k: nat)
    requires DistinctNames(defs) && k < |defs|
    requires !defs[k].reflect && AttrName(defs[k]) == defs[k].name
    requires defs[k].name in installed && Slot(s.0.slots, defs[k].name) == Undefined
    ensures var slot := Slot(ReplayOne(AttrName(defs[k]), defs, installed, s).0.slots, defs[k].name);
      && (defs[k].ptype == String ==> slot == Str("undefined"))
      && (defs[k].ptype == Number ==> slot == Num(NaN))
      && (defs[k].ptype == Boolean ==> slot == Bool(false))
      && (defs[k].ptype == Array || defs[k].ptype == Object ==> slot == Null)
  {
    LookupFinds(defs, k);
  }

  /** For the declarations `[rank]`, the replay of a connection is the replay of `rank` alone. */
  lemma RankReplayIsOneStep(d: PropDef, s: (Store, Scheduler.Sched))
    requires d.name == "rank"
    ensures ReplayAll(ObservedAttributes([d]), [d], {"rank"}, s) == ReplayOne("rank", [d], {"rank"}, s)
  {
    RankAttribute(d);
    assert ObservedAttributes([d]) == ["rank"];
    assert ["rank"][..0] == [];
  }

  /**
   * Connecting an element a second time, as written: the reflected String
   * property `rank`, never set, gains the attribute rank="" from the replay,
   * and the installation then throws.
   */
  method ReconnectThrows() returns (first: Outcome, second: Outcome, rank: Option<string>)
    ensures first == Pass
    ensures second == Fail(CannotRedefine("rank"))
    ensures rank == Some("")
  {
    var d := PropDef("rank", String, Undefined, true);
    assert WellFormed([d]);
    var e := new Element([d], map[], map[]);
    RankAttribute(d);
    InstallWithoutSourcesIsNoop([d], map[], (e.CurrentStore(), e.Schedule()));
    first := e.ConnectedCallback();
    RankReplayIsOneStep(d, (e.CurrentStore(), e.Schedule()));
    ReplayUnsetReflectedString([d], {"rank"}, (e.CurrentStore(), e.Schedule()), 0);
    second := e.ConnectedCallback();
    rank := GetAttribute(e.attrs, "rank");
  }

  /** Installing a non-reflected String `rank` with no own value over the attribute rank="7" stores "7". */
  lemma RankFromAttribute(d: PropDef, s: (Store, Scheduler.Sched))
    requires d == PropDef("rank", String, Undefined, false) && s.0.attrs == map["rank" := "7"]
    ensures Read(d, InstallAll([d], map[], s).0) == Str("7")
  {
    RankAttribute(d);
    assert [d][..0] == [];
    assert InitialValue(d, Undefined, s.0.attrs) == Some(Str("7"));
  }

  /**
   * An attribute the host sets before the first connection is ignored by
   * the callback and picked up at installation: a non-reflected String
   * `rank` declared without default reads as the attribute's value.
   */
  method AttributeBeforeConnect() returns (before: Outcome, value: Value)
    ensures before == Pass
    ensures value == Str("7")
  {
    var d := PropDef("rank", String, Undefined, false);
    assert WellFormed([d]);
    var e := new Element([d], map[], map[]);
    before := e.HostSetAttribute("rank", Some("7"));
    assert e.attrs == map["rank" := "7"];
    RankFromAttribute(d, (e.CurrentStore(), e.Schedule()));
    var connected := e.ConnectedCallbackOnce();
    LookupFinds([d], 0);
    value := e.GetProperty("rank");
  }

  /** The same two connections with installation once: both pass and no attribute appears. */
  method ReconnectOnceKeepsState() returns (first: Outcome, second: Outcome, rank: Option<string>)
    ensures first == Pass && second == Pass
    ensures rank == None
  {
    var d := PropDef("rank", String, Undefined, true);
    assert WellFormed([d]);
    var e := new Element([d], map[], map[]);
    RankAttribute(d);
    InstallWithoutSourcesIsNoop([d], map[], (e.CurrentStore(), e.Schedule()));
    first := e.ConnectedCallbackOnce();
    second := e.ConnectedCallbackOnce();
    rank := GetAttribute(e.attrs, "rank");
  }
}
