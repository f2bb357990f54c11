/**
 * PropertyRegistrar.registerProperties: the annotated properties of the bridged object,
 * exposed through a metatable whose __index reads a property and whose __newindex writes one.
 */
module Properties {
  import opened Base
  import opened Lua
  import Converter
  import opened Tables

  /** The property is annotated and exposed under `name`. */
  predicate Exposes(p: KProperty, name: string)
  {
    p.annotation.Some? && ExposedName(p.name, p.annotation.value) == name
  }

  /** mapNotNull over the annotated properties, then toMap: a later property of the same name wins. */
  function PropertyMap(props: seq<KProperty>): (m: map<string, KProperty>)
    ensures forall n :: n in m ==> Exposes(m[n], n)
    decreases |props|
  {
    if props == [] then map[]
    else
      var last := props[|props| - 1];
      var m := PropertyMap(props[..|props| - 1]);
      if last.annotation.Some? then m[ExposedName(last.name, last.annotation.value) := last] else m
  }

  /** A name is mapped exactly when some annotated property is exposed under it. */
  lemma {:induction false} PropertyMapDomain(props: seq<KProperty>, name: string)
    ensures name in PropertyMap(props) <==> exists i :: 0 <= i < |props| && Exposes(props[i], name)
    decreases |props|
  {
    if props != [] {
      var prefix := props[..|props| - 1];
      PropertyMapDomain(prefix, name);
      assert forall i :: 0 <= i < |prefix| ==> prefix[i] == props[i];
      if name in PropertyMap(props) && !Exposes(props[|props| - 1], name) {
        assert name in PropertyMap(prefix);
      }
    }
  }

  /** The name maps to the last annotated property exposed under it. */
  lemma {:induction false} PropertyMapLastWins(props: seq<KProperty>, name: string, i: nat)
    requires i < |props| && Exposes(props[i], name)
    requires forall j :: i < j < |props| ==> !Exposes(props[j], name)
    ensures name in PropertyMap(props) && PropertyMap(props)[name] == props[i]
    decreases |props|
  {
    if i < |props| - 1 {
      var prefix := props[..|props| - 1];
      assert forall j :: i < j < |prefix| ==> prefix[j] == props[j];
      PropertyMapLastWins(prefix, name, i);
    }
  }

  /** The metatable registerProperties installs: exactly an __index and a __newindex over the map. */
  function PropertyHooks(props: map<string, KProperty>, legacy: bool): (m: Metatable)
    ensures m.index.Some? && m.newindex.Some?
  {
    Metatable(Some(PropertyIndex(props, legacy)), Some(PropertyNewIndex(props, legacy)))
  }

  class PropertyRegistrar {
    const owner: TwineTable
    /** owner::class.memberProperties, in reflection's order. */
    const properties: seq<KProperty>

    constructor (owner: TwineTable, properties: seq<KProperty>)
      ensures this.owner == owner && this.properties == properties
    {
      this.owner := owner;
      this.properties := properties;
    }

    /** registerProperties: the owner's metatable is replaced wholesale; earlier hooks are gone. */
    method RegisterProperties()
      modifies owner
      ensures owner.raw == old(owner.raw)
      ensures owner.meta == Some(PropertyHooks(PropertyMap(properties), false))
    {
      var map_ := PropertyMap(properties);
      owner.SetMetatable(Metatable(Some(PropertyIndex(map_, false)), Some(PropertyNewIndex(map_, false))));
    }
  }

  /**
   * Reading a key the table does not hold, once properties are registered: the last annotated
   * property exposed under the key's text is read; with none, the read fails "No property '<k>'".
   */
  lemma ReadRegisteredProperty(props: seq<KProperty>, raw: map<Key, Value>, k: Key, legacy: bool)
    requires k !in raw
    ensures var a := Read(raw, Some(PropertyHooks(PropertyMap(props), legacy)), k);
      (a.ReadFails? <==> forall i :: 0 <= i < |props| ==> !Exposes(props[i], KeyText(k)))
      && (a.ReadFails? ==> a.error == LuaErr("No property '" + KeyText(k) + "'"))
      && (forall i :: (0 <= i < |props| && Exposes(props[i], KeyText(k))
            && (forall j :: i < j < |props| ==> !Exposes(props[j], KeyText(k)))) ==>
            a == ReadsProperty(props[i], legacy))
  {
    PropertyMapDomain(props, KeyText(k));
    forall i | 0 <= i < |props| && Exposes(props[i], KeyText(k))
      && (forall j :: i < j < |props| ==> !Exposes(props[j], KeyText(k)))
      ensures Read(raw, Some(PropertyHooks(PropertyMap(props), legacy)), k) == ReadsProperty(props[i], legacy)
    {
      PropertyMapLastWins(props, KeyText(k), i);
    }
  }

  /** A write to a read-only property fails exactly like a write to an absent one. */
  lemma ReadOnlyLikeAbsent(props: map<string, KProperty>, raw: map<Key, Value>, k: Key, v: Value, legacy: bool)
    requires k !in raw
    requires KeyText(k) !in props || !props[KeyText(k)].mutable
    ensures Write(raw, Some(PropertyHooks(props, legacy)), k, v) == WriteFails(NoPropertyError(k))
    ensures NoPropertyError(k).message == Some("No property '" + KeyText(k) + "'")
  {
  }

  /**
   * set() after registerProperties chains in front of the property hooks: a key no set()
   * registration named is still answered by the property map.
   */
  lemma SetAfterPropertiesFallsBack(props: map<string, KProperty>, regs: seq<Registration>, raw: map<Key, Value>, k: Key)
    requires k !in raw
    requires forall i :: 0 <= i < |regs| ==> regs[i].name != KeyText(k)
    ensures Read(raw, Registered(Some(PropertyHooks(props, false)), regs), k)
      == Read(raw, Some(PropertyHooks(props, false)), k)
  {
    ReadAfterRegistrations(Some(PropertyHooks(props, false)), regs, k);
    if LastGetter(regs, KeyText(k)).Some? {
      assert false;
    }
  }

  /** "Error getting '<declared name>': <message>", with a null message written "null". */
  function GettingError(prop: KProperty, e: Throwable): (err: Throwable)
    ensures err.kind == LuaError && err.message == Some("Error getting '" + prop.name + "': " + MessageText(e.message))
  {
    LuaErr("Error getting '" + prop.name + "': " + MessageText(e.message))
  }

  /** "Error setting '<declared name>': <message>". */
  function SettingError(prop: KProperty, e: Throwable): (err: Throwable)
    ensures err.kind == LuaError && err.message == Some("Error setting '" + prop.name + "': " + MessageText(e.message))
  {
    LuaErr("Error setting '" + prop.name + "': " + MessageText(e.message))
  }

  /** The __index hook on a known property: call the getter and convert what it returns with toLuaValue. */
  function GetProperty(h: Host, prop: KProperty): (r: Result<Value>)
    ensures r.Ok? <==> h.getProperty(prop).Returned? && Converter.LuaImage(h.u, h.getProperty(prop).value).Ok?
    ensures r.Ok? ==> r.value == Converter.LuaImage(h.u, h.getProperty(prop).value).value
    ensures h.getProperty(prop).Raised? ==> r == Err(GettingError(prop, InvocationError(h.getProperty(prop).cause)))
    ensures h.getProperty(prop).Refused? ==> r == Err(GettingError(prop, h.getProperty(prop).error))
    ensures h.getProperty(prop).Returned? && Converter.LuaImage(h.u, h.getProperty(prop).value).Err? ==>
      r == Err(GettingError(prop, Converter.LuaImage(h.u, h.getProperty(prop).value).error))
  {
    match h.getProperty(prop)
    case Raised(cause) => Err(GettingError(prop, InvocationError(cause)))
    case Refused(e) => Err(GettingError(prop, e))
    case Returned(value) =>
      match Converter.LuaImage(h.u, value)
      case Ok(v) => Ok(v)
      case Err(e) => Err(GettingError(prop, e))
  }

  /** A getter that throws is reported with the null message of the InvocationTargetException wrapping it. */
  lemma GetterExceptionMessage(h: Host, prop: KProperty)
    requires h.getProperty(prop).Raised?
    ensures GetProperty(h, prop).error.message == Some("Error getting '" + prop.name + "': null")
  {
    assert "Error getting '" + prop.name + "': " + "null" == "Error getting '" + prop.name + "': null";
  }

  /**
   * The __newindex hook on a known mutable property: convert the value to the property's type,
   * call the setter, answer TRUE.
   */
  function SetProperty(h: Host, prop: KProperty, v: Value): (r: Result<Value>)
    ensures r.Ok? <==> (Converter.ToKotlinValue(v, Some(prop.ty)).Ok?
      && h.setProperty(prop, Converter.ToKotlinValue(v, Some(prop.ty)).value).Returned?)
    ensures r.Ok? ==> r.value == Bool(true)
    ensures r.Err? ==> r.error.kind == LuaError
    ensures Converter.ToKotlinValue(v, Some(prop.ty)).Err? ==>
      r == Err(SettingError(prop, Converter.ToKotlinValue(v, Some(prop.ty)).error))
    ensures (Converter.ToKotlinValue(v, Some(prop.ty)).Ok?
      && h.setProperty(prop, Converter.ToKotlinValue(v, Some(prop.ty)).value).Raised?) ==>
      r == Err(SettingError(prop, InvocationError(h.setProperty(prop, Converter.ToKotlinValue(v, Some(prop.ty)).value).cause)))
    ensures (Converter.ToKotlinValue(v, Some(prop.ty)).Ok?
      && h.setProperty(prop, Converter.ToKotlinValue(v, Some(prop.ty)).value).Refused?) ==>
      r == Err(SettingError(prop, h.setProperty(prop, Converter.ToKotlinValue(v, Some(prop.ty)).value).error))
  {
    match Converter.ToKotlinValue(v, Some(prop.ty))
    case Err(e) => Err(SettingError(prop, e))
    case Ok(x) =>
      match h.setProperty(prop, x)
      case Raised(cause) => Err(SettingError(prop, InvocationError(cause)))
      case Refused(e) => Err(SettingError(prop, e))
      case Returned(_) => Ok(Bool(true))
  }

  /** Writing a Lua function to a property whose type is not Function0..3 fails before the setter runs. */
  lemma FunctionToPlainProperty(h: Host, prop: KProperty, v: Value)
    requires v.Func? && FunctionArity(prop.ty).None?
    ensures SetProperty(h, prop, v) ==
      Err(SettingError(prop, TwineErr("Unsupported function type: class " + prop.ty.classifier)))
  {
    assert "Unsupported function type: " + ("class " + prop.ty.classifier)
      == "Unsupported function type: class " + prop.ty.classifier;
  }
}
