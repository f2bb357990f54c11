/**
 * ClassMapper.toClass: rebuild a Kotlin object (or enum constant) from a Lua table passed
 * as an argument to a bridged function. The class is the table's __javaClass tag, or,
 * for an untagged table, the first parameter class of the function whose primary
 * constructor has a parameter for every key of the table.
 */
module ClassMapper {
  import opened Base
  import opened Lua
  import Enums
  import Converter

  /** The parameter names of a constructor. */
  function ParamNames(ps: seq<KParam>): (names: set<string>)
    ensures forall i :: 0 <= i < |ps| ==> ps[i].name in names
    ensures forall n :: n in names ==> exists i :: 0 <= i < |ps| && ps[i].name == n
  {
    set i | 0 <= i < |ps| :: ps[i].name
  }

  /** The candidate's primary-constructor parameter names contain every table key. */
  predicate Covers(u: Universe, candidate: KType, keys: set<string>)
  {
    PrimaryCtor(u, candidate).Some? && keys <= ParamNames(PrimaryCtor(u, candidate).value)
  }

  /** The first candidate covering the keys, by position. */
  function FirstCovering(u: Universe, candidates: seq<KType>, keys: set<string>): (r: Option<nat>)
    ensures r.Some? ==> r.value < |candidates| && Covers(u, candidates[r.value], keys)
    ensures r.Some? ==> forall j :: 0 <= j < r.value ==> !Covers(u, candidates[j], keys)
    ensures r.None? ==> forall j :: 0 <= j < |candidates| ==> !Covers(u, candidates[j], keys)
  {
    if candidates == [] then None
    else if Covers(u, candidates[0], keys) then Some(0)
    else
      match FirstCovering(u, candidates[1..], keys)
      case None => None
      case Some(i) => Some(i + 1)
  }

  /** The function's parameter classifiers, receiver excluded, in declaration order. */
  function Candidates(func: KFunction): (cs: seq<KType>)
    ensures |cs| == |func.params| && forall i :: 0 <= i < |cs| ==> cs[i] == func.params[i].ty
  {
    seq(|func.params|, i requires 0 <= i < |func.params| => func.params[i].ty)
  }

  /** The class name toClass looks up: the tag, or the scan's result, or "nil" when nothing covers. */
  function ClassNameFor(u: Universe, func: KFunction, t: Value): (name: string)
    requires t.Table?
  {
    var tag := TagName(t);
    if tag != "nil" then tag
    else
      match FirstCovering(u, Candidates(func), KeyTexts(t.raw))
      case None => "nil"
      case Some(i) => u.classes[Candidates(func)[i].classifier].qualifiedName
  }

  /** Constructor arguments: each parameter's table entry, converted to the parameter's type. */
  function CtorArgs(t: Value, ps: seq<KParam>): (r: Result<seq<HostValue>>)
    requires t.Table?
    ensures r.Ok? ==> |r.value| == |ps|
    ensures r.Ok? ==> forall i :: 0 <= i < |ps| ==>
      Converter.ToKotlinValue(Get(t, KStr(ps[i].name)), Some(ps[i].ty)) == Ok(r.value[i])
  {
    if ps == [] then Ok([])
    else
      var first :- Converter.ToKotlinValue(Get(t, KStr(ps[0].name)), Some(ps[0].ty));
      var rest :- CtorArgs(t, ps[1..]);
      Ok([first] + rest)
  }

  /** toClass as a function of the table. */
  function Reconstruct(h: Host, func: KFunction, t: Value): (r: Result<HostValue>)
    requires t.Table?
  {
    var name := ClassNameFor(h.u, func, t);
    if name !in h.u.classes then
      Err(TwineErr("Could not find class '" + name + "'. Did you forget to set __javaClass?"))
    else
      var info := h.u.classes[name];
      if info.isEnum then Enums.ConstantFromTable(info, t)
      else if info.primaryCtor.None? then
        Err(Throwable(IllegalArgument, Some("No primary constructor found for " + name), None))
      else
        var args :- CtorArgs(t, info.primaryCtor.value);
        match h.construct(info, args)
        case Raised(cause) => Err(InvocationError(cause))
        case Refused(e) => Err(e)
        case Returned(obj) =>
          if info.isTwineTable then Ok(obj) else Err(Throwable(ClassCast, None, None))
  }

  /**
   * The class name toClass settles on: the __javaClass tag, or, for an untagged table, the
   * first candidate whose primary constructor covers the keys, or "nil" when none does.
   */
  method ScanClassName(u: Universe, func: KFunction, t: Value) returns (className: string)
    requires t.Table?
    ensures className == ClassNameFor(u, func, t)
  {
    className := TagName(t);
    if className == "nil" {
      var classes := Candidates(func);
      var tableProps := KeyTexts(t.raw);
      var i := 0;
      while i < |classes|
        invariant 0 <= i <= |classes|
        invariant forall j :: 0 <= j < i ==> !Covers(u, classes[j], tableProps)
      {
        var ctor := PrimaryCtor(u, classes[i]);
        if ctor.Some? && tableProps <= ParamNames(ctor.value) {
          assert Covers(u, classes[i], tableProps);
          className := u.classes[classes[i].classifier].qualifiedName;
          return;
        }
        i := i + 1;
      }
    }
  }

  /** toClass: the tag or a scan of the candidates, then an enum lookup or a constructor call. */
  method ToClass(h: Host, func: KFunction, t: Value) returns (r: Result<HostValue>)
    requires t.Table?
    ensures r == Reconstruct(h, func, t)
  {
    var className := ScanClassName(h.u, func, t);
    if className !in h.u.classes {
      return Err(TwineErr("Could not find class '" + className + "'. Did you forget to set __javaClass?"));
    }
    var info := h.u.classes[className];
    if info.isEnum {
      var e := Enums.TwineEnum.Create(info);
      r := e.value.FromLuaTable(t);
      return;
    }
    if info.primaryCtor.None? {
      return Err(Throwable(IllegalArgument, Some("No primary constructor found for " + className), None));
    }
    var args := CtorArgs(t, info.primaryCtor.value);
    if args.Err? {
      return Err(args.error);
    }
    match h.construct(info, args.value) {
      case Raised(cause) => r := Err(InvocationError(cause));
      case Refused(e) => r := Err(e);
      case Returned(obj) => r := if info.isTwineTable then Ok(obj) else Err(Throwable(ClassCast, None, None));
    }
  }

  /** A tag other than "nil" is used as the class name as it is; no scan happens. */
  lemma TagSkipsScan(u: Universe, func: KFunction, t: Value)
    requires t.Table? && TagName(t) != "nil"
    ensures ClassNameFor(u, func, t) == TagName(t)
  {
  }

  /**
   * An untagged table is read as the first parameter class (in declaration order) whose
   * primary constructor names every key of the table.
   */
  lemma UntaggedPicksFirstCovering(u: Universe, func: KFunction, t: Value, i: nat)
    requires t.Table? && TagName(t) == "nil"
    requires i < |func.params| && Covers(u, func.params[i].ty, KeyTexts(t.raw))
    requires forall j :: 0 <= j < i ==> !Covers(u, func.params[j].ty, KeyTexts(t.raw))
    ensures ClassNameFor(u, func, t) == u.classes[func.params[i].ty.classifier].qualifiedName
  {
    var cs := Candidates(func);
    assert Covers(u, cs[i], KeyTexts(t.raw));
  }

  /** A table with no keys is covered by any constructor: the first candidate that has one wins. */
  lemma EmptyTableTakesFirstConstructor(u: Universe, candidates: seq<KType>, i: nat)
    requires i < |candidates| && PrimaryCtor(u, candidates[i]).Some?
    requires forall j :: 0 <= j < i ==> PrimaryCtor(u, candidates[j]).None?
    ensures FirstCovering(u, candidates, {}) == Some(i)
  {
    assert Covers(u, candidates[i], {});
  }

  /** With no tag and no covering candidate the lookup of "nil" fails with the __javaClass hint. */
  lemma NothingCoversFails(h: Host, func: KFunction, t: Value)
    requires t.Table? && TagName(t) == "nil" && "nil" !in h.u.classes
    requires forall j :: 0 <= j < |func.params| ==> !Covers(h.u, func.params[j].ty, KeyTexts(t.raw))
    ensures Reconstruct(h, func, t) == Err(TwineErr("Could not find class '" + "nil" + "'. Did you forget to set __javaClass?"))
  {
    var cs := Candidates(func);
    assert forall j :: 0 <= j < |cs| ==> !Covers(h.u, cs[j], KeyTexts(t.raw));
    assert ClassNameFor(h.u, func, t) == "nil";
  }

  /** A resolved enum class is handed to TwineEnum.fromLuaTable. */
  lemma EnumDelegates(h: Host, func: KFunction, t: Value)
    requires t.Table? && ClassNameFor(h.u, func, t) in h.u.classes
    requires h.u.classes[ClassNameFor(h.u, func, t)].isEnum
    ensures Reconstruct(h, func, t) == Enums.ConstantFromTable(h.u.classes[ClassNameFor(h.u, func, t)], t)
  {
  }

  /**
   * A non-enum class with a primary constructor is built from one argument per constructor
   * parameter, in constructor order, read by name; an absent entry becomes null.
   */
  lemma ConstructorArgumentsByName(t: Value, ps: seq<KParam>, i: nat)
    requires t.Table? && CtorArgs(t, ps).Ok? && i < |ps|
    ensures KStr(ps[i].name) !in t.raw && ps[i].name !in t.hooked ==> CtorArgs(t, ps).value[i] == HNull
    ensures CtorArgs(t, ps).value[i] == Converter.ToKotlinValue(Get(t, KStr(ps[i].name)), Some(ps[i].ty)).value
  {
  }

  /**
   * Construction succeeds exactly when every entry converts, the constructor returns and the class
   * is a TwineTable; a constructor that throws fails it with the InvocationTargetException, and
   * arguments reflection refuses fail it with reflection's own exception.
   */
  lemma ConstructedObject(h: Host, func: KFunction, t: Value)
    requires t.Table? && ClassNameFor(h.u, func, t) in h.u.classes
    requires var info := h.u.classes[ClassNameFor(h.u, func, t)]; !info.isEnum && info.primaryCtor.Some?
    ensures var info := h.u.classes[ClassNameFor(h.u, func, t)];
      var args := CtorArgs(t, info.primaryCtor.value);
      Reconstruct(h, func, t).Ok? <==>
        args.Ok? && h.construct(info, args.value).Returned? && info.isTwineTable
    ensures var info := h.u.classes[ClassNameFor(h.u, func, t)];
      var args := CtorArgs(t, info.primaryCtor.value);
      args.Ok? && h.construct(info, args.value).Raised? ==>
        Reconstruct(h, func, t) == Err(InvocationError(h.construct(info, args.value).cause))
    ensures var info := h.u.classes[ClassNameFor(h.u, func, t)];
      var args := CtorArgs(t, info.primaryCtor.value);
      args.Ok? && h.construct(info, args.value).Refused? ==>
        Reconstruct(h, func, t) == Err(h.construct(info, args.value).error)
  {
  }
}
