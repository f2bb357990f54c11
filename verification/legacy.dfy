/**
 * The legacy TwineNative (dev.znci.twine.TwineNative): an older bridge with its own rules.
 * Every annotated function keeps a direct wrapper unless its name is shared, resolution needs
 * the exact argument count, a table that cannot be rebuilt infers as LuaTable, the value
 * conversions are total, and Long crosses into Lua as a double.
 */
module Legacy {
  import opened Base
  import opened Lua
  import Errors
  import Enums
  import Converter
  import ClassMapper
  import Arguments
  import Functions
  import Properties
  import opened Tables

  // ---------------------------------------------------------------------
  // toKotlinValue

  /**
   * toKotlinValue: functions first (Function0 calls the Lua function at once, Function1..3 wrap
   * it, any other type gets the function itself), then the declared type's coercion; there is no
   * rule for nil, so a nil Boolean is false, and only a declared String maps nil to null.
   */
  function KotlinValue(v: Value, ty: KType): (r: HostValue)
    ensures v.Func? ==> (r == HInvoked(v) <==> FunctionArity(ty) == Some(0))
    ensures v.Func? && FunctionArity(ty).None? ==> r == HLua(v)
    ensures !v.Func? && ty == StringType ==> (r == HNull <==> v.Nil?)
    ensures !v.Func? && !Converter.IsCoercedType(ty) ==> r == HLua(v)
  {
    if v.Func? then
      match FunctionArity(ty)
      case Some(n) => if n == 0 then HInvoked(v) else HCallback(n, v)
      case None => HLua(v)
    else if ty == StringType then (if v.Nil? then HNull else HString(ToJString(v)))
    else if ty == BooleanType then HBool(ToBoolean(v))
    else if ty == IntType then HInt(ToInt(v))
    else if ty == DoubleType then HDouble(ToDouble(v))
    else if ty == FloatType then HFloat(ToDouble(v))
    else if ty == LongType then HLong(ToLong(v))
    else HLua(v)
  }

  /** Unlike Converter, nil is not null first: it is coerced like any other value. */
  lemma NilIsCoerced()
    ensures forall t :: Converter.ToKotlinValue(Nil, Some(t)) == Ok(HNull)
    ensures KotlinValue(Nil, BooleanType) == HBool(false)
    ensures KotlinValue(Nil, IntType) == HInt(0)
    ensures KotlinValue(Nil, StringType) == HNull
  {
  }

  /** A declared Function0 runs the Lua function during conversion, where Converter wraps it. */
  lemma Function0RunsAtOnce(v: Value)
    requires v.Func?
    ensures KotlinValue(v, KType("kotlin.Function0")) == HInvoked(v)
    ensures Converter.ToKotlinValue(v, Some(KType("kotlin.Function0"))) == Ok(HCallback(0, v))
  {
  }

  // ---------------------------------------------------------------------
  // toLuaValue

  /** The collections the legacy toLuaValue fills a table from: arrays and ArrayLists, not sets. */
  predicate IsSequence(h: HostValue)
  {
    h.HArray? || h.HList?
  }

  /**
   * toLuaValue as a function of the Kotlin value. Inside TwineNative, a TwineLuaValue itself,
   * NIL is the nearer supertype's TwineLuaValue.NIL, so null and Unit become a wrapped nil.
   */
  function LuaImage(u: Universe, h: HostValue): (r: Result<Value>)
    ensures h.HLong? ==> r == Ok(Num(LDouble(h.l as real)))
    ensures h.HEnumConstant? ==> r == Err(Throwable(ClassCast, None, None))
    ensures h.HSet? || h.HPrimArray? || h.HOther? ==> r == Err(TwineErr("Unsupported type: " + SimpleName(h)))
    decreases h, 1
  {
    if IsSequence(h) then SequenceTable(u, h, |h.elems|) else SingleImage(h)
  }

  /** The branches of toLuaValue for values that are not arrays or ArrayLists. */
  function SingleImage(h: HostValue): (r: Result<Value>)
    requires !IsSequence(h)
  {
    match h
    case HString(s) => Ok(Str(s))
    case HBool(b) => Ok(Bool(b))
    case HDouble(d) => Ok(Num(LDouble(d)))
    case HInt(i) => Ok(Num(LInt(i)))
    case HFloat(f) => Ok(Num(LDouble(f)))
    case HLong(l) => Ok(Num(LDouble(l as real)))
    case HTable(c, raw, hooked) => Ok(Converter.TaggedTable(c, raw, hooked))
    case HEnumRecord(rec) =>
      var t := Enums.RecordTable(rec);
      Ok(Converter.TaggedTable(Enums.TwineEnumValueClassName, t.raw, t.hooked))
    case HTwineLuaValue(_) => Err(TwineErr("TwineLuaValue should not be used as a return type."))
    case HLua(v) =>
      if v.Twine? then Err(TwineErr("TwineLuaValue should not be used as a return type."))
      else Err(TwineErr("Unsupported type: " + SimpleName(h)))
    case HInvoked(v) =>
      if v.Twine? then Err(TwineErr("TwineLuaValue should not be used as a return type."))
      else Err(TwineErr("Unsupported type: " + SimpleName(h)))
    // TwineEnum(enumClass as Enum<*>) casts a class object to an enum constant
    case HEnumConstant(_, _) => Err(Throwable(ClassCast, None, None))
    case HUnit => Ok(Twine(Nil))
    case HNull => Ok(Twine(Nil))
    case _ => Err(TwineErr("Unsupported type: " + SimpleName(h)))
  }

  /** The images of an array's or ArrayList's elements, in order. */
  function Images(u: Universe, h: HostValue): (r: seq<Result<Value>>)
    requires IsSequence(h)
    ensures |r| == |h.elems|
    ensures forall i :: 0 <= i < |r| ==> r[i] == LuaImage(u, h.elems[i])
    decreases h, 0, 0
  {
    seq(|h.elems|, i requires 0 <= i < |h.elems| => LuaImage(u, h.elems[i]))
  }

  /** The table holding the images of the first n elements at keys 1..n. */
  function SequenceTable(u: Universe, h: HostValue, n: nat): (r: Result<Value>)
    requires IsSequence(h) && n <= |h.elems|
    ensures r.Ok? ==> r.value.Table? && r.value.hooked == map[]
    decreases h, 0, 1
  {
    Converter.Fill(Images(u, h), n)
  }

  /** Array and ArrayList elements that all convert sit at keys 1..n, and nothing else is in the table. */
  lemma SequenceTableEntries(u: Universe, h: HostValue, n: nat)
    requires IsSequence(h) && n <= |h.elems|
    requires forall i :: 0 <= i < n ==> LuaImage(u, h.elems[i]).Ok?
    ensures SequenceTable(u, h, n).Ok?
    ensures Converter.KeysWithin(SequenceTable(u, h, n).value.raw, n)
    ensures forall i :: 0 <= i < n ==> Get(SequenceTable(u, h, n).value, KInt(i + 1)) == LuaImage(u, h.elems[i]).value
  {
    Converter.FillEntries(Images(u, h), n);
  }

  lemma SequenceTableErrorPersists(u: Universe, h: HostValue, n: nat, m: nat)
    requires IsSequence(h) && n <= m <= |h.elems|
    requires SequenceTable(u, h, n).Err?
    ensures SequenceTable(u, h, m) == SequenceTable(u, h, n)
  {
    Converter.FillErrorPersists(Images(u, h), n, m);
  }

  /** Long goes through double here, so values outside Int survive that Converter's Int narrowing wraps. */
  lemma LongViaDouble(u: Universe)
    ensures LuaImage(u, HLong(TwoTo32)) == Ok(Num(LDouble(4294967296.0)))
    ensures Converter.LuaImage(u, HLong(TwoTo32)) == Ok(Num(LInt(0)))
  {
  }

  /**
   * A LuaValue is no return value here, but a TwineLuaValue, however it is known, is rejected by
   * its own rule; null and Unit become the wrapped nil, as in Converter.
   */
  lemma WrappedValues(u: Universe, v: Value)
    ensures !v.Twine? ==> LuaImage(u, HLua(v)) == Err(TwineErr("Unsupported type: " + LuaSimpleName(v)))
    ensures LuaImage(u, HLua(Twine(v))) == Err(TwineErr("TwineLuaValue should not be used as a return type."))
    ensures LuaImage(u, HTwineLuaValue(v)) == LuaImage(u, HLua(Twine(v)))
    ensures LuaImage(u, HNull) == Ok(Twine(Nil)) && LuaImage(u, HUnit) == Ok(Twine(Nil))
    ensures LuaImage(u, HNull) == Converter.LuaImage(u, HNull)
  {
  }

  /** A Set, which Converter turns into a sequence table, has no rule here. */
  lemma SetsUnsupported(u: Universe, es: seq<HostValue>)
    ensures LuaImage(u, HSet(es)) == Err(TwineErr("Unsupported type: LinkedHashSet"))
    ensures Converter.LuaImage(u, HSet(es)).Ok? <==> Converter.SequenceTable(u, HSet(es), |es|).Ok?
  {
    assert "Unsupported type: " + SimpleName(HSet(es)) == "Unsupported type: LinkedHashSet";
  }

  /** toLuaValue: dispatch on the Kotlin value, filling a fresh table for arrays and lists. */
  method ToLuaValue(u: Universe, h: HostValue) returns (r: Result<Value>)
    ensures r == LuaImage(u, h)
    decreases h, 2
  {
    if IsSequence(h) {
      r := FillSequence(u, h);
    } else {
      r := LuaImage(u, h);
    }
  }

  /** One more element: the previous table, with the element's image at its 1-based key, or its error. */
  lemma SequenceTableNext(u: Universe, h: HostValue, i: nat)
    requires IsSequence(h) && i < |h.elems|
    requires SequenceTable(u, h, i).Ok?
    ensures LuaImage(u, h.elems[i]).Err? ==> SequenceTable(u, h, i + 1) == Err(LuaImage(u, h.elems[i]).error)
    ensures LuaImage(u, h.elems[i]).Ok? ==>
      SequenceTable(u, h, i + 1) ==
        Ok(Table(RawSet(SequenceTable(u, h, i).value.raw, KInt(i + 1), LuaImage(u, h.elems[i]).value), map[]))
  {
  }

  /** The forEachIndexed loop: element i, converted, is set at key i + 1. */
  method FillSequence(u: Universe, h: HostValue) returns (r: Result<Value>)
    requires IsSequence(h)
    ensures r == SequenceTable(u, h, |h.elems|)
    decreases h, 1
  {
    var raw: map<Key, Value> := map[];
    var i := 0;
    while i < |h.elems|
      invariant 0 <= i <= |h.elems|
      invariant SequenceTable(u, h, i) == Ok(Table(raw, map[]))
    {
      var next := StoreElement(u, h, i, raw);
      if next.Err? {
        return Err(next.error);
      }
      raw := next.value;
      i := i + 1;
    }
    assert i == |h.elems|;
    return Ok(Table(raw, map[]));
  }

  /** One iteration: element i is converted and set at key i + 1, or its conversion's error is thrown. */
  method StoreElement(u: Universe, h: HostValue, i: nat, raw: map<Key, Value>) returns (r: Result<map<Key, Value>>)
    requires IsSequence(h) && i < |h.elems|
    requires SequenceTable(u, h, i) == Ok(Table(raw, map[]))
    ensures r.Err? ==> SequenceTable(u, h, i + 1) == Err(r.error)
    ensures r.Err? ==> SequenceTable(u, h, |h.elems|) == Err(r.error)
    ensures r.Ok? ==> SequenceTable(u, h, i + 1) == Ok(Table(r.value, map[]))
    decreases h, 0
  {
    var v := ToLuaValue(u, h.elems[i]);
    SequenceTableNext(u, h, i);
    if v.Err? {
      SequenceTableErrorPersists(u, h, i + 1, |h.elems|);
      return Err(v.error);
    }
    r := Ok(RawSet(raw, KInt(i + 1), v.value));
  }

  // ---------------------------------------------------------------------
  // toClass and getKotlinType

  /** Constructor arguments by name, through the legacy (total) toKotlinValue. */
  function CtorArgs(t: Value, ps: seq<KParam>): (r: seq<HostValue>)
    requires t.Table?
    ensures |r| == |ps|
    ensures forall i :: 0 <= i < |ps| ==> r[i] == KotlinValue(Get(t, KStr(ps[i].name)), ps[i].ty)
  {
    seq(|ps|, i requires 0 <= i < |ps| => KotlinValue(Get(t, KStr(ps[i].name)), ps[i].ty))
  }

  /** toClass: the class is found as ClassMapper finds it, but an enum class fails with a cast. */
  function Reconstruct(h: Host, func: KFunction, t: Value): (r: Result<HostValue>)
    requires t.Table?
    ensures var name := ClassMapper.ClassNameFor(h.u, func, t);
      name in h.u.classes && h.u.classes[name].isEnum ==> r == Err(Throwable(ClassCast, None, None))
    ensures var name := ClassMapper.ClassNameFor(h.u, func, t);
      (name in h.u.classes && !h.u.classes[name].isEnum && h.u.classes[name].primaryCtor.Some?
        && h.construct(h.u.classes[name], CtorArgs(t, h.u.classes[name].primaryCtor.value)).Refused?) ==>
        r == Err(h.construct(h.u.classes[name], CtorArgs(t, h.u.classes[name].primaryCtor.value)).error)
  {
    var name := ClassMapper.ClassNameFor(h.u, func, t);
    if name !in h.u.classes then
      Err(TwineErr("Could not find class '" + name + "'. Did you forget to set __javaClass?"))
    else
      var info := h.u.classes[name];
      if info.isEnum then Err(Throwable(ClassCast, None, None))
      else if info.primaryCtor.None? then
        Err(Throwable(IllegalArgument, Some("No primary constructor found for " + name), None))
      else
        match h.construct(info, CtorArgs(t, info.primaryCtor.value))
        case Raised(cause) => Err(InvocationError(cause))
        case Refused(e) => Err(e)
        case Returned(obj) =>
          if info.isTwineTable then Ok(obj) else Err(Throwable(ClassCast, None, None))
  }

  /** toClass: the tag or the scan, then a cast for an enum class, else a constructor call. */
  method ToClass(h: Host, func: KFunction, t: Value) returns (r: Result<HostValue>)
    requires t.Table?
    ensures r == Reconstruct(h, func, t)
  {
    var className := ClassMapper.ScanClassName(h.u, func, t);
    if className !in h.u.classes {
      return Err(TwineErr("Could not find class '" + className + "'. Did you forget to set __javaClass?"));
    }
    var info := h.u.classes[className];
    if info.isEnum {
      return Err(Throwable(ClassCast, None, None));
    }
    if info.primaryCtor.None? {
      return Err(Throwable(IllegalArgument, Some("No primary constructor found for " + className), None));
    }
    var args := CtorArgs(t, info.primaryCtor.value);
    match h.construct(info, args) {
      case Raised(cause) => r := Err(InvocationError(cause));
      case Refused(e) => r := Err(e);
      case Returned(obj) => r := if info.isTwineTable then Ok(obj) else Err(Throwable(ClassCast, None, None));
    }
  }

  /**
   * getKotlinType: booleans, then numbers as Double, strings; a function's type is built with
   * createType() and no argument for Function's one type parameter, which throws
   * IllegalArgumentException; a table is the class toClass builds, or LuaTable when toClass
   * fails or the built object's class is generic (its createType() throws inside the same try).
   */
  function KotlinType(h: Host, func: KFunction, v: Value): (r: Result<KType>)
    ensures r.Err? <==> v.Func?
    ensures v.Num? ==> r == Ok(DoubleType)
    ensures v.Table? && Reconstruct(h, func, v).Err? ==> r == Ok(LuaTableType)
    ensures v.Table? && Reconstruct(h, func, v).Ok? && IsGenericClass(h.u, ClassMapper.ClassNameFor(h.u, func, v)) ==>
      r == Ok(LuaTableType)
    ensures v.Table? && Reconstruct(h, func, v).Ok? && !IsGenericClass(h.u, ClassMapper.ClassNameFor(h.u, func, v)) ==>
      r == Ok(KType(ClassMapper.ClassNameFor(h.u, func, v)))
  {
    match v
    case Bool(_) => Ok(BooleanType)
    case Num(_) => Ok(DoubleType)
    case Str(_) => Ok(StringType)
    case Func(_) => Err(Throwable(IllegalArgument, None, None))
    case Table(_, _) =>
      var name := ClassMapper.ClassNameFor(h.u, func, v);
      if Reconstruct(h, func, v).Ok? && !IsGenericClass(h.u, name) then Ok(KType(name))
      else Ok(LuaTableType)
    case Nil => Ok(LuaNilType)
    case Twine(_) => Ok(TwineLuaValueType)
  }

  /**
   * A table that names no class infers as LuaTable here, where Converter fails; so does any
   * table whose class is an enum.
   */
  lemma UnresolvedTableIsLuaTable(h: Host, func: KFunction, t: Value)
    requires t.Table? && TagName(t) !in h.u.classes
    requires ClassMapper.ClassNameFor(h.u, func, t) !in h.u.classes
    ensures KotlinType(h, func, t) == Ok(LuaTableType)
    ensures Converter.ToKotlinType(h.u, t).Err?
  {
  }

  lemma EnumTableIsLuaTable(h: Host, func: KFunction, t: Value)
    requires t.Table? && ClassMapper.ClassNameFor(h.u, func, t) in h.u.classes
    requires h.u.classes[ClassMapper.ClassNameFor(h.u, func, t)].isEnum
    ensures KotlinType(h, func, t) == Ok(LuaTableType)
  {
  }

  // ---------------------------------------------------------------------
  // toKotlinArgs

  /** The value for parameter i: argument i+1 (nil when missing), a table through toClass. */
  function ConvertArg(h: Host, func: KFunction, args: seq<Value>, i: nat): Result<HostValue>
    requires i < |func.params|
  {
    var arg := Arguments.Arg(args, i + 1);
    if arg.Table? then Reconstruct(h, func, arg) else Ok(KotlinValue(arg, func.params[i].ty))
  }

  /** mapIndexed over the parameters after the receiver: each one's conversion, in order. */
  function ConvertedArgs(h: Host, func: KFunction, args: seq<Value>): (rs: seq<Result<HostValue>>)
    ensures |rs| == |func.params| && forall i :: 0 <= i < |rs| ==> rs[i] == ConvertArg(h, func, args, i)
  {
    seq(|func.params|, i requires 0 <= i < |func.params| => ConvertArg(h, func, args, i))
  }

  /** The values in order, or the first exception thrown while mapping. */
  function Collect(rs: seq<Result<HostValue>>): (r: Result<seq<HostValue>>)
    ensures r.Ok? ==> |r.value| == |rs|
  {
    if rs == [] then Ok([])
    else
      match rs[0]
      case Err(e) => Err(e)
      case Ok(first) =>
        var rest := Collect(rs[1..]);
        if rest.Err? then Err(rest.error) else Ok([first] + rest.value)
  }

  /** Collecting succeeds exactly when every conversion does, and value i is conversion i's. */
  lemma {:induction false} CollectConverts(rs: seq<Result<HostValue>>)
    ensures Collect(rs).Ok? <==> forall i :: 0 <= i < |rs| ==> rs[i].Ok?
    ensures Collect(rs).Ok? ==> forall i :: 0 <= i < |rs| ==> rs[i] == Ok(Collect(rs).value[i])
  {
    if rs != [] {
      CollectConverts(rs[1..]);
      assert forall i :: 1 <= i < |rs| ==> rs[1..][i - 1] == rs[i];
    }
  }

  /** Collecting fails with the first failure. */
  lemma {:induction false} CollectFirstError(rs: seq<Result<HostValue>>, i: nat)
    requires i < |rs| && rs[i].Err?
    requires forall j :: 0 <= j < i ==> rs[j].Ok?
    ensures Collect(rs) == Err(rs[i].error)
  {
    if i > 0 {
      assert forall j :: 0 <= j < i - 1 ==> rs[1..][j] == rs[j + 1];
      CollectFirstError(rs[1..], i - 1);
    }
  }

  /** toKotlinArgs: one value per parameter, with no count check; the first failure is thrown. */
  function KotlinArgs(h: Host, func: KFunction, args: seq<Value>): (r: Result<seq<HostValue>>)
    ensures r.Ok? ==> |r.value| == |func.params|
  {
    Collect(ConvertedArgs(h, func, args))
  }

  /** The arguments convert exactly when every parameter's does, value i being parameter i's. */
  lemma KotlinArgsConverts(h: Host, func: KFunction, args: seq<Value>)
    ensures KotlinArgs(h, func, args).Ok? <==> forall i :: 0 <= i < |func.params| ==> ConvertArg(h, func, args, i).Ok?
    ensures KotlinArgs(h, func, args).Ok? ==> forall i :: 0 <= i < |func.params| ==>
      ConvertArg(h, func, args, i) == Ok(KotlinArgs(h, func, args).value[i])
  {
    CollectConverts(ConvertedArgs(h, func, args));
  }

  /** The error thrown is the first failing parameter's. */
  lemma KotlinArgsFirstError(h: Host, func: KFunction, args: seq<Value>, i: nat)
    requires i < |func.params| && ConvertArg(h, func, args, i).Err?
    requires forall j :: 0 <= j < i ==> ConvertArg(h, func, args, j).Ok?
    ensures KotlinArgs(h, func, args) == Err(ConvertArg(h, func, args, i).error)
  {
    CollectFirstError(ConvertedArgs(h, func, args), i);
  }

  /** Missing arguments are read as nil and coerced, where Converter reports too few arguments. */
  lemma MissingArgumentsAreNil(h: Host, func: KFunction, args: seq<Value>, i: nat)
    requires KotlinArgs(h, func, args).Ok? && |args| <= i < |func.params|
    ensures KotlinArgs(h, func, args).value[i] == KotlinValue(Nil, func.params[i].ty)
    ensures !Arguments.IsVararg(func) ==> Arguments.ToKotlinArgs(h, func, args).Err?
  {
    KotlinArgsConverts(h, func, args);
  }

  // ---------------------------------------------------------------------
  // handleOverloadedFunctions' resolving wrapper

  /** Argument j's inferred type exists and is assignable to parameter j's. */
  predicate Fits(h: Host, f: KFunction, args: seq<Value>, j: nat)
    requires j < |args| == |f.params|
  {
    KotlinType(h, f, args[j]).Ok? && IsSupertypeOf(h.u, f.params[j].ty, KotlinType(h, f, args[j]).value)
  }

  /** The type check from argument i on; a type that cannot be built throws. */
  function MatchFrom(h: Host, f: KFunction, args: seq<Value>, i: nat): (r: Result<bool>)
    requires i <= |args| == |f.params|
    ensures r == Ok(true) <==> forall j :: i <= j < |args| ==> Fits(h, f, args, j)
    decreases |args| - i
  {
    if i == |args| then Ok(true)
    else
      match KotlinType(h, f, args[i])
      case Err(e) =>
        assert !Fits(h, f, args, i);
        Err(e)
      case Ok(argType) =>
        if !IsSupertypeOf(h.u, f.params[i].ty, argType) then
          assert !Fits(h, f, args, i);
          Ok(false)
        else
          var rest := MatchFrom(h, f, args, i + 1);
          assert Fits(h, f, args, i);
          rest
  }

  /** find's predicate: exactly as many arguments as parameters, each assignable; varargs get no rule. */
  function Accepts(h: Host, f: KFunction, args: seq<Value>): (r: Result<bool>)
    ensures |f.params| != |args| ==> r == Ok(false)
  {
    if |f.params| != |args| then Ok(false) else MatchFrom(h, f, args, 0)
  }

  /** The first candidate from `from` on that accepts; a candidate that throws stops the search. */
  function FindMatch(h: Host, group: seq<KFunction>, args: seq<Value>, from: nat): (r: Result<Option<nat>>)
    requires from <= |group|
    ensures r.Ok? && r.value.Some? ==> (from <= r.value.value < |group|
      && Accepts(h, group[r.value.value], args) == Ok(true)
      && forall i :: from <= i < r.value.value ==> Accepts(h, group[i], args) == Ok(false))
    ensures r == Ok(None) <==> forall i :: from <= i < |group| ==> Accepts(h, group[i], args) == Ok(false)
    decreases |group| - from
  {
    if from == |group| then Ok(None)
    else
      match Accepts(h, group[from], args)
      case Err(e) => Err(e)
      case Ok(accepted) => if accepted then Ok(Some(from)) else FindMatch(h, group, args, from + 1)
  }

  /** Calling the chosen function: an InvocationTargetException goes through throwError, the result through toLuaValue. */
  function CallResult(h: Host, f: KFunction, kotlinArgs: seq<HostValue>): (r: Result<Value>)
    ensures h.call(f, kotlinArgs).Raised? ==>
      r == Err(Errors.ThrowError(InvocationError(h.call(f, kotlinArgs).cause), Some(f.name)))
    ensures h.call(f, kotlinArgs).Refused? ==> r == Err(h.call(f, kotlinArgs).error)
    ensures h.call(f, kotlinArgs).Returned? ==> r == LuaImage(h.u, h.call(f, kotlinArgs).value)
  {
    match h.call(f, kotlinArgs)
    case Raised(cause) => Err(Errors.ThrowError(InvocationError(cause), Some(f.name)))
    case Refused(e) => Err(e)
    case Returned(value) => LuaImage(h.u, value)
  }

  /** The resolving wrapper's invoke. */
  function Overloaded(h: Host, name: string, group: seq<KFunction>, args: seq<Value>): (r: Result<Value>)
    ensures FindMatch(h, group, args, 0) == Ok(None) ==> r == Err(TwineErr(Functions.NoMatchMessage(name, |args|)))
    ensures group == [] ==> r == Err(TwineErr(Functions.NoMatchMessage(name, |args|)))
  {
    match FindMatch(h, group, args, 0)
    case Err(e) => Err(e)
    case Ok(Some(j)) =>
      var kotlinArgs :- KotlinArgs(h, group[j], args);
      CallResult(h, group[j], kotlinArgs)
    case Ok(None) => Err(TwineErr(Functions.NoMatchMessage(name, |args|)))
  }

  /** The direct wrapper's invoke: an InvocationTargetException from the conversion or the call goes through throwError. */
  function Direct(h: Host, f: KFunction, args: seq<Value>): (r: Result<Value>)
    ensures KotlinArgs(h, f, args).Err? && KotlinArgs(h, f, args).error.kind != InvocationTarget
      ==> r == Err(KotlinArgs(h, f, args).error)
    ensures KotlinArgs(h, f, args).Ok? && h.call(f, KotlinArgs(h, f, args).value).Refused?
      ==> r == Err(h.call(f, KotlinArgs(h, f, args).value).error)
  {
    match KotlinArgs(h, f, args)
    case Err(e) => Err(if e.kind == InvocationTarget then Errors.ThrowError(e, Some(f.name)) else e)
    case Ok(kotlinArgs) => CallResult(h, f, kotlinArgs)
  }

  /** When no candidate takes the call, the wrapper fails naming the function and the count. */
  lemma NoMatchFails(h: Host, name: string, group: seq<KFunction>, args: seq<Value>)
    requires forall i :: 0 <= i < |group| ==> Accepts(h, group[i], args) == Ok(false)
    ensures Overloaded(h, name, group, args)
      == Err(TwineErr("No matching function found for " + name + " with " + NatText(|args|) + " arguments"))
  {
  }

  /** The first candidate that accepts is the one called. */
  lemma FirstMatchWins(h: Host, name: string, group: seq<KFunction>, args: seq<Value>, j: nat)
    requires j < |group| && Accepts(h, group[j], args) == Ok(true)
    requires forall i :: 0 <= i < j ==> Accepts(h, group[i], args) == Ok(false)
    requires KotlinArgs(h, group[j], args).Ok?
    ensures Overloaded(h, name, group, args) == CallResult(h, group[j], KotlinArgs(h, group[j], args).value)
  {
    FindMatchAt(h, group, args, 0, j);
  }

  lemma {:induction false} FindMatchAt(h: Host, group: seq<KFunction>, args: seq<Value>, from: nat, j: nat)
    requires from <= j < |group| && Accepts(h, group[j], args) == Ok(true)
    requires forall i :: from <= i < j ==> Accepts(h, group[i], args) == Ok(false)
    ensures FindMatch(h, group, args, from) == Ok(Some(j))
    decreases j - from
  {
    if from < j {
      FindMatchAt(h, group, args, from + 1, j);
      assert Accepts(h, group[from], args) == Ok(false);
    }
  }

  /**
   * A vararg function takes only its exact parameter count (the array itself), where Converter
   * accepts any count from the fixed parameters on.
   */
  lemma VarargNeedsExactCount(h: Host, f: KFunction, args: seq<Value>)
    requires Arguments.IsVararg(f) && |args| > |f.params|
    ensures Accepts(h, f, args) == Ok(false)
    ensures Functions.CountFits(f, |args|)
  {
  }

  /** A Lua function argument reached by a candidate's type check makes the wrapper throw. */
  lemma FunctionArgumentThrows(h: Host, f: KFunction, args: seq<Value>, i: nat)
    requires |f.params| == |args| && i < |args| && args[i].Func?
    requires forall j :: 0 <= j < i ==> Fits(h, f, args, j)
    ensures Accepts(h, f, args) == Err(Throwable(IllegalArgument, None, None))
  {
    ThrowsFrom(h, f, args, 0, i);
  }

  lemma {:induction false} ThrowsFrom(h: Host, f: KFunction, args: seq<Value>, from: nat, i: nat)
    requires from <= i < |args| == |f.params| && args[i].Func?
    requires forall j :: from <= j < i ==> Fits(h, f, args, j)
    ensures MatchFrom(h, f, args, from) == Err(Throwable(IllegalArgument, None, None))
    decreases i - from
  {
    if from < i {
      ThrowsFrom(h, f, args, from + 1, i);
      assert Fits(h, f, args, from);
    }
  }

  /** find's predicate on one candidate. */
  method CandidateMatches(h: Host, f: KFunction, args: seq<Value>) returns (r: Result<bool>)
    ensures r == Accepts(h, f, args)
  {
    var params := f.params;
    if |params| != |args| {
      return Ok(false);
    }
    var i := 0;
    while i < |args|
      invariant 0 <= i <= |args|
      invariant Accepts(h, f, args) == MatchFrom(h, f, args, i)
    {
      var paramType := params[i].ty;
      var argType := KotlinType(h, f, args[i]);
      if argType.Err? {
        return Err(argType.error);
      }
      if !IsSupertypeOf(h.u, paramType, argType.value) {
        return Ok(false);
      }
      i := i + 1;
    }
    return Ok(true);
  }

  /** The resolving wrapper's invoke. */
  method InvokeOverloaded(h: Host, name: string, group: seq<KFunction>, args: seq<Value>) returns (r: Result<Value>)
    ensures r == Overloaded(h, name, group, args)
  {
    var i := 0;
    while i < |group|
      invariant 0 <= i <= |group|
      invariant FindMatch(h, group, args, 0) == FindMatch(h, group, args, i)
    {
      var accepted := CandidateMatches(h, group[i], args);
      if accepted.Err? {
        return Err(accepted.error);
      }
      if accepted.value {
        var f := group[i];
        var kotlinArgs := KotlinArgs(h, f, args);
        if kotlinArgs.Err? {
          return Err(kotlinArgs.error);
        }
        return CallResult(h, f, kotlinArgs.value);
      }
      i := i + 1;
    }
    return Err(TwineErr(Functions.NoMatchMessage(name, |args|)));
  }

  // ---------------------------------------------------------------------
  // Registration

  /** The direct wrappers, one per annotated function in declaration order, as table writes. */
  function DirectEntries(fs: seq<KFunction>): seq<(Key, Value)>
    decreases |fs|
  {
    if fs == [] then []
    else
      var f := fs[|fs| - 1];
      var rest := DirectEntries(fs[..|fs| - 1]);
      if Functions.Annotated(f) then rest + [(KStr(Functions.Exposed(f)), Func(LegacyDirectWrapper(f)))] else rest
  }

  /** The resolving wrappers, one per group of more than one function, in group order. */
  function OverloadEntries(groups: Functions.Groups): seq<(Key, Value)>
    decreases |groups|
  {
    if groups == [] then []
    else
      var g := groups[|groups| - 1];
      var rest := OverloadEntries(groups[..|groups| - 1]);
      if |g.1| > 1 then rest + [(KStr(g.0), Func(LegacyOverloadWrapper(g.0, g.1)))] else rest
  }

  /** Each direct entry is the wrapper of an annotated function under its exposed name. */
  lemma {:induction false} DirectEntriesFrom(fs: seq<KFunction>)
    ensures forall e :: e in DirectEntries(fs) ==>
      exists g :: g in fs && Functions.Annotated(g) && e == (KStr(Functions.Exposed(g)), Func(LegacyDirectWrapper(g)))
    ensures forall g :: g in fs && Functions.Annotated(g) ==> (KStr(Functions.Exposed(g)), Func(LegacyDirectWrapper(g))) in DirectEntries(fs)
    decreases |fs|
  {
    if fs != [] {
      var prefix := fs[..|fs| - 1];
      DirectEntriesFrom(prefix);
      assert forall g :: g in prefix ==> g in fs;
      assert forall g :: g in fs ==> g in prefix || g == fs[|fs| - 1];
    }
  }

  /** The resolving entries are exactly those of the groups with more than one function. */
  lemma {:induction false} OverloadEntriesFrom(groups: Functions.Groups)
    ensures forall e :: e in OverloadEntries(groups) ==>
      exists i :: 0 <= i < |groups| && |groups[i].1| > 1 && e == (KStr(groups[i].0), Func(LegacyOverloadWrapper(groups[i].0, groups[i].1)))
    ensures forall i :: 0 <= i < |groups| && |groups[i].1| > 1 ==>
      (KStr(groups[i].0), Func(LegacyOverloadWrapper(groups[i].0, groups[i].1))) in OverloadEntries(groups)
    decreases |groups|
  {
    if groups != [] {
      var prefix := groups[..|groups| - 1];
      OverloadEntriesFrom(prefix);
      assert forall i :: 0 <= i < |prefix| ==> prefix[i] == groups[i];
    }
  }

  /**
   * The legacy TwineNative. Its init registers the functions, then installs the property
   * metatable, into its own table (owner).
   */
  class LegacyNative {
    const owner: TwineTable
    /** this::class.functions, in reflection's order. */
    const functions: seq<KFunction>
    /** this::class.memberProperties, in reflection's order. */
    const properties: seq<KProperty>

    constructor (functions: seq<KFunction>, properties: seq<KProperty>)
      ensures fresh(owner) && this.functions == functions && this.properties == properties
      ensures owner.raw == AfterRegistration(functions)
      ensures owner.meta == Some(Properties.PropertyHooks(Properties.PropertyMap(properties), true))
    {
      owner := new TwineTable();
      this.functions := functions;
      this.properties := properties;
      new;
      RegisterFunctions();
      RegisterProperties();
    }

    /** registerFunctions: a direct wrapper for every annotated function, then handleOverloadedFunctions. */
    method RegisterFunctions()
      modifies owner
      ensures owner.meta == old(owner.meta)
      ensures owner.raw == StoredAll(StoredAll(old(owner.raw), old(owner.meta), DirectEntries(functions)),
        old(owner.meta), OverloadEntries(Functions.GroupsOf(functions)))
    {
      var i := 0;
      while i < |functions|
        invariant 0 <= i <= |functions|
        invariant owner.meta == old(owner.meta)
        invariant owner.raw == StoredAll(old(owner.raw), old(owner.meta), DirectEntries(functions[..i]))
      {
        var f := functions[i];
        assert functions[..i + 1][..i] == functions[..i];
        if f.annotation.Some? {
          var annotatedFunctionName := f.annotation.value;
          if annotatedFunctionName == InheritTag {
            annotatedFunctionName := f.name;
          }
          var entries := DirectEntries(functions[..i]) + [(KStr(annotatedFunctionName), Func(LegacyDirectWrapper(f)))];
          assert entries[..|entries| - 1] == DirectEntries(functions[..i]);
          var _ := owner.Put(KStr(annotatedFunctionName), Func(LegacyDirectWrapper(f)));
        }
        i := i + 1;
      }
      assert functions[..|functions|] == functions;
      HandleOverloadedFunctions();
    }

    /** handleOverloadedFunctions: group by exposed name, and replace every shared name by a resolving wrapper. */
    method HandleOverloadedFunctions()
      modifies owner
      ensures owner.meta == old(owner.meta)
      ensures owner.raw == StoredAll(old(owner.raw), old(owner.meta), OverloadEntries(Functions.GroupsOf(functions)))
    {
      var functionMap: Functions.Groups := [];
      var i := 0;
      while i < |functions|
        invariant 0 <= i <= |functions|
        invariant functionMap == Functions.GroupsOf(functions[..i])
      {
        var f := functions[i];
        assert functions[..i + 1][..i] == functions[..i];
        if f.annotation.Some? {
          var annotatedFunctionName := f.annotation.value;
          if annotatedFunctionName == InheritTag {
            annotatedFunctionName := f.name;
          }
          functionMap := Functions.AddToGroup(functionMap, annotatedFunctionName, f);
        }
        i := i + 1;
      }
      assert functions[..|functions|] == functions;
      var j := 0;
      while j < |functionMap|
        invariant 0 <= j <= |functionMap|
        invariant owner.meta == old(owner.meta)
        invariant owner.raw == StoredAll(old(owner.raw), old(owner.meta), OverloadEntries(functionMap[..j]))
      {
        var (name, overloadedFunctions) := functionMap[j];
        assert functionMap[..j + 1][..j] == functionMap[..j];
        if |overloadedFunctions| > 1 {
          var entries := OverloadEntries(functionMap[..j + 1]);
          assert entries[..|entries| - 1] == OverloadEntries(functionMap[..j]);
          var _ := owner.Put(KStr(name), Func(LegacyOverloadWrapper(name, overloadedFunctions)));
        }
        j := j + 1;
      }
      assert functionMap[..|functionMap|] == functionMap;
    }

    /** registerProperties: the table's metatable becomes the property hooks, with the legacy conversions. */
    method RegisterProperties()
      modifies owner
      ensures owner.raw == old(owner.raw)
      ensures owner.meta == Some(Properties.PropertyHooks(Properties.PropertyMap(properties), true))
    {
      var properties_ := Properties.PropertyMap(properties);
      owner.SetMetatable(Metatable(Some(PropertyIndex(properties_, true)), Some(PropertyNewIndex(properties_, true))));
    }
  }

  /** The resolving entries under a name: only its own group's wrapper, present when the group is shared. */
  lemma OverloadsUnderName(fs: seq<KFunction>, name: string)
    requires Functions.Filter(fs, name) != []
    ensures var overloads := OverloadEntries(Functions.GroupsOf(fs));
      var target := (KStr(name), Func(LegacyOverloadWrapper(name, Functions.Filter(fs, name))));
      (forall e :: e in overloads && e.0 == KStr(name) ==> e == target && |Functions.Filter(fs, name)| > 1)
      && (|Functions.Filter(fs, name)| > 1 ==> target in overloads)
  {
    var groups := Functions.GroupsOf(fs);
    var overloads := OverloadEntries(groups);
    Functions.GroupsCharacterized(fs);
    OverloadEntriesFrom(groups);
    var gi := Functions.GroupIndex(groups, name).value;
    assert groups[gi].1 == Functions.Filter(fs, name);
    forall e | e in overloads && e.0 == KStr(name)
      ensures e == (KStr(name), Func(LegacyOverloadWrapper(name, Functions.Filter(fs, name)))) && |Functions.Filter(fs, name)| > 1
    {
      var i :| 0 <= i < |groups| && |groups[i].1| > 1 && e == (KStr(groups[i].0), Func(LegacyOverloadWrapper(groups[i].0, groups[i].1)));
      assert groups[i].0 == name;
      assert i == gi;
    }
  }

  /** The direct entries under the name of a function that alone exposes it: its own wrapper, present. */
  lemma DirectUnderName(fs: seq<KFunction>, f: KFunction)
    requires f in fs && Functions.Annotated(f) && Functions.Filter(fs, Functions.Exposed(f)) == [f]
    ensures var direct := DirectEntries(fs);
      var k := KStr(Functions.Exposed(f));
      (k, Func(LegacyDirectWrapper(f))) in direct
      && (forall d :: 0 <= d < |direct| && direct[d].0 == k ==> direct[d].1 == Func(LegacyDirectWrapper(f)))
  {
    var direct := DirectEntries(fs);
    var k := KStr(Functions.Exposed(f));
    DirectEntriesFrom(fs);
    assert (k, Func(LegacyDirectWrapper(f))) in direct;
    forall d | 0 <= d < |direct| && direct[d].0 == k
      ensures direct[d].1 == Func(LegacyDirectWrapper(f))
    {
      assert direct[d] in direct;
      var g :| g in fs && Functions.Annotated(g) && direct[d] == (KStr(Functions.Exposed(g)), Func(LegacyDirectWrapper(g)));
      Functions.FilterContains(fs, g);
    }
  }

  /** The table registerFunctions leaves behind: the direct wrappers, then the resolving ones. */
  function AfterRegistration(fs: seq<KFunction>): map<Key, Value>
  {
    StoredAll(StoredAll(map[], None, DirectEntries(fs)), None, OverloadEntries(Functions.GroupsOf(fs)))
  }

  /** A name several functions share holds the resolving wrapper over all of them. */
  lemma SharedNameResolves(fs: seq<KFunction>, name: string)
    requires |Functions.Filter(fs, name)| > 1
    ensures KStr(name) in AfterRegistration(fs)
    ensures AfterRegistration(fs)[KStr(name)] == Func(LegacyOverloadWrapper(name, Functions.Filter(fs, name)))
  {
    var k := KStr(name);
    var target := Func(LegacyOverloadWrapper(name, Functions.Filter(fs, name)));
    var overloads := OverloadEntries(Functions.GroupsOf(fs));
    OverloadsUnderName(fs, name);
    assert (k, target) in overloads;
    forall o | 0 <= o < |overloads| && overloads[o].0 == k
      ensures overloads[o].1 == target
    {
      assert overloads[o] in overloads;
    }
    StoredAllSameValue(StoredAll(map[], None, DirectEntries(fs)), None, overloads, k, target);
  }

  /** A name only one function exposes keeps that function's direct wrapper. */
  lemma SingleNameKeepsDirect(fs: seq<KFunction>, f: KFunction)
    requires f in fs && Functions.Annotated(f) && Functions.Filter(fs, Functions.Exposed(f)) == [f]
    ensures KStr(Functions.Exposed(f)) in AfterRegistration(fs)
    ensures AfterRegistration(fs)[KStr(Functions.Exposed(f))] == Func(LegacyDirectWrapper(f))
  {
    var k := KStr(Functions.Exposed(f));
    var direct := DirectEntries(fs);
    var overloads := OverloadEntries(Functions.GroupsOf(fs));
    DirectUnderName(fs, f);
    var di :| 0 <= di < |direct| && direct[di] == (k, Func(LegacyDirectWrapper(f)));
    assert direct[di].0 == k;
    StoredAllSameValue(map[], None, direct, k, Func(LegacyDirectWrapper(f)));
    OverloadsUnderName(fs, Functions.Exposed(f));
    forall o | 0 <= o < |overloads|
      ensures overloads[o].0 != k
    {
      assert overloads[o] in overloads;
    }
    StoredAllWithoutHook(StoredAll(map[], None, direct), None, overloads, k);
  }

  /**
   * After init, a name exposed by one function keeps that function's direct wrapper, and a
   * name shared by several holds the resolving wrapper of all of them, in declaration order.
   */
  lemma NameResolution(fs: seq<KFunction>, f: KFunction)
    requires f in fs && Functions.Annotated(f)
    ensures var name := Functions.Exposed(f);
      KStr(name) in AfterRegistration(fs)
      && (Functions.Filter(fs, name) == [f] ==> AfterRegistration(fs)[KStr(name)] == Func(LegacyDirectWrapper(f)))
      && (|Functions.Filter(fs, name)| > 1 ==>
            AfterRegistration(fs)[KStr(name)] == Func(LegacyOverloadWrapper(name, Functions.Filter(fs, name))))
  {
    var filtered := Functions.Filter(fs, Functions.Exposed(f));
    Functions.FilterContains(fs, f);
    if |filtered| > 1 {
      SharedNameResolves(fs, Functions.Exposed(f));
    } else {
      OnlyElement(filtered, f);
      SingleNameKeepsDirect(fs, f);
    }
  }

  /** A sequence of at most one element that holds x is [x]. */
  lemma OnlyElement(s: seq<KFunction>, x: KFunction)
    requires x in s && |s| <= 1
    ensures s == [x]
  {
  }

  // ---------------------------------------------------------------------
  // Property hooks

  /** __index on a known property: the getter's value through the legacy toLuaValue; failures are reported by name. */
  function GetProperty(h: Host, prop: KProperty): (r: Result<Value>)
    ensures r.Ok? <==> h.getProperty(prop).Returned? && LuaImage(h.u, h.getProperty(prop).value).Ok?
    ensures r.Ok? ==> r.value == LuaImage(h.u, h.getProperty(prop).value).value
    ensures h.getProperty(prop).Raised? ==> r == Err(Properties.GettingError(prop, InvocationError(h.getProperty(prop).cause)))
    ensures h.getProperty(prop).Refused? ==> r == Err(Properties.GettingError(prop, h.getProperty(prop).error))
    ensures h.getProperty(prop).Returned? && LuaImage(h.u, h.getProperty(prop).value).Err? ==>
      r == Err(Properties.GettingError(prop, LuaImage(h.u, h.getProperty(prop).value).error))
  {
    match h.getProperty(prop)
    case Raised(cause) => Err(Properties.GettingError(prop, InvocationError(cause)))
    case Refused(e) => Err(Properties.GettingError(prop, e))
    case Returned(value) =>
      match LuaImage(h.u, value)
      case Ok(v) => Ok(v)
      case Err(e) => Err(Properties.GettingError(prop, e))
  }

  /** __newindex on a known mutable property: the conversion cannot fail, only the setter can. */
  function SetProperty(h: Host, prop: KProperty, v: Value): (r: Result<Value>)
    ensures r.Ok? <==> h.setProperty(prop, KotlinValue(v, prop.ty)).Returned?
    ensures r.Ok? ==> r.value == Bool(true)
    ensures h.setProperty(prop, KotlinValue(v, prop.ty)).Raised? ==>
      r == Err(Properties.SettingError(prop, InvocationError(h.setProperty(prop, KotlinValue(v, prop.ty)).cause)))
    ensures h.setProperty(prop, KotlinValue(v, prop.ty)).Refused? ==>
      r == Err(Properties.SettingError(prop, h.setProperty(prop, KotlinValue(v, prop.ty)).error))
  {
    match h.setProperty(prop, KotlinValue(v, prop.ty))
    case Raised(cause) => Err(Properties.SettingError(prop, InvocationError(cause)))
    case Refused(e) => Err(Properties.SettingError(prop, e))
    case Returned(_) => Ok(Bool(true))
  }

  /**
   * A Lua function written to a property of a non-function type reaches the setter as the
   * function itself, where Converter fails before the setter runs.
   */
  lemma FunctionToPlainProperty(h: Host, prop: KProperty, v: Value)
    requires v.Func? && FunctionArity(prop.ty).None?
    requires h.setProperty(prop, HLua(v)).Returned?
    ensures SetProperty(h, prop, v) == Ok(Bool(true))
    ensures Properties.SetProperty(h, prop, v).Err?
  {
  }
}
