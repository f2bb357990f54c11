/**
 * The two worlds the bridge connects, as closed datatypes:
 *  - Lua values as LuaJ hands them to the bridge (Value), with table keys (Key);
 *  - Kotlin descriptors that reflection would discover (KType, KParam, KFunction,
 *    KProperty, ClassInfo, Universe) and Kotlin values (HostValue).
 * Also the LuaJ coercions (toboolean, toint, todouble, tojstring) the bridge relies on.
 */
module Lua {
  import opened Base

  // ---------------------------------------------------------------------
  // Kotlin descriptors

  /** A Kotlin type, identified by its classifier's JVM name ("kotlin.Double", "com.x.Point"). */
  datatype KType = KType(classifier: string)

  const StringType := KType("kotlin.String")
  const BooleanType := KType("kotlin.Boolean")
  const IntType := KType("kotlin.Int")
  const DoubleType := KType("kotlin.Double")
  const FloatType := KType("kotlin.Float")
  const LongType := KType("kotlin.Long")
  /** Function<*>, the type inferred for a Lua function. */
  const FunctionType := KType("kotlin.Function")
  const LuaValueType := KType("org.luaj.vm2.LuaValue")
  const LuaTableType := KType("org.luaj.vm2.LuaTable")
  /** The runtime class of LuaValue.NIL, inferred for a missing or nil argument. */
  const LuaNilType := KType("org.luaj.vm2.LuaNil")
  const TwineEnumValueType := KType("dev.znci.twine.TwineEnumValue")
  const TwineTableClassName := "dev.znci.twine.TwineTable"
  /** The class of a TwineLuaValue, the type inferred for one passed back from Lua. */
  const TwineLuaValueType := KType("dev.znci.twine.TwineLuaValue")

  /** kotlin.Function0 .. kotlin.Function3, the callback types the bridge can build. */
  function FunctionArity(t: KType): (r: Option<nat>)
    ensures r.Some? ==> r.value <= 3
  {
    if t.classifier == "kotlin.Function0" then Some(0)
    else if t.classifier == "kotlin.Function1" then Some(1)
    else if t.classifier == "kotlin.Function2" then Some(2)
    else if t.classifier == "kotlin.Function3" then Some(3)
    else None
  }

  /** A parameter of a Kotlin function or primary constructor (receiver excluded). */
  datatype KParam = KParam(name: string, ty: KType, isVararg: bool)

  /**
   * A member function of the bridged class: its declared name, the name given to its
   * TwineNativeFunction annotation (None when it is not annotated) and its parameters
   * after the receiver.
   */
  datatype KFunction = KFunction(name: string, annotation: Option<string>, params: seq<KParam>)

  /**
   * A member property: declared name, TwineNativeProperty annotation name (None when not
   * annotated), its type (also the setter's value parameter type) and whether it is a
   * KMutableProperty (declared var).
   */
  datatype KProperty = KProperty(name: string, annotation: Option<string>, ty: KType, mutable: bool)

  /** What reflection knows about a class. */
  datatype ClassInfo = ClassInfo(
    javaName: string,               // Class.getName, the name a `__javaClass` tag and Class.forName use
    qualifiedName: string,          // KClass.qualifiedName
    simpleName: string,             // KClass.simpleName
    isEnum: bool,                   // Class.isEnum
    constants: seq<string>,         // enum constants in declaration order
    primaryCtor: Option<seq<KParam>>,
    isTwineTable: bool,             // the class extends TwineTable
    isGeneric: bool)                // the class declares type parameters, so createType() without arguments throws

  /**
   * The classes Class.forName can find, keyed by JVM name, and the subtype relation:
   * (sub, sup) in subtypes means sup.isSupertypeOf(sub) for distinct classifiers.
   */
  datatype Universe = Universe(classes: map<string, ClassInfo>, subtypes: set<(string, string)>)

  function ForName(u: Universe, name: string): (r: Option<ClassInfo>)
    ensures r.Some? <==> name in u.classes
  {
    if name in u.classes then Some(u.classes[name]) else None
  }

  /** The named class is known and generic: KClass.createType() with no type arguments refuses it. */
  predicate IsGenericClass(u: Universe, name: string)
  {
    name in u.classes && u.classes[name].isGeneric
  }

  /** KType.isSupertypeOf: every type is its own supertype, otherwise the given relation. */
  predicate IsSupertypeOf(u: Universe, sup: KType, sub: KType)
  {
    sup == sub || (sub.classifier, sup.classifier) in u.subtypes
  }

  /** The primary constructor of a classifier; classes reflection does not know have none. */
  function PrimaryCtor(u: Universe, t: KType): (r: Option<seq<KParam>>)
    ensures r.Some? ==> t.classifier in u.classes && u.classes[t.classifier].primaryCtor == r
  {
    if t.classifier in u.classes then u.classes[t.classifier].primaryCtor else None
  }

  // ---------------------------------------------------------------------
  // Lua values

  /** Table keys the bridge produces and reads: strings and integers. */
  datatype Key = KStr(s: string) | KInt(i: int)

  /** LuaInteger or LuaDouble (a double is kept as a real number; rounding is not modelled). */
  datatype Number = LInt(i: int) | LDouble(d: real)

  /** A Lua function value: one written in the script, or one of the bridge's wrappers. */
  datatype LuaFunction =
    | ScriptFunction(id: nat)
    | DirectWrapper(target: KFunction)                          // FunctionRegistrar.registerFunctions
    | OverloadWrapper(name: string, group: seq<KFunction>)      // FunctionRegistrar.registerOverloads
    | LegacyDirectWrapper(target: KFunction)                    // legacy registerFunctions
    | LegacyOverloadWrapper(name: string, group: seq<KFunction>) // legacy handleOverloadedFunctions

  /**
   * A Lua value. A table is seen through two maps: raw holds its own entries (what
   * keys() enumerates and rawget finds), hooked holds the string keys its metatable's
   * __index hook answers with a value (such as __javaClass, or a TwineEnumValue's record
   * fields); any other key it does not hold reads as nil.
   *
   * Twine(inner) is a TwineLuaValue object where LuaJ expects a Lua value: it reports
   * inner's type and type name, and nothing else is delegated, so to LuaJ it is not nil,
   * not a string, number, table or function, and it is true.
   */
  datatype Value =
    | Nil
    | Bool(b: bool)
    | Num(n: Number)
    | Str(s: string)
    | Table(raw: map<Key, Value>, hooked: map<string, Value>)
    | Func(fn: LuaFunction)
    | Twine(inner: Value)

  const JavaClassKey := "__javaClass"

  function EmptyTable(): (t: Value)
    ensures t.Table? && t.raw == map[] && t.hooked == map[]
  {
    Table(map[], map[])
  }

  /** LuaTable.get: the raw entry, else what the __index hook answers, else nil. */
  function Get(t: Value, k: Key): (r: Value)
    requires t.Table?
    ensures k in t.raw ==> r == t.raw[k]
    ensures k !in t.raw && (k.KInt? || k.s !in t.hooked) ==> r == Nil
  {
    if k in t.raw then t.raw[k]
    else if k.KStr? && k.s in t.hooked then t.hooked[k.s]
    else Nil
  }

  /** LuaTable.set on a table without a __newindex hook: storing nil removes the key. */
  function RawSet(m: map<Key, Value>, k: Key, v: Value): (r: map<Key, Value>)
    ensures v.Nil? ==> k !in r
    ensures !v.Nil? ==> k in r && r[k] == v
    ensures forall j :: j != k ==> (j in r <==> j in m)
    ensures forall j :: j != k && j in m ==> r[j] == m[j]
  {
    if v.Nil? then m - {k} else m[k := v]
  }

  /** LuaValue.tojstring of a key. */
  function KeyText(k: Key): string
  {
    match k
    case KStr(s) => s
    case KInt(i) => IntText(i)
  }

  /** keys().map { it.tojstring() }, as a set. */
  function KeyTexts(m: map<Key, Value>): (r: set<string>)
    ensures forall k :: k in m ==> KeyText(k) in r
    ensures forall s :: s in r ==> exists k :: k in m && KeyText(k) == s
  {
    set k | k in m :: KeyText(k)
  }

  /**
   * LuaTable.length(): the number of consecutive integer keys 1, 2, ... present from n+1 on,
   * plus n (LuaJ's border search over its array and hash parts is not modelled).
   */
  function Border(m: map<Key, Value>, n: nat): (r: nat)
    ensures n <= r
    ensures forall i :: n < i <= r ==> KInt(i) in m
    decreases |m| - n
  {
    if n < |m| && KInt(n + 1) in m then Border(m, n + 1) else n
  }

  function Length(t: Value): nat
    requires t.Table?
  {
    Border(t.raw, 0)
  }

  // ---------------------------------------------------------------------
  // LuaJ coercions

  /** LuaValue.toboolean: everything but nil and false is true. */
  predicate ToBoolean(v: Value)
  {
    !(v.Nil? || v == Bool(false))
  }

  /** LuaValue.toint: a number's integer part; any other value reads as 0. */
  function ToInt(v: Value): int
  {
    match v
    case Num(LInt(i)) => i
    case Num(LDouble(d)) => Truncate(d)
    case _ => 0
  }

  /** LuaValue.tolong: a number's integer part without 32-bit narrowing; any other value reads as 0. */
  function ToLong(v: Value): int
  {
    match v
    case Num(LInt(i)) => i
    case Num(LDouble(d)) => Truncate(d)
    case _ => 0
  }

  /** LuaValue.todouble: a number's value; any other value reads as 0. */
  function ToDouble(v: Value): real
  {
    match v
    case Num(LInt(i)) => i as real
    case Num(LDouble(d)) => d
    case _ => 0.0
  }

  /** LuaValue.typename. */
  function TypeName(v: Value): string
  {
    match v
    case Nil => "nil"
    case Bool(_) => "boolean"
    case Num(_) => "number"
    case Str(_) => "string"
    case Table(_, _) => "table"
    case Func(_) => "function"
    case Twine(inner) => TypeName(inner)
  }

  /**
   * LuaValue.tojstring: exact for nil, booleans, strings and integers; doubles, tables and
   * functions get a fixed placeholder in place of LuaJ's number format or object address.
   * A TwineLuaValue keeps LuaValue's default, its type name followed by its address.
   */
  function ToJString(v: Value): string
  {
    match v
    case Nil => "nil"
    case Bool(b) => if b then "true" else "false"
    case Str(s) => s
    case Num(LInt(i)) => IntText(i)
    case Num(LDouble(_)) => "<double>"
    case Table(_, _) => "table: <address>"
    case Func(_) => "function: <address>"
    case Twine(inner) => TypeName(inner) + ": <address>"
  }

  /** The class name a table carries: its __javaClass entry read as a string. */
  function TagName(t: Value): (name: string)
    requires t.Table?
    ensures Get(t, KStr(JavaClassKey)).Str? ==> name == Get(t, KStr(JavaClassKey)).s
    ensures KStr(JavaClassKey) !in t.raw && JavaClassKey !in t.hooked ==> name == "nil"
  {
    ToJString(Get(t, KStr(JavaClassKey)))
  }

  // ---------------------------------------------------------------------
  // Kotlin values

  /** A TwineEnumValue record. */
  datatype EnumRecord = EnumRecord(parent: string, name: string, ordinal: int, javaClass: string)

  /** Kotlin values that cross the bridge. */
  datatype HostValue =
    | HNull
    | HUnit
    | HString(s: string)
    | HBool(b: bool)
    | HInt(i: int)
    | HLong(l: int)
    | HDouble(d: real)
    | HFloat(f: real)
    | HArray(elems: seq<HostValue>)                     // Array<*>
    | HPrimArray(kind: KType, elems: seq<HostValue>)    // DoubleArray, BooleanArray, FloatArray, LongArray
    | HSet(elems: seq<HostValue>)                       // a Set, in iteration order
    | HList(elems: seq<HostValue>)                      // java.util.ArrayList
    | HCallback(arity: nat, fn: Value)                  // a FunctionN wrapping a Lua function
    | HInvoked(fn: Value)                               // what a Lua function returned when called with no arguments
    | HLua(v: Value)                                    // a LuaValue
    | HTwineLuaValue(v: Value)                          // a TwineLuaValue wrapping v
    | HTable(className: string, raw: map<Key, Value>, hooked: map<string, Value>)
                                                        // a TwineTable instance of class className, with its table
    | HEnumRecord(rec: EnumRecord)                      // a TwineEnumValue
    | HEnumConstant(enumClass: string, name: string)    // an Enum<*> constant
    | HOther(simpleName: string)                        // anything else, by its class's simple name

  /** javaClass.simpleName of a Kotlin value, as used in "Unsupported" messages. */
  function SimpleName(h: HostValue): string
  {
    match h
    case HNull => "null"
    case HUnit => "Unit"
    case HString(_) => "String"
    case HBool(_) => "Boolean"
    case HInt(_) => "Integer"
    case HLong(_) => "Long"
    case HDouble(_) => "Double"
    case HFloat(_) => "Float"
    case HArray(_) => "Object[]"
    case HPrimArray(k, _) => PrimitiveArrayName(k)
    case HSet(_) => "LinkedHashSet"
    case HList(_) => "ArrayList"
    case HCallback(_, _) => "Function"
    case HInvoked(v) => LuaSimpleName(v)
    case HLua(v) => LuaSimpleName(v)
    case HTwineLuaValue(_) => "TwineLuaValue"
    case HTable(c, _, _) => c
    case HEnumRecord(_) => "TwineEnumValue"
    case HEnumConstant(c, _) => c
    case HOther(n) => n
  }

  /** The JVM simple name of a primitive array (DoubleArray is double[]). */
  function PrimitiveArrayName(k: KType): string
  {
    if k == DoubleType then "double[]"
    else if k == BooleanType then "boolean[]"
    else if k == FloatType then "float[]"
    else if k == LongType then "long[]"
    else if k == IntType then "int[]"
    else "Object[]"
  }

  /** The LuaJ class of a Lua value. */
  function LuaSimpleName(v: Value): string
  {
    match v
    case Nil => "LuaNil"
    case Bool(_) => "LuaBoolean"
    case Num(LInt(_)) => "LuaInteger"
    case Num(LDouble(_)) => "LuaDouble"
    case Str(_) => "LuaString"
    case Table(_, _) => "LuaTable"
    case Func(_) => "LuaFunction"
    case Twine(_) => "TwineLuaValue"
  }

  // ---------------------------------------------------------------------
  // Reflection, as given behaviour

  /**
   * What a reflective call does: return a value, throw (the callee's own exception, which
   * reflection wraps in an InvocationTargetException), or be refused by reflection itself before
   * the callee runs (an argument of the wrong type, "argument type mismatch"), in which case
   * reflection's IllegalArgumentException is thrown as it is.
   */
  datatype Outcome = Returned(value: HostValue) | Raised(cause: Throwable) | Refused(error: Throwable)

  /**
   * Everything the bridge asks of Kotlin reflection: the classes it can find, and the
   * behaviour of calling a function, a primary constructor, a property getter or setter.
   */
  datatype Host = Host(
    u: Universe,
    call: (KFunction, seq<HostValue>) -> Outcome,
    construct: (ClassInfo, seq<HostValue>) -> Outcome,
    getProperty: KProperty -> Outcome,
    setProperty: (KProperty, HostValue) -> Outcome)

  /** KFunction.call wraps an exception thrown by the callee in an InvocationTargetException. */
  function InvocationError(cause: Throwable): (e: Throwable)
    ensures e.kind == InvocationTarget && e.cause == Some(cause) && e.message == None
  {
    Throwable(InvocationTarget, None, Some(cause))
  }

  /** The exposed-name default of the annotations. */
  const InheritTag := "INHERIT_FROM_DEFINITION"

  /** The name a function or property is exposed under: the annotation's, unless it is the tag. */
  function ExposedName(declared: string, annotation: string): (r: string)
    ensures annotation != InheritTag ==> r == annotation
    ensures annotation == InheritTag ==> r == declared
  {
    if annotation == InheritTag then declared else annotation
  }
}
