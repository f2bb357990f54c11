/**
 * Converter: value conversion between Lua and Kotlin.
 *  - ToKotlinValue: a Lua value to the Kotlin value a declared type asks for;
 *  - ToKotlinType: the Kotlin type overload resolution infers for a Lua value;
 *  - LuaImage / ToLuaValue: a Kotlin value back to Lua.
 */
module Converter {
  import opened Base
  import opened Lua
  import Enums

  /** KType.toString as used in messages; the star projection of Function<*> is written out. */
  function TypeText(t: KType): string
  {
    if t == FunctionType then "kotlin.Function<*>" else t.classifier
  }

  /** KClass.toString of a declared type's classifier, or "null" without a type. */
  function ClassifierText(ty: Option<KType>): string
  {
    if ty.Some? then "class " + ty.value.classifier else "null"
  }

  /** The arity of the callback type declared, if it is Function0..Function3. */
  function CallbackArity(ty: Option<KType>): (r: Option<nat>)
    ensures r.Some? ==> ty.Some? && FunctionArity(ty.value) == r
  {
    if ty.Some? then FunctionArity(ty.value) else None
  }

  /** toKotlinValue: nil first, then functions, then enum records, then the primitive coercions. */
  function ToKotlinValue(v: Value, ty: Option<KType>): (r: Result<HostValue>)
    ensures v.Nil? ==> r == Ok(HNull)
    ensures v.Func? ==> (r.Ok? <==> CallbackArity(ty).Some?)
    ensures v.Func? && r.Ok? ==> r.value == HCallback(CallbackArity(ty).value, v)
    ensures v.Func? && r.Err? ==> r.error == TwineErr("Unsupported function type: " + ClassifierText(ty))
    ensures !v.Func? ==> r.Ok?
  {
    if v.Nil? then Ok(HNull)
    else if v.Func? then
      match CallbackArity(ty)
      case Some(n) => Ok(HCallback(n, v))
      case None => Err(TwineErr("Unsupported function type: " + ClassifierText(ty)))
    else if ty == Some(TwineEnumValueType) && v.Table? then
      Ok(HEnumRecord(EnumRecord(
        ToJString(Get(v, KStr("parentName"))),
        ToJString(Get(v, KStr("enumName"))),
        ToInt(Get(v, KStr("enumOrdinal"))),
        ToJString(Get(v, KStr(JavaClassKey))))))
    else if ty == Some(StringType) then Ok(HString(ToJString(v)))
    else if ty == Some(BooleanType) then Ok(HBool(ToBoolean(v)))
    else if ty == Some(IntType) then Ok(HInt(ToInt(v)))
    else if ty == Some(DoubleType) then Ok(HDouble(ToDouble(v)))
    else if ty == Some(FloatType) then Ok(HFloat(ToDouble(v)))
    else if ty == Some(LongType) then Ok(HLong(ToLong(v)))
    else Ok(HLua(v))
  }

  /** The types the converters map knows. */
  predicate IsCoercedType(t: KType)
  {
    t in {StringType, BooleanType, IntType, DoubleType, FloatType, LongType}
  }

  /** Any declared type outside the coercions (and not a record table) gets the Lua value itself. */
  lemma OtherTypesPassThrough(v: Value, t: KType)
    requires !v.Nil? && !v.Func? && !IsCoercedType(t)
    requires !(t == TwineEnumValueType && v.Table?)
    ensures ToKotlinValue(v, Some(t)) == Ok(HLua(v))
  {
  }

  /** toKotlinType: booleans before numbers, so every number is a Double; a table names its class. */
  function ToKotlinType(u: Universe, v: Value): (r: Result<KType>)
    ensures v.Num? ==> r == Ok(DoubleType)
    ensures v.Table? && TagName(v) in u.classes && !IsGenericClass(u, TagName(v)) ==> r == Ok(KType(TagName(v)))
    ensures v.Table? && IsGenericClass(u, TagName(v)) ==> r == Err(Throwable(IllegalArgument, None, None))
    ensures v.Table? && TagName(v) !in u.classes ==>
      r == Err(TwineErr("Could not find class for Lua table: " + TagName(v)))
    ensures r.Err? ==> v.Table?
  {
    match v
    case Bool(_) => Ok(BooleanType)
    case Num(_) => Ok(DoubleType)
    case Str(_) => Ok(StringType)
    case Func(_) => Ok(FunctionType)
    case Table(_, _) =>
      var name := TagName(v);
      if name !in u.classes then Err(TwineErr("Could not find class for Lua table: " + name))
      else if u.classes[name].isGeneric then Err(Throwable(IllegalArgument, None, None))
      else Ok(KType(name))
    case Nil => Ok(LuaNilType)
    case Twine(_) => Ok(TwineLuaValueType)
  }

  /** The Int branch of toKotlinType is dead: only a table tagged with Int's class infers Int. */
  lemma IntNeverInferredForScalars(u: Universe, v: Value)
    requires !v.Table?
    ensures ToKotlinType(u, v).Ok? && ToKotlinType(u, v).value != IntType
  {
  }

  // ---------------------------------------------------------------------
  // Kotlin to Lua

  /** Elements in iteration order, of the collections toLuaValue turns into sequence tables. */
  predicate IsCollection(h: HostValue)
  {
    h.HArray? || h.HSet? || h.HList?
  }

  /** The table a TwineTable gives after set("__javaClass", getter of its class name). */
  function TaggedTable(className: string, raw: map<Key, Value>, hooked: map<string, Value>): (t: Value)
    ensures t.Table? && t.raw == raw
    ensures KStr(JavaClassKey) !in raw ==> TagName(t) == className
    ensures forall k :: k in hooked && k != JavaClassKey && KStr(k) !in raw ==> Get(t, KStr(k)) == hooked[k]
  {
    Table(raw, hooked[JavaClassKey := Str(className)])
  }

  /**
   * toLuaValue as a function of the Kotlin value (the error a conversion throws on the left):
   * collections become sequence tables, an enum constant its class's table, and every other
   * value is converted on its own.
   */
  function LuaImage(u: Universe, h: HostValue): (r: Result<Value>)
    decreases h, 1
  {
    if IsCollection(h) then SequenceTable(u, h, |h.elems|)
    else if h.HEnumConstant? then EnumImage(u, h.enumClass)
    else SingleImage(h)
  }

  /** An enum constant: the TwineEnum table of its class, which must be an enum class. */
  function EnumImage(u: Universe, c: string): (r: Result<Value>)
  {
    if c in u.classes && u.classes[c].isEnum then
      var info := u.classes[c];
      Ok(Table(Enums.ConstantEntries(map[], info, |info.constants|), map[]))
    else Err(TwineErr("TwineEnum can only be used with enum classes"))
  }

  /** The branches of toLuaValue for values that are neither collections nor enum constants. */
  function SingleImage(h: HostValue): (r: Result<Value>)
    requires !IsCollection(h) && !h.HEnumConstant?
  {
    match h
    case HString(s) => Ok(Str(s))
    case HBool(b) => Ok(Bool(b))
    case HDouble(d) => Ok(Num(LDouble(d)))
    case HInt(i) => Ok(Num(LInt(i)))
    case HLong(l) => Ok(Num(LInt(Wrap32(l))))
    case HFloat(f) => Ok(Num(LDouble(f)))
    case HLua(v) => LuaValueImage(v)
    case HTable(c, raw, hooked) => Ok(TaggedTable(c, raw, hooked))
    case HEnumRecord(rec) =>
      var t := Enums.RecordTable(rec);
      Ok(TaggedTable(Enums.TwineEnumValueClassName, t.raw, t.hooked))
    case HTwineLuaValue(_) => Err(TwineErr("TwineLuaValue should not be used as a return type."))
    case HNull => Ok(Twine(Nil))
    case HUnit => Ok(Twine(Nil))
    case _ => Err(TwineErr("Unsupported toLuaValue type: " + SimpleName(h)))
  }

  /**
   * A LuaValue given back: LuaString, LuaInteger and LuaBoolean are copied, a TwineLuaValue is
   * refused, any other is an unsupported type.
   */
  function LuaValueImage(v: Value): (r: Result<Value>)
    ensures v.Str? || v.Bool? || (v.Num? && v.n.LInt?) ==> r == Ok(v)
    ensures v.Twine? ==> r == Err(TwineErr("TwineLuaValue should not be used as a return type."))
    ensures r.Err? && !v.Twine? ==> r == Err(TwineErr("Unsupported toLuaValue type: " + LuaSimpleName(v)))
  {
    match v
    case Str(s) => Ok(Str(s))
    case Num(LInt(i)) => Ok(Num(LInt(i)))
    case Bool(b) => Ok(Bool(b))
    case Twine(_) => Err(TwineErr("TwineLuaValue should not be used as a return type."))
    case _ => Err(TwineErr("Unsupported toLuaValue type: " + LuaSimpleName(v)))
  }

  /** The images of a collection's elements, in order. */
  function Images(u: Universe, h: HostValue): (r: seq<Result<Value>>)
    requires IsCollection(h)
    ensures |r| == |h.elems|
    ensures forall i :: 0 <= i < |r| ==> r[i] == LuaImage(u, h.elems[i])
    decreases h, 0, 0
  {
    seq(|h.elems|, i requires 0 <= i < |h.elems| => LuaImage(u, h.elems[i]))
  }

  /** The table holding the images of the first n elements at keys 1..n. */
  function SequenceTable(u: Universe, h: HostValue, n: nat): (r: Result<Value>)
    requires IsCollection(h) && n <= |h.elems|
    ensures r.Ok? ==> r.value.Table? && r.value.hooked == map[]
    decreases h, 0, 1
  {
    Fill(Images(u, h), n)
  }

  /** The first n of a run of converted values set at keys 1..n of a fresh table; the first error stops it. */
  function Fill(images: seq<Result<Value>>, n: nat): (r: Result<Value>)
    requires n <= |images|
    ensures r.Ok? ==> r.value.Table? && r.value.hooked == map[]
  {
    if n == 0 then Ok(Table(map[], map[]))
    else
      var t :- Fill(images, n - 1);
      var v :- images[n - 1];
      Ok(Table(RawSet(t.raw, KInt(n), v), map[]))
  }

  /** The keys of a sequence table of n elements: integers 1..n. */
  predicate KeysWithin(raw: map<Key, Value>, n: nat)
  {
    forall k :: k in raw ==> k.KInt? && 1 <= k.i <= n
  }

  /** When the first n values all converted, value i sits at key i + 1, and there is no other key. */
  lemma {:induction false} FillEntries(images: seq<Result<Value>>, n: nat)
    requires n <= |images| && forall i :: 0 <= i < n ==> images[i].Ok?
    ensures Fill(images, n).Ok?
    ensures KeysWithin(Fill(images, n).value.raw, n)
    ensures forall i :: 0 <= i < n ==> Get(Fill(images, n).value, KInt(i + 1)) == images[i].value
  {
    if n > 0 {
      FillEntries(images, n - 1);
      var prev := Fill(images, n - 1).value;
      var t := Fill(images, n).value;
      assert t == Table(RawSet(prev.raw, KInt(n), images[n - 1].value), map[]);
      forall i | 0 <= i < n ensures Get(t, KInt(i + 1)) == images[i].value {
        if i < n - 1 {
          assert Get(t, KInt(i + 1)) == Get(prev, KInt(i + 1));
        }
      }
    }
  }

  /** Once a prefix fails, every longer prefix fails with the same error. */
  lemma {:induction false} FillErrorPersists(images: seq<Result<Value>>, n: nat, m: nat)
    requires n <= m <= |images| && Fill(images, n).Err?
    ensures Fill(images, m) == Fill(images, n)
    decreases m
  {
    if m > n {
      FillErrorPersists(images, n, m - 1);
    }
  }

  /** The first failing value decides the error of every prefix that contains it. */
  lemma {:induction false} FillFirstError(images: seq<Result<Value>>, n: nat, j: nat)
    requires j < n <= |images|
    requires forall i :: 0 <= i < j ==> images[i].Ok?
    requires images[j].Err?
    ensures Fill(images, n) == Err(images[j].error)
  {
    if n - 1 == j {
      FillEntries(images, j);
    } else {
      FillFirstError(images, n - 1, j);
    }
  }

  /**
   * A collection whose elements all convert becomes a table holding element i at key i + 1,
   * and no other key.
   */
  lemma SequenceTableEntries(u: Universe, h: HostValue, n: nat)
    requires IsCollection(h) && n <= |h.elems|
    requires forall i :: 0 <= i < n ==> LuaImage(u, h.elems[i]).Ok?
    ensures SequenceTable(u, h, n).Ok?
    ensures KeysWithin(SequenceTable(u, h, n).value.raw, n)
    ensures forall i :: 0 <= i < n ==> Get(SequenceTable(u, h, n).value, KInt(i + 1)) == LuaImage(u, h.elems[i]).value
  {
    FillEntries(Images(u, h), n);
  }

  /** Once a prefix fails, every longer prefix fails with the same error. */
  lemma SequenceTableErrorPersists(u: Universe, h: HostValue, n: nat, m: nat)
    requires IsCollection(h) && n <= m <= |h.elems|
    requires SequenceTable(u, h, n).Err?
    ensures SequenceTable(u, h, m) == SequenceTable(u, h, n)
  {
    FillErrorPersists(Images(u, h), n, m);
  }

  /** The first element that cannot be converted makes the whole conversion fail with its error. */
  lemma SequenceTableFirstError(u: Universe, h: HostValue, n: nat, j: nat)
    requires IsCollection(h) && j < n <= |h.elems|
    requires forall i :: 0 <= i < j ==> LuaImage(u, h.elems[i]).Ok?
    requires LuaImage(u, h.elems[j]).Err?
    ensures SequenceTable(u, h, n) == Err(LuaImage(u, h.elems[j]).error)
  {
    FillFirstError(Images(u, h), n, j);
  }

  /** Long narrows through Int: the low 32 bits, so Int-range values survive and others wrap. */
  lemma LongNarrowing(u: Universe, l: int)
    ensures LuaImage(u, HLong(l)).Ok? && LuaImage(u, HLong(l)).value.n.LInt?
    ensures IsInt32(l) ==> LuaImage(u, HLong(l)) == Ok(Num(LInt(l)))
    ensures l == TwoTo31 ==> LuaImage(u, HLong(l)) == Ok(Num(LInt(-TwoTo31)))
  {
  }

  /** Strings, booleans and Int-range integers survive Kotlin -> Lua -> Kotlin under their declared type. */
  lemma PrimitiveRoundTrips(u: Universe, s: string, b: bool, i: int)
    requires IsInt32(i)
    ensures LuaImage(u, HString(s)).Ok? && ToKotlinValue(LuaImage(u, HString(s)).value, Some(StringType)) == Ok(HString(s))
    ensures LuaImage(u, HBool(b)).Ok? && ToKotlinValue(LuaImage(u, HBool(b)).value, Some(BooleanType)) == Ok(HBool(b))
    ensures LuaImage(u, HInt(i)).Ok? && ToKotlinValue(LuaImage(u, HInt(i)).value, Some(IntType)) == Ok(HInt(i))
    ensures LuaImage(u, HLong(i)).Ok? && ToKotlinValue(LuaImage(u, HLong(i)).value, Some(LongType)) == Ok(HLong(i))
  {
  }

  /** A record made from an enum constant survives Kotlin -> Lua -> Kotlin as a TwineEnumValue. */
  lemma RecordRoundTrip(u: Universe, rec: EnumRecord)
    requires IsInt32(rec.ordinal)
    ensures LuaImage(u, HEnumRecord(rec)).Ok?
    ensures ToKotlinValue(LuaImage(u, HEnumRecord(rec)).value, Some(TwineEnumValueType))
      == Ok(HEnumRecord(EnumRecord(rec.parent, rec.name, rec.ordinal, Enums.TwineEnumValueClassName)))
  {
  }

  /**
   * null and Unit become TwineLuaValue.NIL, a wrapper around nil: Lua sees a value of type nil
   * that is not nil itself and counts as true.
   */
  lemma NullAndUnitAreWrappedNil(u: Universe)
    ensures LuaImage(u, HNull) == Ok(Twine(Nil)) && LuaImage(u, HUnit) == Ok(Twine(Nil))
    ensures TypeName(LuaImage(u, HNull).value) == "nil"
    ensures !LuaImage(u, HNull).value.Nil? && ToBoolean(LuaImage(u, HNull).value)
  {
  }

  /** A TwineLuaValue cannot be returned to Lua, whether it is known as one or as a LuaValue. */
  lemma TwineLuaValueRejected(u: Universe, v: Value)
    ensures LuaImage(u, HTwineLuaValue(v)) == Err(TwineErr("TwineLuaValue should not be used as a return type."))
    ensures LuaImage(u, HLua(Twine(v))) == Err(TwineErr("TwineLuaValue should not be used as a return type."))
  {
  }

  /** Values of classes toLuaValue does not know fail with their simple name. */
  lemma UnknownClassRejected(u: Universe, name: string)
    ensures LuaImage(u, HOther(name)) == Err(TwineErr("Unsupported toLuaValue type: " + name))
  {
  }

  /** toLuaValue: dispatch on the Kotlin value, filling a fresh table for collections. */
  method ToLuaValue(u: Universe, h: HostValue) returns (r: Result<Value>)
    ensures r == LuaImage(u, h)
    decreases h, 2
  {
    match h {
      case HArray(es) => r := FillSequence(u, h);
      case HSet(es) => r := FillSequence(u, h);
      case HList(es) => r := FillSequence(u, h);
      case HEnumConstant(c, _) => r := EnumConstantTable(u, h);
      case _ => r := LuaImage(u, h);
    }
  }

  /** The image of an enum constant: its class's constant table, or the TwineEnum init error. */
  lemma EnumConstantImage(u: Universe, h: HostValue)
    requires h.HEnumConstant?
    ensures h.enumClass in u.classes && u.classes[h.enumClass].isEnum ==>
      LuaImage(u, h) == Ok(Table(Enums.ConstantEntries(map[], u.classes[h.enumClass], |u.classes[h.enumClass].constants|), map[]))
    ensures !(h.enumClass in u.classes && u.classes[h.enumClass].isEnum) ==>
      LuaImage(u, h) == Err(TwineErr("TwineEnum can only be used with enum classes"))
  {
  }

  /** An enum constant becomes the TwineEnum table of its whole class, written by toLuaTable. */
  method EnumConstantTable(u: Universe, h: HostValue) returns (r: Result<Value>)
    requires h.HEnumConstant?
    ensures r == LuaImage(u, h)
  {
    var c := h.enumClass;
    EnumConstantImage(u, h);
    if c in u.classes {
      var e := Enums.TwineEnum.Create(u.classes[c]);
      if e.Err? {
        return Err(e.error);
      }
      var t := e.value.ToLuaTable();
      r := Ok(t);
    } else {
      r := Err(TwineErr("TwineEnum can only be used with enum classes"));
    }
  }

  /** One more element: the previous table, with the element's image at its 1-based key, or its error. */
  lemma SequenceTableNext(u: Universe, h: HostValue, i: nat)
    requires IsCollection(h) && i < |h.elems|
    requires SequenceTable(u, h, i).Ok?
    ensures LuaImage(u, h.elems[i]).Err? ==> SequenceTable(u, h, i + 1) == Err(LuaImage(u, h.elems[i]).error)
    ensures LuaImage(u, h.elems[i]).Ok? ==>
      SequenceTable(u, h, i + 1) ==
        Ok(Table(RawSet(SequenceTable(u, h, i).value.raw, KInt(i + 1), LuaImage(u, h.elems[i]).value), map[]))
  {
  }

  /** The forEachIndexed loop: element i, converted, is stored at key i + 1. */
  method FillSequence(u: Universe, h: HostValue) returns (r: Result<Value>)
    requires IsCollection(h)
    ensures r == SequenceTable(u, h, |h.elems|)
    decreases h, 1
  {
    var raw: map<Key, Value> := map[];
    var i := 0;
    while i < |h.elems|
      invariant 0 <= i <= |h.elems|
      invariant SequenceTable(u, h, i) == Ok(Table(raw, map[]))
    {
      var next := StoreElement(u, h, i, raw);
      if next.Err? {
        return Err(next.error);
      }
      raw := next.value;
      i := i + 1;
    }
    return Ok(Table(raw, map[]));
  }

  /** One iteration: element i is converted and set at key i + 1, or its conversion's error is thrown. */
  method StoreElement(u: Universe, h: HostValue, i: nat, raw: map<Key, Value>) returns (r: Result<map<Key, Value>>)
    requires IsCollection(h) && i < |h.elems|
    requires SequenceTable(u, h, i) == Ok(Table(raw, map[]))
    ensures r.Err? ==> SequenceTable(u, h, i + 1) == Err(r.error)
    ensures r.Err? ==> SequenceTable(u, h, |h.elems|) == Err(r.error)
    ensures r.Ok? ==> SequenceTable(u, h, i + 1) == Ok(Table(r.value, map[]))
    decreases h, 0
  {
    var v := ToLuaValue(u, h.elems[i]);
    SequenceTableNext(u, h, i);
    if v.Err? {
      SequenceTableErrorPersists(u, h, i + 1, |h.elems|);
      return Err(v.error);
    }
    r := Ok(RawSet(raw, KInt(i + 1), v.value));
  }
}
