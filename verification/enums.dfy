/**
 * TwineEnum: the bridge between a Kotlin enum class and Lua.
 * A constant crosses into Lua as a TwineEnumValue record (declaring class, name, ordinal,
 * record class) and comes back either by name (fromLuaTable) or as a record (toJava).
 */
module Enums {
  import opened Base
  import opened Lua

  const TwineEnumValueClassName := "dev.znci.twine.TwineEnumValue"

  /** The record TwineEnumValue(declaringJavaClass.name, name, ordinal, TwineEnumValue class name). */
  function RecordOf(info: ClassInfo, ordinal: nat): (r: EnumRecord)
    requires ordinal < |info.constants|
    ensures r.parent == info.javaName && r.name == info.constants[ordinal] && r.ordinal == ordinal
    ensures r.javaClass == TwineEnumValueClassName
  {
    EnumRecord(info.javaName, info.constants[ordinal], ordinal, TwineEnumValueClassName)
  }

  /**
   * The table of a TwineEnumValue: it has no raw entries, and its property hook answers
   * the four annotated properties (each getter's value converted to Lua).
   */
  function RecordTable(rec: EnumRecord): (t: Value)
    ensures t.Table? && t.raw == map[]
  {
    Table(map[], map[
      JavaClassKey := Str(rec.javaClass),
      "parentName" := Str(rec.parent),
      "enumName" := Str(rec.name),
      "enumOrdinal" := Num(LInt(rec.ordinal))])
  }

  /** Reading the record's table answers each property with the record's field. */
  lemma RecordTableAnswers(rec: EnumRecord)
    ensures Get(RecordTable(rec), KStr("enumName")) == Str(rec.name)
    ensures Get(RecordTable(rec), KStr("parentName")) == Str(rec.parent)
    ensures Get(RecordTable(rec), KStr("enumOrdinal")) == Num(LInt(rec.ordinal))
    ensures TagName(RecordTable(rec)) == rec.javaClass
  {
  }

  /** `base` after the first n constants have been written under their names. */
  function ConstantEntries(base: map<Key, Value>, info: ClassInfo, n: nat): (m: map<Key, Value>)
    requires n <= |info.constants|
  {
    if n == 0 then base
    else ConstantEntries(base, info, n - 1)[KStr(info.constants[n - 1]) := RecordTable(RecordOf(info, n - 1))]
  }

  predicate DistinctConstants(info: ClassInfo)
  {
    forall i, j :: 0 <= i < j < |info.constants| ==> info.constants[i] != info.constants[j]
  }

  /** The entries are those of `base` plus one per constant written. */
  lemma {:induction false} ConstantEntriesKeys(base: map<Key, Value>, info: ClassInfo, n: nat, k: Key)
    requires n <= |info.constants|
    ensures k in ConstantEntries(base, info, n) <==> k in base || exists i :: 0 <= i < n && k == KStr(info.constants[i])
  {
    if n > 0 {
      ConstantEntriesKeys(base, info, n - 1, k);
    }
  }

  /** With distinct constant names, each constant's entry is its own record. */
  lemma {:induction false} ConstantEntryIsRecord(base: map<Key, Value>, info: ClassInfo, n: nat, i: nat)
    requires DistinctConstants(info)
    requires i < n <= |info.constants|
    ensures KStr(info.constants[i]) in ConstantEntries(base, info, n)
    ensures ConstantEntries(base, info, n)[KStr(info.constants[i])] == RecordTable(RecordOf(info, i))
  {
    if i < n - 1 {
      assert info.constants[i] != info.constants[n - 1];
      ConstantEntryIsRecord(base, info, n - 1, i);
    }
  }

  /** The first name among `names` that is a constant of the enum, in the order of `names`. */
  function FirstConstant(info: ClassInfo, names: seq<string>): (r: Option<string>)
    ensures r.Some? ==> r.value in info.constants && r.value in names
  {
    if names == [] then None
    else if names[0] in info.constants then Some(names[0])
    else FirstConstant(info, names[1..])
  }

  /** FirstConstant finds the earliest name that is a constant, and nothing when none is. */
  lemma {:induction false} FirstConstantIsEarliest(info: ClassInfo, names: seq<string>)
    ensures FirstConstant(info, names).None? <==> forall j :: 0 <= j < |names| ==> names[j] !in info.constants
    ensures FirstConstant(info, names).Some? ==>
      exists i :: (0 <= i < |names| && names[i] == FirstConstant(info, names).value
        && forall j :: 0 <= j < i ==> names[j] !in info.constants)
  {
    if names != [] && names[0] !in info.constants {
      var rest := FirstConstant(info, names[1..]);
      FirstConstantIsEarliest(info, names[1..]);
      if rest.Some? {
        var i :| 0 <= i < |names[1..]| && names[1..][i] == rest.value
          && (forall j :: 0 <= j < i ==> names[1..][j] !in info.constants);
        assert names[i + 1] == rest.value;
        forall j | 0 <= j < i + 1 ensures names[j] !in info.constants {
          if j > 0 { assert names[j] == names[1..][j - 1]; }
        }
      } else {
        forall j | 0 <= j < |names| ensures names[j] !in info.constants {
          if j > 0 { assert names[j] == names[1..][j - 1]; }
        }
      }
    }
  }

  /** With no constant before position i, the scan answers the name at i if it is one, and nothing past the end. */
  lemma {:induction false} FirstConstantAt(info: ClassInfo, names: seq<string>, i: nat)
    requires i <= |names|
    requires forall k :: 0 <= k < i ==> names[k] !in info.constants
    ensures i < |names| && names[i] in info.constants ==> FirstConstant(info, names) == Some(names[i])
    ensures i == |names| ==> FirstConstant(info, names) == None
    decreases i
  {
    if i > 0 {
      assert names[0] !in info.constants;
      assert forall k :: 0 <= k < i - 1 ==> names[1..][k] == names[k + 1];
      FirstConstantAt(info, names[1..], i - 1);
      assert i < |names| ==> names[1..][i - 1] == names[i];
    }
  }

  /** The strings at positions 1..n of a table, each read with get and rendered with toString. */
  function PositionNames(t: Value, n: nat): (names: seq<string>)
    requires t.Table?
    ensures |names| == n
    ensures forall i :: 0 <= i < n ==> names[i] == ToJString(Get(t, KInt(i + 1)))
  {
    if n == 0 then [] else PositionNames(t, n - 1) + [ToJString(Get(t, KInt(n)))]
  }

  /** fromLuaTable: the first of positions 1..length() that names a constant, else an error. */
  function ConstantFromTable(info: ClassInfo, t: Value): (r: Result<HostValue>)
    requires t.Table?
  {
    match FirstConstant(info, PositionNames(t, Length(t)))
    case Some(name) => Ok(HEnumConstant(info.javaName, name))
    case None => Err(TwineErr("Enum constant not found"))
  }

  /** isValidValue exactly as the source writes it: the bound check admits ordinal == count. */
  function IsValidValueAsWritten(info: ClassInfo, rec: EnumRecord): (r: Result<bool>)
    ensures r.Err? <==> info.simpleName == rec.parent && rec.ordinal == |info.constants|
  {
    if info.simpleName != rec.parent then Ok(false)
    else if rec.ordinal < 0 || rec.ordinal > |info.constants| then Ok(false)
    else if rec.ordinal == |info.constants| then Err(Throwable(IndexOutOfBounds, None, None))
    else Ok(info.constants[rec.ordinal] == rec.name)
  }

  /** A record naming the enum with ordinal equal to the constant count makes isValidValue throw. */
  lemma OrdinalAtCountThrows(info: ClassInfo)
    ensures IsValidValueAsWritten(info, EnumRecord(info.simpleName, "", |info.constants|, "")).Err?
  {
  }

  /** isValidValue with the bound the code evidently intends: 0 <= ordinal < count. */
  predicate IsValidValue(info: ClassInfo, rec: EnumRecord)
  {
    info.simpleName == rec.parent && 0 <= rec.ordinal < |info.constants|
      && info.constants[rec.ordinal] == rec.name
  }

  /** Where the written check does not throw it agrees with the corrected one. */
  lemma AsWrittenAgreesBelowCount(info: ClassInfo, rec: EnumRecord)
    requires rec.ordinal != |info.constants|
    ensures IsValidValueAsWritten(info, rec) == Ok(IsValidValue(info, rec))
  {
  }

  /** A TwineEnum over an enum class (its table's raw entries are the only state). */
  class TwineEnum {
    const info: ClassInfo
    var raw: map<Key, Value>

    constructor Wrap(info: ClassInfo)
      requires info.isEnum
      ensures this.info == info && raw == map[]
    {
      this.info := info;
      raw := map[];
    }

    /** The init check: only an enum class can be wrapped. */
    static method Create(info: ClassInfo) returns (r: Result<TwineEnum>)
      ensures r.Ok? <==> info.isEnum
      ensures r.Err? ==> r.error == TwineErr("TwineEnum can only be used with enum classes")
      ensures r.Ok? ==> fresh(r.value) && r.value.info == info && r.value.raw == map[]
    {
      if !info.isEnum {
        return Err(TwineErr("TwineEnum can only be used with enum classes"));
      }
      var e := new TwineEnum.Wrap(info);
      return Ok(e);
    }

    /** toLuaTable: write one record per constant under the constant's name, return the table. */
    method ToLuaTable() returns (t: Value)
      modifies this
      ensures raw == ConstantEntries(old(raw), info, |info.constants|)
      ensures t == Table(raw, map[])
    {
      var i := 0;
      while i < |info.constants|
        invariant 0 <= i <= |info.constants|
        invariant raw == ConstantEntries(old(raw), info, i)
      {
        raw := raw[KStr(info.constants[i]) := RecordTable(RecordOf(info, i))];
        i := i + 1;
      }
      t := Table(raw, map[]);
    }

    /** fromLuaTable: scan positions 1..length(), return the first constant named there. */
    method FromLuaTable(t: Value) returns (r: Result<HostValue>)
      requires t.Table?
      ensures r == ConstantFromTable(info, t)
    {
      var n := Length(t);
      var names := PositionNames(t, n);
      var i := 0;
      while i < n
        invariant 0 <= i <= n == |names|
        invariant forall k :: 0 <= k < i ==> names[k] !in info.constants
      {
        var name := ToJString(Get(t, KInt(i + 1)));
        assert name == names[i];
        FirstConstantAt(info, names, i);
        var found := NamesConstant(name);
        if found {
          return Ok(HEnumConstant(info.javaName, name));
        }
        i := i + 1;
      }
      FirstConstantAt(info, names, i);
      return Err(TwineErr("Enum constant not found"));
    }

    /** The inner loop of fromLuaTable: whether some constant of the enum has this name. */
    method NamesConstant(name: string) returns (found: bool)
      ensures found <==> name in info.constants
    {
      var constants := info.constants;
      var j := 0;
      while j < |constants|
        invariant 0 <= j <= |constants|
        invariant forall k :: 0 <= k < j ==> constants[k] != name
      {
        if constants[j] == name {
          return true;
        }
        j := j + 1;
      }
      return false;
    }

    /** getValue: the record of the constant at an ordinal, or "Invalid ordinal". */
    function GetValue(ordinal: int): (r: Result<EnumRecord>)
      ensures r.Ok? <==> 0 <= ordinal < |info.constants|
      ensures r.Ok? ==> r.value == RecordOf(info, ordinal)
      ensures r.Err? ==> r.error == TwineErr("Invalid ordinal")
    {
      if 0 <= ordinal < |info.constants| then Ok(RecordOf(info, ordinal))
      else Err(TwineErr("Invalid ordinal"))
    }

    /** toJava: the constant at the record's ordinal, or "Invalid enum value" for an invalid record. */
    function ToJava(rec: EnumRecord): (r: Result<HostValue>)
      ensures r.Ok? <==> IsValidValue(info, rec)
      ensures r.Ok? ==> r.value == HEnumConstant(info.javaName, rec.name)
      ensures r.Err? ==> r.error == TwineErr("Invalid enum value: " + rec.name + " in " + rec.parent)
    {
      if !IsValidValue(info, rec) then Err(TwineErr("Invalid enum value: " + rec.name + " in " + rec.parent))
      else Ok(HEnumConstant(info.javaName, info.constants[rec.ordinal]))
    }
  }

  /**
   * A record made by getValue converts back with toJava exactly when the class's JVM name
   * (what the record carries) equals its simple name (what isValidValue compares with).
   */
  lemma GetValueThenToJava(e: TwineEnum, ordinal: int)
    requires 0 <= ordinal < |e.info.constants|
    ensures e.GetValue(ordinal).Ok?
    ensures e.ToJava(e.GetValue(ordinal).value).Ok? <==> e.info.javaName == e.info.simpleName
  {
  }

  /** After toLuaTable every constant's name maps to its own record (names distinct). */
  lemma ToLuaTableEntries(base: map<Key, Value>, info: ClassInfo, i: nat)
    requires DistinctConstants(info) && i < |info.constants|
    ensures var m := ConstantEntries(base, info, |info.constants|);
      KStr(info.constants[i]) in m && m[KStr(info.constants[i])] == RecordTable(RecordOf(info, i))
  {
    ConstantEntryIsRecord(base, info, |info.constants|, i);
  }

  /** A record read back from its table and validated names the constant it was made from. */
  lemma RecordRoundTrip(e: TwineEnum, ordinal: nat)
    requires ordinal < |e.info.constants|
    requires e.info.javaName == e.info.simpleName
    ensures e.ToJava(RecordOf(e.info, ordinal)) == Ok(HEnumConstant(e.info.javaName, e.info.constants[ordinal]))
  {
  }

  /** The SampleEnum { FIRST, SECOND, THIRD } cases: a table {"SECOND"} gives SECOND, {"INVALID_CONSTANT"} fails. */
  lemma FromLuaTableExamples(info: ClassInfo)
    requires info.constants == ["FIRST", "SECOND", "THIRD"]
    ensures ConstantFromTable(info, Table(map[KInt(1) := Str("SECOND")], map[])) == Ok(HEnumConstant(info.javaName, "SECOND"))
    ensures ConstantFromTable(info, Table(map[KInt(1) := Str("INVALID_CONSTANT")], map[])) == Err(TwineErr("Enum constant not found"))
  {
    var t := Table(map[KInt(1) := Str("SECOND")], map[]);
    assert Border(t.raw, 1) == 1;
    assert Length(t) == 1;
    assert PositionNames(t, 1) == ["SECOND"];
    var u := Table(map[KInt(1) := Str("INVALID_CONSTANT")], map[]);
    assert Border(u.raw, 1) == 1;
    assert Length(u) == 1;
    assert PositionNames(u, 1) == ["INVALID_CONSTANT"];
  }
}
