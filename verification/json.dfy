/**
 * TwineLuaValue's JSON bridge: fromJSON builds TwineTables from a parsed JSON element
 * (objects by member name, arrays by 0-based index), toJSON converts a wrapped Lua value back.
 */
module Json {
  import opened Base
  import opened Lua
  import opened Tables

  /** A parsed JSON element; an object's members are in their parsed order. */
  datatype Json =
    | JObject(members: seq<(string, Json)>)
    | JArray(elems: seq<Json>)
    | JString(s: string)
    | JBool(b: bool)
    | JNumber(d: real)
    | JNull

  // ---------------------------------------------------------------------
  // fromJSON

  /** The Lua value an object member ends up as; a null member stores nil, which removes the key. */
  function MemberValue(v: Json): (r: Value)
    ensures r.Nil? <==> v.JNull?
    ensures v.JObject? || v.JArray? ==> r.Table? && r.hooked == map[]
    decreases v, 2
  {
    match v
    case JObject(ms) => Table(ObjectEntries(v, |ms|), map[])
    case JArray(es) => Table(ArrayEntries(v, |es|), map[])
    case JString(s) => Str(s)
    case JBool(b) => Bool(b)
    case JNumber(d) => Num(LDouble(d))
    case JNull => Nil
  }

  /** The Lua value an array element ends up as: a null element is the string "Unknown". */
  function ElementValue(v: Json): (r: Value)
    ensures !r.Nil?
    ensures v.JNull? ==> r == Str("Unknown")
    ensures !v.JNull? ==> r == MemberValue(v)
    decreases v, 3
  {
    if v.JNull? then Str("Unknown") else MemberValue(v)
  }

  /** The table fromJSON has built after the first n members, each stored by setSimple under its name. */
  function ObjectEntries(j: Json, n: nat): map<Key, Value>
    requires j.JObject? && n <= |j.members|
    decreases j, 1, n
  {
    if n == 0 then map[]
    else RawSet(ObjectEntries(j, n - 1), KStr(j.members[n - 1].0), MemberValue(j.members[n - 1].1))
  }

  /** The table handleJsonArray has built after the first n elements, each under its 0-based index. */
  function ArrayEntries(j: Json, n: nat): (m: map<Key, Value>)
    requires j.JArray? && n <= |j.elems|
    ensures forall k :: k in m <==> k.KInt? && 0 <= k.i < n
    ensures forall v :: v in m.Values ==> !v.Nil?
    decreases j, 1, n
  {
    if n == 0 then map[]
    else ArrayEntries(j, n - 1)[KInt(n - 1) := ElementValue(j.elems[n - 1])]
  }

  /** What fromJSON's table holds: an object's members, and nothing for any other element. */
  function FromJsonEntries(j: Json): (m: map<Key, Value>)
    ensures !j.JObject? ==> m == map[]
    ensures forall k :: k in m ==> j.JObject? && exists i :: 0 <= i < |j.members| && k == KStr(j.members[i].0)
  {
    if j.JObject? then ObjectEntriesKeys(j, |j.members|); ObjectEntries(j, |j.members|) else map[]
  }

  /** The Kotlin value handleJsonPrimitive passes to setSimple. */
  function PrimitiveHost(p: Json): HostValue
  {
    match p
    case JString(s) => HString(s)
    case JBool(b) => HBool(b)
    case JNumber(d) => HDouble(d)
    case _ => HString("Unknown")
  }

  /** handleJsonPrimitive: a string, boolean or number member stored under its name. */
  method HandleJsonPrimitive(key: string, primitive: Json, table: TwineTable)
    requires primitive.JString? || primitive.JBool? || primitive.JNumber?
    requires table.meta == None
    modifies table
    ensures table.meta == None
    ensures table.raw == RawSet(old(table.raw), KStr(key), MemberValue(primitive))
  {
    var _ := table.SetSimple(StringKey(key), PrimitiveHost(primitive));
  }

  /** setSimple of a nested TwineTable stores its table under the key. */
  lemma TableStored(raw: map<Key, Value>, k: Key, nested: map<Key, Value>)
    ensures Wrapping(HTable(TwineTableClassName, nested, map[])) == Ok(Wrapper(Table(nested, map[])))
    ensures Stored(raw, None, k, Table(nested, map[])) == raw[k := Table(nested, map[])]
  {
  }

  /** setSimple of a value that wraps a non-nil Lua value, on a table without hooks, sets it under the key. */
  lemma WrapperStored(raw: map<Key, Value>, k: Key, h: HostValue, v: Value)
    requires Wrapping(h) == Ok(Wrapper(v)) && !v.Nil?
    ensures Stored(raw, None, k, LuaValueOf(Wrapping(h).value)) == raw[k := v]
  {
  }

  /** fromJSON: an object's members are set one by one into a fresh table; any other element gives an empty one. */
  method FromJson(j: Json) returns (table: TwineTable)
    ensures fresh(table) && table.meta == None
    ensures table.raw == FromJsonEntries(j)
    decreases j, 0
  {
    table := new TwineTable();
    if j.JObject? {
      var i := 0;
      while i < |j.members|
        invariant 0 <= i <= |j.members|
        invariant fresh(table) && table.meta == None
        invariant table.raw == ObjectEntries(j, i)
      {
        var (key, value) := j.members[i];
        assert value < j;
        SetMember(key, value, table);
        i := i + 1;
      }
    }
  }

  /** The `when` over a member's value: a nested object or array is built first, then stored under the name. */
  method SetMember(key: string, value: Json, table: TwineTable)
    requires table.meta == None
    modifies table
    ensures table.meta == None
    ensures table.raw == RawSet(old(table.raw), KStr(key), MemberValue(value))
    decreases value, 1
  {
    match value {
      case JObject(ms) =>
        var nestedTable := FromJson(value);
        TableStored(old(table.raw), KStr(key), nestedTable.raw);
        var _ := table.SetSimple(StringKey(key), HTable(TwineTableClassName, nestedTable.raw, map[]));
      case JArray(es) =>
        var luaArrayTable := HandleJsonArray(value);
        TableStored(old(table.raw), KStr(key), luaArrayTable.raw);
        var _ := table.SetSimple(StringKey(key), HTable(TwineTableClassName, luaArrayTable.raw, map[]));
      case JNull =>
        assert Wrapping(HLua(Nil)) == Ok(Wrapper(Nil));
        var _ := table.SetSimple(StringKey(key), HLua(Nil));
      case _ =>
        HandleJsonPrimitive(key, value, table);
    }
  }

  /** handleJsonArray: element i is set under the integer key i into a fresh table. */
  method HandleJsonArray(j: Json) returns (table: TwineTable)
    requires j.JArray?
    ensures fresh(table) && table.meta == None
    ensures table.raw == ArrayEntries(j, |j.elems|)
    decreases j, 0
  {
    table := new TwineTable();
    var i := 0;
    while i < |j.elems|
      invariant 0 <= i <= |j.elems|
      invariant fresh(table) && table.meta == None
      invariant table.raw == ArrayEntries(j, i)
    {
      var element := j.elems[i];
      assert element < j;
      SetElement(i, element, table);
      i := i + 1;
    }
  }

  /** The `when` over an array element: its Kotlin value, stored under the integer key i. */
  method SetElement(i: int, element: Json, table: TwineTable)
    requires table.meta == None
    modifies table
    ensures table.meta == None
    ensures table.raw == old(table.raw)[KInt(i) := ElementValue(element)]
    decreases element, 1
  {
    var luaValue: HostValue;
    match element {
      case JObject(_) =>
        var nested := FromJson(element);
        luaValue := HTable(TwineTableClassName, nested.raw, map[]);
      case JArray(_) =>
        var nested := HandleJsonArray(element);
        luaValue := HTable(TwineTableClassName, nested.raw, map[]);
      case JString(s) => luaValue := HString(s);
      case JBool(b) => luaValue := HBool(b);
      case JNumber(d) => luaValue := HDouble(d);
      case JNull => luaValue := HString("Unknown");
    }
    assert Wrapping(luaValue) == Ok(Wrapper(ElementValue(element)));
    WrapperStored(old(table.raw), KInt(i), luaValue, ElementValue(element));
    var _ := table.SetSimple(IntKey(i), luaValue);
  }

  /**
   * The object's table holds exactly its members' names: a member with no later member of the
   * same name is stored under that name, unless it is null, which leaves the name absent.
   */
  lemma ObjectEntriesByName(j: Json, n: nat)
    requires j.JObject? && n <= |j.members|
    ensures forall k :: k in ObjectEntries(j, n) ==> exists i :: 0 <= i < n && k == KStr(j.members[i].0)
    ensures forall i :: (0 <= i < n && forall l :: i < l < n ==> j.members[l].0 != j.members[i].0) ==>
      var k := KStr(j.members[i].0);
      (j.members[i].1.JNull? ==> k !in ObjectEntries(j, n))
      && (!j.members[i].1.JNull? ==> k in ObjectEntries(j, n) && ObjectEntries(j, n)[k] == MemberValue(j.members[i].1))
  {
    ObjectEntriesKeys(j, n);
    forall i | 0 <= i < n && forall l :: i < l < n ==> j.members[l].0 != j.members[i].0
      ensures var k := KStr(j.members[i].0);
        (j.members[i].1.JNull? ==> k !in ObjectEntries(j, n))
        && (!j.members[i].1.JNull? ==> k in ObjectEntries(j, n) && ObjectEntries(j, n)[k] == MemberValue(j.members[i].1))
    {
      ObjectEntriesMember(j, n, i);
    }
  }

  /** Every key of the object's table is the name of one of its members. */
  lemma {:induction false} ObjectEntriesKeys(j: Json, n: nat)
    requires j.JObject? && n <= |j.members|
    ensures forall k :: k in ObjectEntries(j, n) ==> exists i :: 0 <= i < n && k == KStr(j.members[i].0)
    decreases n
  {
    if n > 0 {
      ObjectEntriesKeys(j, n - 1);
    }
  }

  /** A member no later member renames is what its name holds (nothing, when it is null). */
  lemma {:induction false} ObjectEntriesMember(j: Json, n: nat, i: nat)
    requires j.JObject? && i < n <= |j.members|
    requires forall l :: i < l < n ==> j.members[l].0 != j.members[i].0
    ensures var k := KStr(j.members[i].0);
      (j.members[i].1.JNull? ==> k !in ObjectEntries(j, n))
      && (!j.members[i].1.JNull? ==> k in ObjectEntries(j, n) && ObjectEntries(j, n)[k] == MemberValue(j.members[i].1))
    decreases n
  {
    if i < n - 1 {
      ObjectEntriesMember(j, n - 1, i);
      assert KStr(j.members[n - 1].0) != KStr(j.members[i].0);
    }
  }

  /** An array's table holds element i under the integer key i, for i < n, and nothing else. */
  lemma {:induction false} ArrayEntriesByIndex(j: Json, n: nat)
    requires j.JArray? && n <= |j.elems|
    ensures forall k :: k in ArrayEntries(j, n) <==> k.KInt? && 0 <= k.i < n
    ensures forall i :: 0 <= i < n ==> ArrayEntries(j, n)[KInt(i)] == ElementValue(j.elems[i])
    decreases n
  {
    if n > 0 {
      ArrayEntriesByIndex(j, n - 1);
    }
  }

  /**
   * Because an array starts at index 0, Lua's length operator on its table counts one element
   * fewer than the array holds: it sees keys 1 .. n-1.
   */
  lemma ArrayLengthMissesFirst(j: Json)
    requires j.JArray? && |j.elems| >= 1
    ensures Length(Table(ArrayEntries(j, |j.elems|), map[])) == |j.elems| - 1
    ensures KInt(0) in ArrayEntries(j, |j.elems|)
  {
    var n := |j.elems|;
    var m := ArrayEntries(j, n);
    ArrayEntriesByIndex(j, n);
    assert |m| == n by {
      assert m.Keys == set i | 0 <= i < n :: KInt(i);
      IntKeysCount(n);
    }
    BorderOfRange(m, n, 0);
  }

  /** There are n keys 0 .. n-1. */
  lemma {:induction false} IntKeysCount(n: nat)
    ensures |set i | 0 <= i < n :: KInt(i)| == n
    decreases n
  {
    if n > 0 {
      IntKeysCount(n - 1);
      var s := set i | 0 <= i < n - 1 :: KInt(i);
      assert (set i | 0 <= i < n :: KInt(i)) == s + {KInt(n - 1)};
    }
  }

  /** The border of a table of n integer keys 0 .. n-1, searched from i, is n - 1. */
  lemma {:induction false} BorderOfRange(m: map<Key, Value>, n: nat, i: nat)
    requires 1 <= n && |m| == n && i <= n - 1
    requires forall k :: k in m <==> k.KInt? && 0 <= k.i < n
    ensures Border(m, i) == n - 1
    decreases n - i
  {
    if i < n - 1 {
      assert KInt(i + 1) in m;
      BorderOfRange(m, n, i + 1);
    } else {
      assert KInt(n) !in m;
    }
  }

  // ---------------------------------------------------------------------
  // toJSON

  /**
   * toJSON as written: a table's branch converts the same receiver again for every key, so it
   * ends (with {}) only for a table without keys; a non-empty one recurses until the stack overflows.
   * Strings, integers and booleans convert; nil, doubles, functions and TwineLuaValues give JSON null.
   */
  function ToJson(v: Value): (r: Result<Json>)
    ensures v.Table? ==> (r.Ok? <==> v.raw == map[])
    ensures v.Table? && v.raw != map[] ==> r == Err(Throwable(StackOverflow, None, None))
    ensures !v.Table? ==> r.Ok?
  {
    match v
    case Table(raw, _) => if raw == map[] then Ok(JObject([])) else Err(Throwable(StackOverflow, None, None))
    case Str(s) => Ok(JString(s))
    case Num(LInt(i)) => Ok(JNumber(i as real))
    case Bool(b) => Ok(JBool(b))
    case _ => Ok(JNull)
  }

  /**
   * The table fromJSON returns is a TwineTable, whose own wrapped value is TRUE: toJSON on it is
   * `true`, and toJSON on the object's table overflows as soon as the object has a member.
   */
  lemma JsonRoundTripAsWritten()
    ensures ToJson(LuaValueOf(TableObject(Table(FromJsonEntries(JObject([("a", JString("x"))])), map[])))) == Ok(JBool(true))
    ensures ToJson(Table(FromJsonEntries(JObject([("a", JString("x"))])), map[])) == Err(Throwable(StackOverflow, None, None))
  {
    var j := JObject([("a", JString("x"))]);
    assert ObjectEntries(j, 1) == RawSet(map[], KStr("a"), Str("x"));
    assert KStr("a") in FromJsonEntries(j);
  }

  /**
   * toJSON as intended: each key's own value is converted. keysOf is LuaJ's iteration order of
   * a table's keys, which the bridge does not control.
   */
  function ToJsonFixed(keysOf: map<Key, Value> -> seq<Key>, v: Value): (r: Json)
    ensures v.Table? ==> r.JObject?
    decreases v, 1
  {
    match v
    case Table(raw, _) => JObject(MembersOf(keysOf, v, keysOf(raw)))
    case Str(s) => JString(s)
    case Num(LInt(i)) => JNumber(i as real)
    case Bool(b) => JBool(b)
    case _ => JNull
  }

  /** One member per key of ks that the table holds, named by the key's text. */
  function MembersOf(keysOf: map<Key, Value> -> seq<Key>, t: Value, ks: seq<Key>): (ms: seq<(string, Json)>)
    requires t.Table?
    decreases t, 0, |ks|
  {
    if ks == [] then []
    else
      var rest := MembersOf(keysOf, t, ks[1..]);
      if ks[0] in t.raw then [(KeyText(ks[0]), ToJsonFixed(keysOf, t.raw[ks[0]]))] + rest else rest
  }

  lemma {:induction false} MembersOfContains(keysOf: map<Key, Value> -> seq<Key>, t: Value, ks: seq<Key>)
    requires t.Table?
    ensures forall m :: m in MembersOf(keysOf, t, ks) <==>
      exists k :: k in ks && k in t.raw && m == (KeyText(k), ToJsonFixed(keysOf, t.raw[k]))
    decreases |ks|
  {
    if ks != [] {
      MembersOfContains(keysOf, t, ks[1..]);
      forall k | k in ks
        ensures k == ks[0] || k in ks[1..]
      {
      }
    }
  }

  /** The members whose values toJSON gives back unchanged. */
  predicate FlatMember(v: Json)
  {
    v.JString? || v.JBool?
  }

  /**
   * With toJSON fixed, an object of distinct names holding strings and booleans comes back as the
   * same set of members, whatever order LuaJ enumerates the keys in.
   */
  lemma FixedRoundTrip(keysOf: map<Key, Value> -> seq<Key>, j: Json)
    requires j.JObject?
    requires forall a, b :: 0 <= a < b < |j.members| ==> j.members[a].0 != j.members[b].0
    requires forall i :: 0 <= i < |j.members| ==> FlatMember(j.members[i].1)
    requires forall k :: k in keysOf(FromJsonEntries(j)) <==> k in FromJsonEntries(j)
    ensures var r := ToJsonFixed(keysOf, Table(FromJsonEntries(j), map[]));
      forall m :: m in r.members <==> m in j.members
  {
    var raw := FromJsonEntries(j);
    var t := Table(raw, map[]);
    ObjectEntriesKeys(j, |j.members|);
    MembersOfContains(keysOf, t, keysOf(raw));
    var r := ToJsonFixed(keysOf, t);
    assert r.members == MembersOf(keysOf, t, keysOf(raw));
    forall m
      ensures m in r.members <==> m in j.members
    {
      if m in r.members {
        var k :| k in keysOf(raw) && k in raw && m == (KeyText(k), ToJsonFixed(keysOf, raw[k]));
        var i :| 0 <= i < |j.members| && k == KStr(j.members[i].0);
        FlatMemberStored(keysOf, j, i);
      }
      if m in j.members {
        var i :| 0 <= i < |j.members| && j.members[i] == m;
        FlatMemberStored(keysOf, j, i);
      }
    }
  }

  /** In an object of distinct names, a flat member is stored under its name and converts back to itself. */
  lemma FlatMemberStored(keysOf: map<Key, Value> -> seq<Key>, j: Json, i: nat)
    requires j.JObject? && i < |j.members|
    requires forall a, b :: 0 <= a < b < |j.members| ==> j.members[a].0 != j.members[b].0
    requires FlatMember(j.members[i].1)
    ensures var k := KStr(j.members[i].0);
      k in FromJsonEntries(j) && (KeyText(k), ToJsonFixed(keysOf, FromJsonEntries(j)[k])) == j.members[i]
  {
    ObjectEntriesMember(j, |j.members|, i);
  }
}
