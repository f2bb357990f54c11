/**
 * TwineTable: a LuaTable wrapped so that Kotlin can attach properties to it.
 *
 * A table's metatable is the only place its behaviour lives. The bridge installs two kinds
 * of hook there: TwineTable.set chains a getter hook onto __index and a setter hook onto
 * __newindex, each remembering the hook it replaced; the property registrars install hooks
 * that answer from a name-to-property map. A read or a write of a key resolves, through the
 * chain, to an action: a value, a call of a host callback, or a Lua error.
 *
 * Also here: TwineLuaValue.valueOf, which setSimple uses to convert the value it stores.
 */
module Tables {
  import opened Base
  import opened Lua
  import Enums

  // ---------------------------------------------------------------------
  // Hooks

  /**
   * TableSetOptions: the getter and the setter are host callbacks, named by an id; the
   * validator is a predicate on the Lua value written.
   */
  datatype SetOptions = SetOptions(getter: Option<nat>, setter: Option<nat>, validator: Option<Value -> bool>)

  /** An __index hook (a TwoArgFunction). */
  datatype IndexHook =
    | GetterIndex(name: string, getter: nat, prev: Option<IndexHook>)   // TwineTable.set with a getter
    | PropertyIndex(props: map<string, KProperty>, legacy: bool)         // a property registrar

  /** A __newindex hook (a ThreeArgFunction). */
  datatype NewIndexHook =
    | SetterNewIndex(name: string, setter: Option<nat>, validator: Option<Value -> bool>, prev: Option<NewIndexHook>)
    | PropertyNewIndex(props: map<string, KProperty>, legacy: bool)

  datatype Metatable = Metatable(index: Option<IndexHook>, newindex: Option<NewIndexHook>)

  function IndexOf(meta: Option<Metatable>): Option<IndexHook>
  {
    if meta.Some? then meta.value.index else None
  }

  function NewIndexOf(meta: Option<Metatable>): Option<NewIndexHook>
  {
    if meta.Some? then meta.value.newindex else None
  }

  /** What reading a key comes to. */
  datatype ReadAction =
    | ReadsValue(value: Value)                        // a raw entry, or nil
    | CallsGetter(getter: nat)                        // the getter of a set() registration runs
    | ReadsProperty(prop: KProperty, legacy: bool)    // a registered property's getter runs
    | ReadFails(error: Throwable)

  /** What writing a key comes to. */
  datatype WriteAction =
    | WritesRaw                                       // rawset
    | CallsSetter(setter: nat, value: Value)          // the setter of a set() registration runs
    | WritesProperty(prop: KProperty, value: Value, legacy: bool)
    | Dropped                                         // the hook returns without effect
    | WriteFails(error: Throwable)

  function NoPropertyError(k: Key): (e: Throwable)
    ensures e.kind == LuaError
  {
    LuaErr("No property '" + KeyText(k) + "'")
  }

  function InvalidInputMessage(name: string, v: Value): string
  {
    "Invalid input for '" + name + "', got " + TypeName(v) + " (value: " + ToJString(v) + ")"
  }

  /** An __index hook called with key k. */
  function ReadIndex(hook: Option<IndexHook>, k: Key): (a: ReadAction)
    ensures a.ReadsValue? ==> a.value == Nil
    ensures a.ReadFails? ==> a.error == NoPropertyError(k)
    ensures hook.Some? && hook.value.PropertyIndex? ==>
      (a.ReadsProperty? <==> KeyText(k) in hook.value.props) && (a.ReadsProperty? || a.ReadFails?)
    ensures hook.Some? && hook.value.GetterIndex? && KeyText(k) == hook.value.name ==> a == CallsGetter(hook.value.getter)
    decreases hook
  {
    match hook
    case None => ReadsValue(Nil)
    case Some(GetterIndex(name, getter, prev)) =>
      if KeyText(k) == name then CallsGetter(getter) else ReadIndex(prev, k)
    case Some(PropertyIndex(props, legacy)) =>
      if KeyText(k) in props then ReadsProperty(props[KeyText(k)], legacy) else ReadFails(NoPropertyError(k))
  }

  /** A write of the key a set() registration names: dropped without a setter, else validated and set. */
  function SetterAction(name: string, setter: Option<nat>, validator: Option<Value -> bool>, v: Value): (a: WriteAction)
    ensures a.Dropped? <==> setter.None?
    ensures a.CallsSetter? <==> setter.Some? && (validator.None? || validator.value(v))
    ensures a.CallsSetter? ==> a == CallsSetter(setter.value, v)
    ensures a.WriteFails? ==> a.error.kind == LuaError && a.error.message == Some(InvalidInputMessage(name, v))
  {
    if setter.None? then Dropped
    else if validator.Some? && !validator.value(v) then WriteFails(LuaErr(InvalidInputMessage(name, v)))
    else CallsSetter(setter.value, v)
  }

  /** A __newindex hook called with key k and value v. */
  function WriteNewIndex(hook: NewIndexHook, k: Key, v: Value): (a: WriteAction)
    ensures a.CallsSetter? ==> a.value == v
    ensures a.WritesProperty? ==> a.prop.mutable && a.value == v
    ensures a.WriteFails? ==> a.error.kind == LuaError
    ensures hook.PropertyNewIndex? ==>
      (a.WritesProperty? <==> KeyText(k) in hook.props && hook.props[KeyText(k)].mutable)
      && (a.WritesProperty? || a == WriteFails(NoPropertyError(k)))
  {
    match hook
    case SetterNewIndex(name, setter, validator, prev) =>
      if KeyText(k) == name then SetterAction(name, setter, validator, v)
      else if prev.Some? then WriteNewIndex(prev.value, k, v)
      else Dropped
    case PropertyNewIndex(props, legacy) =>
      if KeyText(k) in props && props[KeyText(k)].mutable then WritesProperty(props[KeyText(k)], v, legacy)
      else WriteFails(NoPropertyError(k))
  }

  /** LuaTable.get: a raw entry wins; otherwise the __index hook decides, and without one the value is nil. */
  function Read(raw: map<Key, Value>, meta: Option<Metatable>, k: Key): (a: ReadAction)
    ensures k in raw ==> a == ReadsValue(raw[k])
    ensures k !in raw && IndexOf(meta).None? ==> a == ReadsValue(Nil)
  {
    if k in raw then ReadsValue(raw[k]) else ReadIndex(IndexOf(meta), k)
  }

  /** LuaTable.set: a present key or a table without __newindex is written raw; otherwise the hook decides. */
  function Write(raw: map<Key, Value>, meta: Option<Metatable>, k: Key, v: Value): (a: WriteAction)
    ensures a.WritesRaw? <==> k in raw || NewIndexOf(meta).None?
  {
    if k in raw || NewIndexOf(meta).None? then WritesRaw
    else
      var action := WriteNewIndex(NewIndexOf(meta).value, k, v);
      assert !action.WritesRaw? by { WriteNewIndexNeverRaw(NewIndexOf(meta).value, k, v); }
      action
  }

  /** A hook never stores the value in the table itself. */
  lemma {:induction false} WriteNewIndexNeverRaw(hook: NewIndexHook, k: Key, v: Value)
    ensures !WriteNewIndex(hook, k, v).WritesRaw?
  {
    if hook.SetterNewIndex? && KeyText(k) != hook.name && hook.prev.Some? {
      WriteNewIndexNeverRaw(hook.prev.value, k, v);
    }
  }

  /** The metatable TwineTable.set leaves: a getter hook in front of __index, a setter hook replacing __newindex. */
  function Installed(meta: Option<Metatable>, name: string, options: SetOptions): Metatable
  {
    Metatable(
      if options.getter.Some? then Some(GetterIndex(name, options.getter.value, IndexOf(meta))) else IndexOf(meta),
      Some(SetterNewIndex(name, options.setter, options.validator, NewIndexOf(meta))))
  }

  /** The raw map after LuaTable.set(k, v): changed only when the write is raw. */
  function Stored(raw: map<Key, Value>, meta: Option<Metatable>, k: Key, v: Value): (r: map<Key, Value>)
    ensures NewIndexOf(meta).None? ==> r == RawSet(raw, k, v)
  {
    if Write(raw, meta, k, v).WritesRaw? then RawSet(raw, k, v) else raw
  }

  /** A run of LuaTable.set calls, in order. */
  function StoredAll(raw: map<Key, Value>, meta: Option<Metatable>, entries: seq<(Key, Value)>): map<Key, Value>
    decreases |entries|
  {
    if entries == [] then raw
    else
      var last := entries[|entries| - 1];
      Stored(StoredAll(raw, meta, entries[..|entries| - 1]), meta, last.0, last.1)
  }

  /**
   * Without a __newindex hook a run of sets is a run of raw writes: a key holds the value of
   * its last write (nil removing it); keys never written keep their entry.
   */
  lemma {:induction false} StoredAllWithoutHook(raw: map<Key, Value>, meta: Option<Metatable>, entries: seq<(Key, Value)>, k: Key)
    requires NewIndexOf(meta).None?
    ensures (forall i :: 0 <= i < |entries| ==> entries[i].0 != k) ==>
      (k in StoredAll(raw, meta, entries) <==> k in raw)
      && (k in raw ==> StoredAll(raw, meta, entries)[k] == raw[k])
    ensures forall i :: (0 <= i < |entries| && entries[i].0 == k && !entries[i].1.Nil?
      && (forall j :: i < j < |entries| ==> entries[j].0 != k)) ==>
      (k in StoredAll(raw, meta, entries) && StoredAll(raw, meta, entries)[k] == entries[i].1)
    decreases |entries|
  {
    if entries != [] {
      var prefix := entries[..|entries| - 1];
      StoredAllWithoutHook(raw, meta, prefix, k);
      assert forall i :: 0 <= i < |prefix| ==> prefix[i] == entries[i];
    }
  }

  /** Without a __newindex hook, a key every write of which stores the same non-nil value ends up holding it. */
  lemma {:induction false} StoredAllSameValue(raw: map<Key, Value>, meta: Option<Metatable>, entries: seq<(Key, Value)>, k: Key, v: Value)
    requires NewIndexOf(meta).None? && !v.Nil?
    requires exists i :: 0 <= i < |entries| && entries[i].0 == k
    requires forall i :: 0 <= i < |entries| && entries[i].0 == k ==> entries[i].1 == v
    ensures k in StoredAll(raw, meta, entries) && StoredAll(raw, meta, entries)[k] == v
    decreases |entries|
  {
    var prefix := entries[..|entries| - 1];
    if entries[|entries| - 1].0 != k {
      assert forall i :: 0 <= i < |prefix| ==> prefix[i] == entries[i];
      var i :| 0 <= i < |entries| && entries[i].0 == k;
      assert prefix[i].0 == k;
      StoredAllSameValue(raw, meta, prefix, k, v);
    }
  }

  // ---------------------------------------------------------------------
  // Registrations through TwineTable.set

  datatype Registration = Registration(name: string, options: SetOptions)

  /** The metatable after registering regs in order, starting from base. */
  function Registered(base: Option<Metatable>, regs: seq<Registration>): (m: Option<Metatable>)
    ensures regs != [] ==> m.Some? && NewIndexOf(m).Some?
    decreases |regs|
  {
    if regs == [] then base
    else
      var last := regs[|regs| - 1];
      Some(Installed(Registered(base, regs[..|regs| - 1]), last.name, last.options))
  }

  /** The getter of the last registration of `name` that had one. */
  function LastGetter(regs: seq<Registration>, name: string): (g: Option<nat>)
    ensures g.Some? ==> exists i :: 0 <= i < |regs| && regs[i].name == name && regs[i].options.getter == g
    decreases |regs|
  {
    if regs == [] then None
    else
      var last := regs[|regs| - 1];
      if last.name == name && last.options.getter.Some? then last.options.getter
      else
        var g := LastGetter(regs[..|regs| - 1], name);
        assert forall i :: 0 <= i < |regs| - 1 ==> regs[..|regs| - 1][i] == regs[i];
        g
  }

  /** The options of the last registration of `name`. */
  function LastRegistration(regs: seq<Registration>, name: string): (o: Option<SetOptions>)
    ensures o.Some? ==> exists i :: 0 <= i < |regs| && regs[i].name == name && regs[i].options == o.value
    ensures o.None? ==> forall i :: 0 <= i < |regs| ==> regs[i].name != name
    decreases |regs|
  {
    if regs == [] then None
    else
      var last := regs[|regs| - 1];
      if last.name == name then Some(last.options)
      else
        var o := LastRegistration(regs[..|regs| - 1], name);
        assert forall i :: 0 <= i < |regs| - 1 ==> regs[..|regs| - 1][i] == regs[i];
        o
  }

  /**
   * Reading a key the table does not hold: the last registration of that name with a getter
   * answers; a key no getter was registered for falls through to the hooks that were there
   * before (nil when there were none).
   */
  lemma {:induction false} ReadAfterRegistrations(base: Option<Metatable>, regs: seq<Registration>, k: Key)
    ensures ReadIndex(IndexOf(Registered(base, regs)), k) ==
      match LastGetter(regs, KeyText(k))
      case Some(g) => CallsGetter(g)
      case None => ReadIndex(IndexOf(base), k)
    decreases |regs|
  {
    if regs != [] {
      ReadAfterRegistrations(base, regs[..|regs| - 1], k);
    }
  }

  /**
   * Writing a key the table does not hold, after at least one registration: the last
   * registration of that name decides (a later one without a setter drops the write even if an
   * earlier one had a setter); a key never registered goes to the hook that was there before,
   * and is dropped when there was none.
   */
  lemma {:induction false} WriteAfterRegistrations(base: Option<Metatable>, regs: seq<Registration>, k: Key, v: Value)
    requires regs != []
    ensures WriteNewIndex(NewIndexOf(Registered(base, regs)).value, k, v) ==
      match LastRegistration(regs, KeyText(k))
      case Some(o) => SetterAction(KeyText(k), o.setter, o.validator, v)
      case None => if NewIndexOf(base).Some? then WriteNewIndex(NewIndexOf(base).value, k, v) else Dropped
    decreases |regs|
  {
    var last := regs[|regs| - 1];
    var prefix := regs[..|regs| - 1];
    var m := Registered(base, prefix);
    assert NewIndexOf(Registered(base, regs)).value
      == SetterNewIndex(last.name, last.options.setter, last.options.validator, NewIndexOf(m));
    if KeyText(k) != last.name {
      assert LastRegistration(regs, KeyText(k)) == LastRegistration(prefix, KeyText(k));
      if prefix != [] {
        WriteAfterRegistrations(base, prefix, k, v);
      } else {
        assert m == base;
      }
    }
  }

  /**
   * Once anything is registered, a write of a key the table does not hold never lands in the
   * table: it reaches a setter or a property, fails, or is dropped.
   */
  lemma NoRawWriteAfterRegistration(raw: map<Key, Value>, base: Option<Metatable>, regs: seq<Registration>, k: Key, v: Value)
    requires regs != [] && k !in raw
    ensures !Write(raw, Registered(base, regs), k, v).WritesRaw?
    ensures Stored(raw, Registered(base, regs), k, v) == raw
  {
  }

  // ---------------------------------------------------------------------
  // TwineLuaValue.valueOf

  /**
   * A TwineLuaValue object: a plain wrapper of a Lua value, or a TwineTable, whose own wrapped
   * value is the default TRUE while its table holds the entries. valueOf returns a TwineTable
   * for an ArrayList, and fromJSON returns one for an object. Used as a Lua value itself, a
   * Wrapper(v) is Twine(v).
   */
  datatype TwineLua = Wrapper(wrapped: Value) | TableObject(table: Value)

  /** The `luaValue` of what valueOf returned. */
  function LuaValueOf(w: TwineLua): (v: Value)
    ensures w.TableObject? ==> v == Bool(true)
  {
    match w
    case Wrapper(v) => v
    case TableObject(_) => Bool(true)
  }

  /** The Kotlin object valueOf returned, passed back to setSimple as a value. */
  function AsHost(w: TwineLua): HostValue
  {
    match w
    case Wrapper(v) => HTwineLuaValue(v)
    case TableObject(t) => if t.Table? then HTable(TwineTableClassName, t.raw, t.hooked) else HTwineLuaValue(t)
  }

  /** The key an ArrayList item is stored under: its 1-based position as a string. */
  function ItemKey(i: nat): Key
  {
    KStr(NatText(i + 1))
  }

  /** valueOf as a function of the Kotlin value. */
  function Wrapping(h: HostValue): (r: Result<TwineLua>)
    ensures r.Ok? && !h.HList? ==> r.value.Wrapper?
    ensures r.Ok? && h.HList? ==> r.value.TableObject? && r.value.table.Table?
    decreases h, 1
  {
    match h
    case HString(s) => Ok(Wrapper(Str(s)))
    case HBool(b) => Ok(Wrapper(Bool(b)))
    case HInt(i) => Ok(Wrapper(Num(LInt(i))))
    case HDouble(d) => Ok(Wrapper(Num(LDouble(d))))
    case HTable(_, raw, hooked) => Ok(Wrapper(Table(raw, hooked)))
    case HEnumRecord(rec) => Ok(Wrapper(Enums.RecordTable(rec)))
    case HLua(v) => Ok(Wrapper(v))
    case HTwineLuaValue(v) => Ok(Wrapper(Twine(v)))
    case HInvoked(v) => Ok(Wrapper(v))
    case HList(es) =>
      var raw :- ListEntries(h, |es|);
      Ok(TableObject(Table(raw, map[])))
    case _ => Err(TwineErr("Unsupported Lua type: " + SimpleName(h)))
  }

  /** The entries of the first n items, each stored through setSimple under its position. */
  function ListEntries(h: HostValue, n: nat): (r: Result<map<Key, Value>>)
    requires h.HList? && n <= |h.elems|
    decreases h, 0, n
  {
    if n == 0 then Ok(map[])
    else
      var raw :- ListEntries(h, n - 1);
      var w :- Wrapping(h.elems[n - 1]);
      Ok(RawSet(raw, ItemKey(n - 1), ItemValue(w)))
  }

  /** The Lua value an item ends up as in its list's table: its wrapper, or a nested list's table. */
  function ItemValue(w: TwineLua): Value
  {
    if w.Wrapper? then Twine(w.wrapped) else w.table
  }

  /**
   * setSimple of what valueOf returned for an item stores ItemValue: valueOf of a wrapper wraps
   * that wrapper, so the wrapper itself is stored (never nil, whatever it wraps), and valueOf of
   * a nested list's TwineTable is that table.
   */
  lemma RewrapStoresItem(w: TwineLua)
    requires w.TableObject? ==> w.table.Table?
    ensures Wrapping(AsHost(w)).Ok?
    ensures LuaValueOf(Wrapping(AsHost(w)).value) == ItemValue(w)
    ensures w.Wrapper? ==> ItemValue(w) == Twine(w.wrapped)
    ensures w.TableObject? ==> ItemValue(w) == w.table
    ensures !ItemValue(w).Nil?
  {
  }

  /** Storing the next item through setSimple of its rewrapped value extends the entries by that item. */
  lemma ListEntriesStep(h: HostValue, i: nat, w: TwineLua)
    requires h.HList? && i < |h.elems| && ListEntries(h, i).Ok?
    requires Wrapping(h.elems[i]) == Ok(w)
    ensures Wrapping(AsHost(w)).Ok?
    ensures ListEntries(h, i + 1)
      == Ok(Stored(ListEntries(h, i).value, None, KStr(NatText(i + 1)), LuaValueOf(Wrapping(AsHost(w)).value)))
  {
    RewrapStoresItem(w);
    ListEntriesNext(h, i);
  }

  /** The entries of one more item: the previous entries with the item's value set under its key. */
  lemma ListEntriesNext(h: HostValue, i: nat)
    requires h.HList? && i < |h.elems| && ListEntries(h, i).Ok? && Wrapping(h.elems[i]).Ok?
    ensures ListEntries(h, i + 1)
      == Ok(RawSet(ListEntries(h, i).value, ItemKey(i), ItemValue(Wrapping(h.elems[i]).value)))
  {
  }

  /** Once an item fails, every longer prefix fails with the same error. */
  lemma {:induction false} ListEntriesErrorPersists(h: HostValue, n: nat, m: nat)
    requires h.HList? && n <= m <= |h.elems|
    requires ListEntries(h, n).Err?
    ensures ListEntries(h, m) == ListEntries(h, n)
    decreases m
  {
    if m > n {
      ListEntriesErrorPersists(h, n, m - 1);
    }
  }

  /**
   * An ArrayList whose items all convert gives a table holding item i under the string key
   * "i+1" (never an integer key), and nothing else. Every key is present: a nested list's item
   * holds that list's table, any other item holds the TwineLuaValue wrapping what valueOf made
   * of it, even when that is nil.
   */
  lemma ListEntriesByPosition(h: HostValue, n: nat)
    requires h.HList? && n <= |h.elems|
    requires forall i :: 0 <= i < n ==> Wrapping(h.elems[i]).Ok?
    ensures ListEntries(h, n).Ok?
    ensures forall k :: k in ListEntries(h, n).value ==> exists i :: 0 <= i < n && k == ItemKey(i)
    ensures forall i :: 0 <= i < n ==>
      ItemKey(i) in ListEntries(h, n).value && ListEntries(h, n).value[ItemKey(i)] == ItemValue(Wrapping(h.elems[i]).value)
    ensures forall i :: 0 <= i < n && !h.elems[i].HList? ==>
      ListEntries(h, n).value[ItemKey(i)] == Twine(LuaValueOf(Wrapping(h.elems[i]).value))
  {
    ListEntriesKeys(h, n);
    forall i | 0 <= i < n
      ensures ItemKey(i) in ListEntries(h, n).value && ListEntries(h, n).value[ItemKey(i)] == ItemValue(Wrapping(h.elems[i]).value)
    {
      ListEntriesItem(h, n, i);
    }
  }

  /** Two probes: a string item is stored as its wrapper, and so is a nil item, whose key is present. */
  lemma ListItemsAreWrapped()
    ensures ListEntries(HList([HString("a")]), 1) == Ok(map[KStr("1") := Twine(Str("a"))])
    ensures ListEntries(HList([HLua(Nil)]), 1) == Ok(map[KStr("1") := Twine(Nil)])
  {
    assert NatText(1) == "1";
  }

  /**
   * A TwineEnumValue is a TwineNative, hence a TwineTable: valueOf wraps the record's own table,
   * and an ArrayList holding it stores that wrapper under "1".
   */
  lemma EnumValueWrapsItsTable(rec: EnumRecord)
    ensures Wrapping(HEnumRecord(rec)) == Ok(Wrapper(Enums.RecordTable(rec)))
    ensures Get(LuaValueOf(Wrapping(HEnumRecord(rec)).value), KStr("enumName")) == Str(rec.name)
    ensures ListEntries(HList([HEnumRecord(rec)]), 1) == Ok(map[KStr("1") := Twine(Enums.RecordTable(rec))])
  {
    assert NatText(1) == "1";
    Enums.RecordTableAnswers(rec);
  }

  /** Every key of the entries is the key of one of the items. */
  lemma {:induction false} ListEntriesKeys(h: HostValue, n: nat)
    requires h.HList? && n <= |h.elems|
    requires forall i :: 0 <= i < n ==> Wrapping(h.elems[i]).Ok?
    ensures ListEntries(h, n).Ok?
    ensures forall k :: k in ListEntries(h, n).value ==> exists i :: 0 <= i < n && k == ItemKey(i)
    decreases n
  {
    if n > 0 {
      ListEntriesKeys(h, n - 1);
      ListEntriesNext(h, n - 1);
      var prev := ListEntries(h, n - 1).value;
      forall k | k in ListEntries(h, n).value
        ensures exists i :: 0 <= i < n && k == ItemKey(i)
      {
        if k != ItemKey(n - 1) {
          assert k in prev;
        }
      }
    }
  }

  /** Item i, once stored, is found under its key, whatever follows it. */
  lemma {:induction false} ListEntriesItem(h: HostValue, n: nat, i: nat)
    requires h.HList? && i < n <= |h.elems|
    requires forall j :: 0 <= j < n ==> Wrapping(h.elems[j]).Ok?
    ensures ListEntries(h, n).Ok?
    ensures ItemKey(i) in ListEntries(h, n).value && ListEntries(h, n).value[ItemKey(i)] == ItemValue(Wrapping(h.elems[i]).value)
    decreases n
  {
    ListEntriesKeys(h, n);
    ListEntriesKeys(h, n - 1);
    var prev := ListEntries(h, n - 1).value;
    var w := Wrapping(h.elems[n - 1]).value;
    ListEntriesNext(h, n - 1);
    if i < n - 1 {
      ListEntriesItem(h, n - 1, i);
      NatTextInjective(i + 1, n);
      assert ItemKey(i) != ItemKey(n - 1);
    }
  }

  /** Anything valueOf has no rule for, null included, fails by its class's simple name. */
  lemma UnsupportedValues(h: HostValue)
    requires h.HNull? || h.HLong? || h.HFloat? || h.HSet? || h.HArray? || h.HPrimArray?
    ensures Wrapping(h) == Err(TwineErr("Unsupported Lua type: " + SimpleName(h)))
    ensures h.HNull? ==> Wrapping(h) == Err(TwineErr("Unsupported Lua type: null"))
  {
    assert "Unsupported Lua type: " + "null" == "Unsupported Lua type: null";
  }

  /** An upper bound on the nesting of ArrayLists, the measure of valueOf's recursion. */
  function Depth(h: HostValue): (d: nat)
    ensures h.HList? ==> d >= 1
    decreases h, 1
  {
    if h.HList? then 1 + DepthAll(h, |h.elems|) else 0
  }

  function DepthAll(h: HostValue, n: nat): (d: nat)
    requires h.HList? && n <= |h.elems|
    ensures forall i :: 0 <= i < n ==> Depth(h.elems[i]) <= d
    decreases h, 0, n
  {
    if n == 0 then 0
    else
      var d := DepthAll(h, n - 1);
      var e := Depth(h.elems[n - 1]);
      if d < e then e else d
  }

  /** valueOf: a list's items are converted one by one and stored into a fresh TwineTable by setSimple. */
  method ValueOf(h: HostValue) returns (r: Result<TwineLua>)
    ensures r == Wrapping(h)
    decreases Depth(h), 1
  {
    if h.HList? {
      var raw := ListValueOf(h);
      if raw.Err? {
        return Err(raw.error);
      }
      r := Ok(TableObject(Table(raw.value, map[])));
    } else {
      r := Wrapping(h);
    }
  }

  /** The loop over an ArrayList's items: what the fresh TwineTable holds once every item is stored. */
  method ListValueOf(h: HostValue) returns (r: Result<map<Key, Value>>)
    requires h.HList?
    ensures r == ListEntries(h, |h.elems|)
    decreases Depth(h), 0
  {
    var es := h.elems;
    var table := new TwineTable();
    var i := 0;
    while i < |es|
      invariant 0 <= i <= |es|
      invariant table.meta == None
      invariant ListEntries(h, i) == Ok(table.raw)
    {
      assert Depth(es[i]) < Depth(h);
      var w := ValueOf(es[i]);
      if w.Err? {
        ListEntriesErrorPersists(h, i + 1, |es|);
        return Err(w.error);
      }
      var stored := table.SetSimple(StringKey(NatText(i + 1)), AsHost(w.value));
      ListEntriesStep(h, i, w.value);
      i := i + 1;
    }
    r := Ok(table.raw);
  }

  // ---------------------------------------------------------------------
  // TwineTable

  /** The keys setSimple accepts: Int, String and LuaValue keys (string and integer ones). */
  datatype KeyArg = IntKey(i: int) | StringKey(s: string) | LuaKey(k: Key) | OtherKey(simpleName: string)

  function KeyOf(key: KeyArg): (r: Result<Key>)
    ensures r.Err? <==> key.OtherKey?
  {
    match key
    case IntKey(i) => Ok(KInt(i))
    case StringKey(s) => Ok(KStr(s))
    case LuaKey(k) => Ok(k)
    case OtherKey(name) => Err(TwineErr("Unsupported key type: " + name))
  }

  /** setSimple as a function of the table's state: the key is checked first, then the value converted, then set. */
  function SimpleWrite(raw: map<Key, Value>, meta: Option<Metatable>, key: KeyArg, value: HostValue): (r: Result<WriteAction>)
    ensures key.OtherKey? ==> r == Err(TwineErr("Unsupported key type: " + key.simpleName))
    ensures !key.OtherKey? ==> (r.Ok? <==> Wrapping(value).Ok?)
    ensures r.Ok? ==> r.value == Write(raw, meta, KeyOf(key).value, LuaValueOf(Wrapping(value).value))
  {
    var k :- KeyOf(key);
    var w :- Wrapping(value);
    Ok(Write(raw, meta, k, LuaValueOf(w)))
  }

  class TwineTable {
    /** The raw entries of the wrapped LuaTable. */
    var raw: map<Key, Value>
    /** Its metatable. */
    var meta: Option<Metatable>

    constructor ()
      ensures raw == map[] && meta == None
    {
      raw := map[];
      meta := None;
    }

    /** LuaTable.get on the wrapped table. */
    function Lookup(k: Key): ReadAction
      reads this
    {
      Read(raw, meta, k)
    }

    /** LuaTable.setmetatable. */
    method SetMetatable(m: Metatable)
      modifies this
      ensures raw == old(raw) && meta == Some(m)
    {
      meta := Some(m);
    }

    /** TwineTable.set: registers a getter, setter and validator for one name. */
    method Set(name: string, options: SetOptions)
      modifies this
      ensures raw == old(raw)
      ensures meta == Some(Installed(old(meta), name, options))
    {
      var m := if meta.Some? then meta.value else Metatable(None, None);
      var index := m.index;
      var newIndex := m.newindex;
      if options.getter.Some? {
        m := m.(index := Some(GetterIndex(name, options.getter.value, index)));
      }
      m := m.(newindex := Some(SetterNewIndex(name, options.setter, options.validator, newIndex)));
      meta := Some(m);
    }

    /** LuaTable.set(k, v): what the write comes to, with the raw write done when it is raw. */
    method Put(k: Key, v: Value) returns (action: WriteAction)
      modifies this
      ensures action == Write(old(raw), old(meta), k, v)
      ensures raw == Stored(old(raw), old(meta), k, v) && meta == old(meta)
    {
      action := Write(raw, meta, k, v);
      if action.WritesRaw? {
        raw := RawSet(raw, k, v);
      }
    }

    /** setSimple: converts the key and the value (through valueOf), then sets. */
    method SetSimple(key: KeyArg, value: HostValue) returns (r: Result<WriteAction>)
      modifies this
      ensures r == SimpleWrite(old(raw), old(meta), key, value)
      ensures meta == old(meta)
      ensures r.Ok? ==> raw == Stored(old(raw), old(meta), KeyOf(key).value, LuaValueOf(Wrapping(value).value))
      ensures r.Err? ==> raw == old(raw)
      decreases Depth(value), 2
    {
      var k: Key;
      match key {
        case IntKey(i) => k := KInt(i);
        case StringKey(s) => k := KStr(s);
        case LuaKey(lk) => k := lk;
        case OtherKey(name) => return Err(TwineErr("Unsupported key type: " + name));
      }
      var w := ValueOf(value);
      if w.Err? {
        return Err(w.error);
      }
      var action := Put(k, LuaValueOf(w.value));
      r := Ok(action);
    }
  }

  /** setSimple of an ArrayList stores TRUE, the list's TwineTable's own wrapped value, not its table. */
  lemma SetSimpleOfListStoresTrue(raw: map<Key, Value>, key: KeyArg, h: HostValue)
    requires h.HList? && !key.OtherKey? && Wrapping(h).Ok?
    ensures SimpleWrite(raw, None, key, h) == Ok(WritesRaw)
    ensures Stored(raw, None, KeyOf(key).value, LuaValueOf(Wrapping(h).value)) == raw[KeyOf(key).value := Bool(true)]
  {
  }
}
