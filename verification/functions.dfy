/**
 * FunctionRegistrar: the annotated functions of the bridged object, exposed in its table.
 *
 * registerFunctions sets a direct wrapper for every annotated function under its exposed
 * name; registerOverloads then groups the functions by exposed name and sets a resolving
 * wrapper for every group, so the resolving wrapper is what each name finally holds. A
 * resolving wrapper picks the first function of its group that accepts the call's argument
 * count and the inferred types of all its arguments.
 */
module Functions {
  import opened Base
  import opened Lua
  import Errors
  import Converter
  import Arguments
  import opened Tables

  predicate Annotated(f: KFunction)
  {
    f.annotation.Some?
  }

  /** The name an annotated function is exposed under. */
  function Exposed(f: KFunction): string
    requires Annotated(f)
  {
    ExposedName(f.name, f.annotation.value)
  }

  // ---------------------------------------------------------------------
  // Grouping by exposed name

  /** functionMap: exposed names in first-registration order, each with its functions. */
  type Groups = seq<(string, seq<KFunction>)>

  /** Where a name's group is. */
  function GroupIndex(groups: Groups, name: string): (r: Option<nat>)
    ensures r.Some? ==> r.value < |groups| && groups[r.value].0 == name
    ensures r.None? ==> forall i :: 0 <= i < |groups| ==> groups[i].0 != name
    decreases |groups|
  {
    if groups == [] then None
    else if groups[|groups| - 1].0 == name then Some(|groups| - 1)
    else
      var r := GroupIndex(groups[..|groups| - 1], name);
      assert forall i :: 0 <= i < |groups| - 1 ==> groups[..|groups| - 1][i] == groups[i];
      r
  }

  /** functionMap.computeIfAbsent(name) { mutableListOf() }.add(f). */
  function AddToGroup(groups: Groups, name: string, f: KFunction): Groups
  {
    match GroupIndex(groups, name)
    case Some(j) => groups[j := (name, groups[j].1 + [f])]
    case None => groups + [(name, [f])]
  }

  /** The groups registerOverloads builds from the first n functions. */
  function GroupsOf(fs: seq<KFunction>): Groups
    decreases |fs|
  {
    if fs == [] then []
    else
      var f := fs[|fs| - 1];
      var groups := GroupsOf(fs[..|fs| - 1]);
      if Annotated(f) then AddToGroup(groups, Exposed(f), f) else groups
  }

  /** The annotated functions exposed under `name`, in declaration order. */
  function Filter(fs: seq<KFunction>, name: string): (r: seq<KFunction>)
    ensures forall g :: g in r ==> g in fs && Annotated(g) && Exposed(g) == name
    decreases |fs|
  {
    if fs == [] then []
    else
      var f := fs[|fs| - 1];
      var rest := Filter(fs[..|fs| - 1], name);
      if Annotated(f) && Exposed(f) == name then rest + [f] else rest
  }

  /** No two groups share a name. */
  predicate DistinctNames(groups: Groups)
  {
    forall i, j :: 0 <= i < j < |groups| ==> groups[i].0 != groups[j].0
  }

  /** The groups are exactly the annotated functions of fs, grouped by exposed name. */
  ghost predicate Characterizes(fs: seq<KFunction>, groups: Groups)
  {
    DistinctNames(groups)
    && (forall i :: 0 <= i < |groups| ==> groups[i].1 == Filter(fs, groups[i].0) && groups[i].1 != [])
    && (forall name :: Filter(fs, name) != [] ==> GroupIndex(groups, name).Some?)
  }

  /**
   * Grouping is exact: the names are distinct, each group holds precisely the annotated
   * functions of its name in declaration order (so it is never empty), and every annotated
   * function's name has a group.
   */
  lemma {:induction false} GroupsCharacterized(fs: seq<KFunction>)
    ensures DistinctNames(GroupsOf(fs))
    ensures forall i :: 0 <= i < |GroupsOf(fs)| ==>
      GroupsOf(fs)[i].1 == Filter(fs, GroupsOf(fs)[i].0) && GroupsOf(fs)[i].1 != []
    ensures forall name :: Filter(fs, name) != [] ==> GroupIndex(GroupsOf(fs), name).Some?
    decreases |fs|
  {
    if fs != [] {
      var prefix := fs[..|fs| - 1];
      var f := fs[|fs| - 1];
      GroupsCharacterized(prefix);
      if !Annotated(f) {
        assert forall name :: Filter(fs, name) == Filter(prefix, name);
      } else if GroupIndex(GroupsOf(prefix), Exposed(f)).Some? {
        assert fs == prefix + [f];
        JoinGroup(prefix, f);
      } else {
        assert fs == prefix + [f];
        NewGroup(prefix, f);
      }
    }
  }

  /** The last function joins the existing group of its name. */
  lemma JoinGroup(prefix: seq<KFunction>, f: KFunction)
    requires Annotated(f) && Characterizes(prefix, GroupsOf(prefix))
    requires GroupIndex(GroupsOf(prefix), Exposed(f)).Some?
    ensures Characterizes(prefix + [f], GroupsOf(prefix + [f]))
  {
    var fs := prefix + [f];
    assert fs[..|fs| - 1] == prefix;
    var before := GroupsOf(prefix);
    var name := Exposed(f);
    var j := GroupIndex(before, name).value;
    var after := GroupsOf(fs);
    assert after == before[j := (name, before[j].1 + [f])];
    forall i | 0 <= i < |after|
      ensures after[i].1 == Filter(fs, after[i].0)
    {
      if i != j {
        assert after[i] == before[i];
        assert before[i].0 != name;
      }
    }
    forall n | Filter(fs, n) != []
      ensures GroupIndex(after, n).Some?
    {
      if n != name {
        assert Filter(prefix, n) != [];
        var k := GroupIndex(before, n).value;
        assert after[k].0 == n;
      } else {
        assert after[j].0 == n;
      }
    }
  }

  /** The last function opens a new group at the end. */
  lemma NewGroup(prefix: seq<KFunction>, f: KFunction)
    requires Annotated(f) && Characterizes(prefix, GroupsOf(prefix))
    requires GroupIndex(GroupsOf(prefix), Exposed(f)).None?
    ensures Characterizes(prefix + [f], GroupsOf(prefix + [f]))
  {
    var fs := prefix + [f];
    assert fs[..|fs| - 1] == prefix;
    var before := GroupsOf(prefix);
    var name := Exposed(f);
    var after := GroupsOf(fs);
    assert after == before + [(name, [f])];
    forall i | 0 <= i < |after|
      ensures after[i].1 == Filter(fs, after[i].0)
    {
      if i < |before| {
        assert after[i] == before[i];
      } else {
        assert Filter(prefix, name) == [];
      }
    }
    forall n | Filter(fs, n) != []
      ensures GroupIndex(after, n).Some?
    {
      if n != name {
        assert Filter(prefix, n) != [];
        var k := GroupIndex(before, n).value;
        assert after[k] == before[k];
      } else {
        assert after[|after| - 1].0 == name;
      }
    }
  }

  /** The direct wrappers, in declaration order, as table writes. */
  function DirectEntries(fs: seq<KFunction>): seq<(Key, Value)>
    decreases |fs|
  {
    if fs == [] then []
    else
      var f := fs[|fs| - 1];
      var rest := DirectEntries(fs[..|fs| - 1]);
      if Annotated(f) then rest + [(KStr(Exposed(f)), Func(DirectWrapper(f)))] else rest
  }

  /** The resolving wrappers, one per group in group order, as table writes. */
  function OverloadEntries(groups: Groups): (es: seq<(Key, Value)>)
    ensures |es| == |groups|
    ensures forall i :: 0 <= i < |groups| ==> es[i] == (KStr(groups[i].0), Func(OverloadWrapper(groups[i].0, groups[i].1)))
  {
    seq(|groups|, i requires 0 <= i < |groups| => (KStr(groups[i].0), Func(OverloadWrapper(groups[i].0, groups[i].1))))
  }

  class FunctionRegistrar {
    const owner: TwineTable
    /** owner::class.functions, in reflection's order. */
    const functions: seq<KFunction>

    constructor (owner: TwineTable, functions: seq<KFunction>)
      ensures this.owner == owner && this.functions == functions
    {
      this.owner := owner;
      this.functions := functions;
    }

    /** register: the direct wrappers, then the resolving ones. */
    method Register()
      modifies owner
      ensures owner.meta == old(owner.meta)
      ensures owner.raw == StoredAll(StoredAll(old(owner.raw), old(owner.meta), DirectEntries(functions)),
        old(owner.meta), OverloadEntries(GroupsOf(functions)))
    {
      RegisterFunctions();
      RegisterOverloads();
    }

    /** registerFunctions: owner.table.set(exposed name, direct wrapper) for each annotated function. */
    method RegisterFunctions()
      modifies owner
      ensures owner.meta == old(owner.meta)
      ensures owner.raw == StoredAll(old(owner.raw), old(owner.meta), DirectEntries(functions))
    {
      var i := 0;
      while i < |functions|
        invariant 0 <= i <= |functions|
        invariant owner.meta == old(owner.meta)
        invariant owner.raw == StoredAll(old(owner.raw), old(owner.meta), DirectEntries(functions[..i]))
      {
        var f := functions[i];
        assert functions[..i + 1][..i] == functions[..i];
        if Annotated(f) {
          var name := f.annotation.value;
          if name == InheritTag {
            name := f.name;
          }
          var last := (KStr(name), Func(DirectWrapper(f)));
          var entries := DirectEntries(functions[..i]) + [last];
          assert entries[..|entries| - 1] == DirectEntries(functions[..i]);
          var _ := owner.Put(KStr(name), Func(DirectWrapper(f)));
        }
        i := i + 1;
      }
      assert functions[..|functions|] == functions;
    }

    /** registerOverloads: build functionMap, then set a resolving wrapper for each of its groups. */
    method RegisterOverloads()
      modifies owner
      ensures owner.meta == old(owner.meta)
      ensures owner.raw == StoredAll(old(owner.raw), old(owner.meta), OverloadEntries(GroupsOf(functions)))
    {
      var functionMap: Groups := [];
      var i := 0;
      while i < |functions|
        invariant 0 <= i <= |functions|
        invariant functionMap == GroupsOf(functions[..i])
      {
        var f := functions[i];
        assert functions[..i + 1][..i] == functions[..i];
        if Annotated(f) {
          var name := f.annotation.value;
          if name == InheritTag {
            name := f.name;
          }
          functionMap := AddToGroup(functionMap, name, f);
        }
        i := i + 1;
      }
      assert functions[..|functions|] == functions;
      GroupsCharacterized(functions);
      var entries := OverloadEntries(functionMap);
      var j := 0;
      while j < |functionMap|
        invariant 0 <= j <= |functionMap|
        invariant owner.meta == old(owner.meta)
        invariant owner.raw == StoredAll(old(owner.raw), old(owner.meta), entries[..j])
      {
        var (name, group) := functionMap[j];
        if group == [] {
          // the "No overloaded functions found" check: every group has a function
          assert false;
        }
        assert entries[..j + 1][..j] == entries[..j];
        var _ := owner.Put(KStr(name), Func(OverloadWrapper(name, group)));
        j := j + 1;
      }
      assert entries[..|entries|] == entries;
    }
  }

  /**
   * On a table without a __newindex hook, after register every exposed name holds the
   * resolving wrapper of exactly the functions exposed under it, singletons included.
   */
  lemma EveryNameResolves(raw: map<Key, Value>, meta: Option<Metatable>, fs: seq<KFunction>, f: KFunction)
    requires NewIndexOf(meta).None? && f in fs && Annotated(f)
    ensures var after := StoredAll(StoredAll(raw, meta, DirectEntries(fs)), meta, OverloadEntries(GroupsOf(fs)));
      KStr(Exposed(f)) in after && after[KStr(Exposed(f))] == Func(OverloadWrapper(Exposed(f), Filter(fs, Exposed(f))))
  {
    var name := Exposed(f);
    var groups := GroupsOf(fs);
    GroupsCharacterized(fs);
    FilterContains(fs, f);
    var i := GroupIndex(groups, name).value;
    var entries := OverloadEntries(groups);
    assert entries[i] == (KStr(name), Func(OverloadWrapper(name, Filter(fs, name))));
    StoredAllWithoutHook(StoredAll(raw, meta, DirectEntries(fs)), meta, entries, KStr(name));
  }

  /** An annotated function is in the filter of its own name. */
  lemma {:induction false} FilterContains(fs: seq<KFunction>, f: KFunction)
    requires f in fs && Annotated(f)
    ensures f in Filter(fs, Exposed(f))
    decreases |fs|
  {
    if fs[|fs| - 1] != f {
      FilterContains(fs[..|fs| - 1], f);
    }
  }

  // ---------------------------------------------------------------------
  // Overload resolution

  /** The count rule: not fewer than the fixed parameters, and exactly them without a vararg. */
  predicate CountFits(f: KFunction, n: nat)
  {
    n >= Arguments.FixedParamCount(f) && (Arguments.IsVararg(f) || n == Arguments.FixedParamCount(f))
  }

  /** Argument j has a parameter, an inferable type, and that type is assignable to the parameter's. */
  predicate Fits(h: Host, f: KFunction, args: seq<Value>, j: nat)
    requires j < |args|
  {
    j < |f.params|
      && Converter.ToKotlinType(h.u, args[j]).Ok?
      && IsSupertypeOf(h.u, f.params[j].ty, Converter.ToKotlinType(h.u, args[j]).value)
  }

  /**
   * The type check from argument i on: each argument's inferred type must be assignable to
   * params[i]; an argument past the parameter list indexes out of range, and an argument whose
   * type cannot be inferred throws.
   */
  function MatchFrom(h: Host, f: KFunction, args: seq<Value>, i: nat): (r: Result<bool>)
    requires i <= |args|
    ensures r == Ok(true) <==> forall j :: i <= j < |args| ==> Fits(h, f, args, j)
    decreases |args| - i
  {
    if i == |args| then Ok(true)
    else if i >= |f.params| then
      assert !Fits(h, f, args, i);
      Err(Throwable(IndexOutOfBounds, None, None))
    else
      match Converter.ToKotlinType(h.u, args[i])
      case Err(e) =>
        assert !Fits(h, f, args, i);
        Err(e)
      case Ok(argType) =>
        if !IsSupertypeOf(h.u, f.params[i].ty, argType) then
          assert !Fits(h, f, args, i);
          Ok(false)
        else
          var rest := MatchFrom(h, f, args, i + 1);
          assert Fits(h, f, args, i);
          rest
  }

  /** The predicate `find` applies to each candidate. */
  function Accepts(h: Host, f: KFunction, args: seq<Value>): (r: Result<bool>)
    ensures !CountFits(f, |args|) ==> r == Ok(false)
  {
    if !CountFits(f, |args|) then Ok(false) else MatchFrom(h, f, args, 0)
  }

  /** The first candidate from `from` on that accepts; a candidate that throws stops the search. */
  function FindMatch(h: Host, group: seq<KFunction>, args: seq<Value>, from: nat): (r: Result<Option<nat>>)
    requires from <= |group|
    ensures r.Ok? && r.value.Some? ==> (from <= r.value.value < |group|
      && Accepts(h, group[r.value.value], args) == Ok(true)
      && forall i :: from <= i < r.value.value ==> Accepts(h, group[i], args) == Ok(false))
    ensures r.Ok? && r.value.None? ==> forall i :: from <= i < |group| ==> Accepts(h, group[i], args) == Ok(false)
    decreases |group| - from
  {
    if from == |group| then Ok(None)
    else
      var accepted :- Accepts(h, group[from], args);
      if accepted then Ok(Some(from)) else FindMatch(h, group, args, from + 1)
  }

  /** The first function of the group whose only parameter is a vararg. */
  function SingleVararg(group: seq<KFunction>, from: nat): (r: Option<nat>)
    requires from <= |group|
    ensures r.Some? ==> from <= r.value < |group| && |group[r.value].params| == 1 && group[r.value].params[0].isVararg
    ensures r.None? ==> forall i :: from <= i < |group| ==> !(|group[i].params| == 1 && group[i].params[0].isVararg)
    decreases |group| - from
  {
    if from == |group| then None
    else if |group[from].params| == 1 && group[from].params[0].isVararg then Some(from)
    else SingleVararg(group, from + 1)
  }

  /** The first function's first parameter (receiver excluded) is a vararg. */
  predicate FirstParamIsVararg(group: seq<KFunction>)
  {
    |group| > 0 && |group[0].params| > 0 && group[0].params[0].isVararg
  }

  function NoMatchMessage(name: string, n: nat): string
  {
    "No matching function found for " + name + " with " + NatText(n) + " arguments"
  }

  /** Calling the chosen function: its exception is reported through throwError, its result converted. */
  function CallResult(h: Host, f: KFunction, kotlinArgs: seq<HostValue>): (r: Result<Value>)
    ensures h.call(f, kotlinArgs).Raised? ==>
      r == Err(Errors.ThrowError(InvocationError(h.call(f, kotlinArgs).cause), Some(f.name)))
    ensures h.call(f, kotlinArgs).Refused? ==> r == Err(h.call(f, kotlinArgs).error)
    ensures h.call(f, kotlinArgs).Returned? ==> r == Converter.LuaImage(h.u, h.call(f, kotlinArgs).value)
  {
    match h.call(f, kotlinArgs)
    case Raised(cause) => Err(Errors.ThrowError(InvocationError(cause), Some(f.name)))
    case Refused(e) => Err(e)
    case Returned(value) => Converter.LuaImage(h.u, value)
  }

  /** The vararg fallback catches every exception, a failing result conversion included. */
  function FallbackResult(h: Host, f: KFunction, kotlinArgs: seq<HostValue>): (r: Result<Value>)
    ensures r.Err? ==> r.error.kind == LuaError
    ensures h.call(f, kotlinArgs).Raised? ==>
      r == Err(Errors.ThrowError(InvocationError(h.call(f, kotlinArgs).cause), Some(f.name)))
    ensures h.call(f, kotlinArgs).Refused? ==> r == Err(Errors.ThrowError(h.call(f, kotlinArgs).error, Some(f.name)))
    ensures h.call(f, kotlinArgs).Returned? && Converter.LuaImage(h.u, h.call(f, kotlinArgs).value).Ok? ==>
      r == Converter.LuaImage(h.u, h.call(f, kotlinArgs).value)
    ensures h.call(f, kotlinArgs).Returned? && Converter.LuaImage(h.u, h.call(f, kotlinArgs).value).Err? ==>
      r == Err(Errors.ThrowError(Converter.LuaImage(h.u, h.call(f, kotlinArgs).value).error, Some(f.name)))
  {
    match h.call(f, kotlinArgs)
    case Raised(cause) => Err(Errors.ThrowError(InvocationError(cause), Some(f.name)))
    case Refused(e) => Err(Errors.ThrowError(e, Some(f.name)))
    case Returned(value) =>
      match Converter.LuaImage(h.u, value)
      case Ok(v) => Ok(v)
      case Err(e) => Err(Errors.ThrowError(e, Some(f.name)))
  }

  /** The resolving wrapper's invoke, as a function of the call. */
  function Overloaded(h: Host, name: string, group: seq<KFunction>, args: seq<Value>): (r: Result<Value>)
    ensures group == [] ==> r == Err(TwineErr(NoMatchMessage(name, |args|)))
    ensures FindMatch(h, group, args, 0) == Ok(None) && group != [] && !FirstParamIsVararg(group) ==> r == Ok(Nil)
  {
    match FindMatch(h, group, args, 0)
    case Err(e) => Err(e)
    case Ok(Some(j)) =>
      var kotlinArgs :- Arguments.ToKotlinArgs(h, group[j], args);
      CallResult(h, group[j], kotlinArgs)
    case Ok(None) =>
      if |group| == 0 then Err(TwineErr(NoMatchMessage(name, |args|)))
      else if FirstParamIsVararg(group) then
        match SingleVararg(group, 0)
        case None => Err(TwineErr("No vararg function found"))
        case Some(j) =>
          var kotlinArgs :- Arguments.ToKotlinArgs(h, group[j], args);
          FallbackResult(h, group[j], kotlinArgs)
      else Ok(Nil)
  }

  /** The direct wrapper's invoke: only an InvocationTargetException goes through throwError. */
  function Direct(h: Host, f: KFunction, args: seq<Value>): (r: Result<Value>)
    ensures Arguments.ToKotlinArgs(h, f, args).Err? && Arguments.ToKotlinArgs(h, f, args).error.kind != InvocationTarget
      ==> r == Err(Arguments.ToKotlinArgs(h, f, args).error)
    ensures Arguments.ToKotlinArgs(h, f, args).Ok? && h.call(f, Arguments.ToKotlinArgs(h, f, args).value).Refused?
      ==> r == Err(h.call(f, Arguments.ToKotlinArgs(h, f, args).value).error)
  {
    match Arguments.ToKotlinArgs(h, f, args)
    case Err(e) => Err(if e.kind == InvocationTarget then Errors.ThrowError(e, Some(f.name)) else e)
    case Ok(kotlinArgs) => CallResult(h, f, kotlinArgs)
  }

  /** find's predicate on one candidate. */
  method CandidateMatches(h: Host, f: KFunction, args: seq<Value>) returns (r: Result<bool>)
    ensures r == Accepts(h, f, args)
  {
    var params := f.params;
    var isVararg := |params| > 0 && params[|params| - 1].isVararg;
    var fixedParamCount := if isVararg then |params| - 1 else |params|;
    if |args| < fixedParamCount {
      return Ok(false);
    }
    if !isVararg && |args| != fixedParamCount {
      return Ok(false);
    }
    var i := 0;
    while i < |args|
      invariant 0 <= i <= |args|
      invariant Accepts(h, f, args) == MatchFrom(h, f, args, i)
    {
      if i >= |params| {
        return Err(Throwable(IndexOutOfBounds, None, None));
      }
      var paramType := params[i].ty;
      var argType := Converter.ToKotlinType(h.u, args[i]);
      if argType.Err? {
        return Err(argType.error);
      }
      if !IsSupertypeOf(h.u, paramType, argType.value) {
        return Ok(false);
      }
      i := i + 1;
    }
    return Ok(true);
  }

  /** The resolving wrapper's invoke. */
  method InvokeOverloaded(h: Host, name: string, group: seq<KFunction>, args: seq<Value>) returns (r: Result<Value>)
    ensures r == Overloaded(h, name, group, args)
  {
    var i := 0;
    var matching: Option<nat> := None;
    while i < |group|
      invariant 0 <= i <= |group|
      invariant FindMatch(h, group, args, 0) == FindMatch(h, group, args, i)
    {
      var accepted := CandidateMatches(h, group[i], args);
      if accepted.Err? {
        return Err(accepted.error);
      }
      if accepted.value {
        matching := Some(i);
        break;
      }
      i := i + 1;
    }
    assert FindMatch(h, group, args, 0) == Ok(matching);
    if matching.Some? {
      var f := group[matching.value];
      var kotlinArgs := Arguments.ToKotlinArgs(h, f, args);
      if kotlinArgs.Err? {
        return Err(kotlinArgs.error);
      }
      return CallResult(h, f, kotlinArgs.value);
    }
    if |group| == 0 {
      return Err(TwineErr(NoMatchMessage(name, |args|)));
    }
    if |group[0].params| > 0 && group[0].params[0].isVararg {
      var j := 0;
      while j < |group| && !(|group[j].params| == 1 && group[j].params[0].isVararg)
        invariant 0 <= j <= |group|
        invariant SingleVararg(group, 0) == SingleVararg(group, j)
      {
        j := j + 1;
      }
      if j == |group| {
        return Err(TwineErr("No vararg function found"));
      }
      var f := group[j];
      var varargArgs := Arguments.ToKotlinArgs(h, f, args);
      if varargArgs.Err? {
        return Err(varargArgs.error);
      }
      return FallbackResult(h, f, varargArgs.value);
    }
    return Ok(Nil);
  }

  // ---------------------------------------------------------------------
  // Properties of resolution

  /** The first candidate that accepts is called, whatever later candidates would do. */
  lemma FirstSurvivorWins(h: Host, name: string, group: seq<KFunction>, args: seq<Value>, j: nat)
    requires j < |group| && Accepts(h, group[j], args) == Ok(true)
    requires forall i :: 0 <= i < j ==> Accepts(h, group[i], args) == Ok(false)
    requires Arguments.ToKotlinArgs(h, group[j], args).Ok?
    ensures Overloaded(h, name, group, args) == CallResult(h, group[j], Arguments.ToKotlinArgs(h, group[j], args).value)
  {
    FindMatchAt(h, group, args, 0, j);
  }

  lemma {:induction false} FindMatchAt(h: Host, group: seq<KFunction>, args: seq<Value>, from: nat, j: nat)
    requires from <= j < |group| && Accepts(h, group[j], args) == Ok(true)
    requires forall i :: from <= i < j ==> Accepts(h, group[i], args) == Ok(false)
    ensures FindMatch(h, group, args, from) == Ok(Some(j))
    decreases j - from
  {
    if from < j {
      FindMatchAt(h, group, args, from + 1, j);
      assert Accepts(h, group[from], args) == Ok(false);
    }
  }

  /**
   * When no candidate accepts and the first function's first parameter is not a vararg, the
   * wrapper returns nil without an error; the "No matching function" error needs an empty group.
   */
  lemma NoSurvivorIsNil(h: Host, name: string, group: seq<KFunction>, args: seq<Value>)
    requires group != [] && !FirstParamIsVararg(group)
    requires forall i :: 0 <= i < |group| ==> Accepts(h, group[i], args) == Ok(false)
    ensures Overloaded(h, name, group, args) == Ok(Nil)
  {
    FindMatchNone(h, group, args, 0);
  }

  lemma {:induction false} FindMatchNone(h: Host, group: seq<KFunction>, args: seq<Value>, from: nat)
    requires from <= |group|
    requires forall i :: from <= i < |group| ==> Accepts(h, group[i], args) == Ok(false)
    ensures FindMatch(h, group, args, from) == Ok(None)
    decreases |group| - from
  {
    if from < |group| {
      FindMatchNone(h, group, args, from + 1);
    }
  }

  /**
   * A single function called with the wrong number of arguments: its own wrapper would report
   * the count, but the resolving wrapper that replaced it returns nil.
   */
  lemma SingletonWrongCountIsNil(h: Host, f: KFunction, args: seq<Value>)
    requires !Arguments.IsVararg(f) && |args| > |f.params|
    requires |f.params| == 0 || !f.params[0].isVararg
    ensures Direct(h, f, args) == Err(TwineErr(Arguments.InvalidCountMessage(f, |args|)))
    ensures Overloaded(h, f.name, [f], args) == Ok(Nil)
  {
    NoSurvivorIsNil(h, f.name, [f], args);
  }

  /**
   * Every number infers as Double, so a function of two Int parameters never accepts two
   * numbers, and a group of it alone answers nil.
   */
  lemma IntParametersRejectNumbers(h: Host, f: KFunction, a: Number, b: Number)
    requires |f.params| == 2 && f.params[0].ty == IntType && f.params[1].ty == IntType
    requires !f.params[1].isVararg && !f.params[0].isVararg
    requires !IsSupertypeOf(h.u, IntType, DoubleType)
    ensures Accepts(h, f, [Num(a), Num(b)]) == Ok(false)
    ensures Overloaded(h, "f", [f], [Num(a), Num(b)]) == Ok(Nil)
  {
    NoSurvivorIsNil(h, "f", [f], [Num(a), Num(b)]);
  }

  /**
   * A vararg candidate given more arguments than it has parameters, whose leading arguments all
   * fit, reads params[|params|] and throws IndexOutOfBounds out of the wrapper.
   */
  lemma VarargCandidateOutOfBounds(h: Host, f: KFunction, args: seq<Value>)
    requires Arguments.IsVararg(f) && |args| > |f.params|
    requires forall i :: 0 <= i < |f.params| ==> Fits(h, f, args, i)
    ensures Accepts(h, f, args) == Err(Throwable(IndexOutOfBounds, None, None))
  {
    OutOfBoundsFrom(h, f, args, 0);
  }

  lemma {:induction false} OutOfBoundsFrom(h: Host, f: KFunction, args: seq<Value>, i: nat)
    requires i <= |f.params| < |args|
    requires forall j :: i <= j < |f.params| ==> Fits(h, f, args, j)
    ensures MatchFrom(h, f, args, i) == Err(Throwable(IndexOutOfBounds, None, None))
    decreases |f.params| - i
  {
    if i < |f.params| {
      OutOfBoundsFrom(h, f, args, i + 1);
      assert Fits(h, f, args, i);
    }
  }

  /** A callee failing with a TwineError is reported as "Error calling <name>: <its message>". */
  lemma CalleeTwineErrorReported(h: Host, f: KFunction, kotlinArgs: seq<HostValue>, msg: string)
    requires h.call(f, kotlinArgs) == Raised(TwineErr(msg))
    ensures CallResult(h, f, kotlinArgs).error.message == Some("Error calling " + f.name + ": " + msg)
  {
    Errors.TwineCauseReported(InvocationError(TwineErr(msg)), f.name, msg);
  }

  /**
   * When no candidate accepts and the first function's first parameter is a vararg, the first
   * vararg-only function of the group is called with the converted arguments; without one the
   * wrapper fails with "No vararg function found", and a failing conversion fails it unchanged.
   */
  lemma VarargFallback(h: Host, name: string, group: seq<KFunction>, args: seq<Value>)
    requires FirstParamIsVararg(group)
    requires forall i :: 0 <= i < |group| ==> Accepts(h, group[i], args) == Ok(false)
    ensures SingleVararg(group, 0).None? ==> Overloaded(h, name, group, args) == Err(TwineErr("No vararg function found"))
    ensures SingleVararg(group, 0).Some? && Arguments.ToKotlinArgs(h, group[SingleVararg(group, 0).value], args).Err? ==>
      Overloaded(h, name, group, args) == Err(Arguments.ToKotlinArgs(h, group[SingleVararg(group, 0).value], args).error)
    ensures SingleVararg(group, 0).Some? && Arguments.ToKotlinArgs(h, group[SingleVararg(group, 0).value], args).Ok? ==>
      Overloaded(h, name, group, args)
        == FallbackResult(h, group[SingleVararg(group, 0).value], Arguments.ToKotlinArgs(h, group[SingleVararg(group, 0).value], args).value)
  {
    FindMatchNone(h, group, args, 0);
  }

  /**
   * The fallback differs from a matched call only where the result does not convert or reflection
   * refuses the arguments: the matched call lets that error through, the fallback reports it
   * through throwError.
   */
  lemma FallbackWrapsConversionError(h: Host, f: KFunction, kotlinArgs: seq<HostValue>)
    ensures (!(h.call(f, kotlinArgs).Returned? && Converter.LuaImage(h.u, h.call(f, kotlinArgs).value).Err?)
      && !h.call(f, kotlinArgs).Refused?) ==>
      FallbackResult(h, f, kotlinArgs) == CallResult(h, f, kotlinArgs)
    ensures h.call(f, kotlinArgs).Refused? ==>
      CallResult(h, f, kotlinArgs) == Err(h.call(f, kotlinArgs).error)
      && FallbackResult(h, f, kotlinArgs).error.message.value
        == Errors.ErrorPrefix(Some(f.name)) + " " + Errors.Detail(h.call(f, kotlinArgs).error)
    ensures h.call(f, kotlinArgs).Returned? && Converter.LuaImage(h.u, h.call(f, kotlinArgs).value).Err? ==>
      CallResult(h, f, kotlinArgs) == Err(Converter.LuaImage(h.u, h.call(f, kotlinArgs).value).error)
      && FallbackResult(h, f, kotlinArgs).error.message.value
        == Errors.ErrorPrefix(Some(f.name)) + " " + Errors.Detail(CallResult(h, f, kotlinArgs).error)
  {
  }

  /** A candidate whose check throws stops the resolution with that error, once all before it refused. */
  lemma CheckErrorStops(h: Host, name: string, group: seq<KFunction>, args: seq<Value>, j: nat)
    requires j < |group| && Accepts(h, group[j], args).Err?
    requires forall i :: 0 <= i < j ==> Accepts(h, group[i], args) == Ok(false)
    ensures Overloaded(h, name, group, args) == Err(Accepts(h, group[j], args).error)
  {
    FindMatchErrorAt(h, group, args, 0, j, Accepts(h, group[j], args).error);
  }

  lemma {:induction false} FindMatchErrorAt(h: Host, group: seq<KFunction>, args: seq<Value>, from: nat, j: nat, e: Throwable)
    requires from <= j < |group| && Accepts(h, group[j], args) == Err(e)
    requires forall i :: from <= i < j ==> Accepts(h, group[i], args) == Ok(false)
    ensures FindMatch(h, group, args, from) == Err(e)
    decreases j - from
  {
    if from < j {
      FindMatchErrorAt(h, group, args, from + 1, j, e);
      assert Accepts(h, group[from], args) == Ok(false);
    }
  }

  /** An error of the search is the check error of a candidate that every earlier one refused. */
  lemma {:induction false} FindMatchErrorSource(h: Host, group: seq<KFunction>, args: seq<Value>, from: nat)
    requires from <= |group| && FindMatch(h, group, args, from).Err?
    ensures exists i :: (from <= i < |group| && Accepts(h, group[i], args) == Err(FindMatch(h, group, args, from).error)
      && forall k :: from <= k < i ==> Accepts(h, group[k], args) == Ok(false))
    decreases |group| - from
  {
    FindMatchStep(h, group, args, from);
    var e := FindMatch(h, group, args, from).error;
    if Accepts(h, group[from], args).Err? {
      assert Accepts(h, group[from], args) == Err(e);
    } else {
      assert Accepts(h, group[from], args) == Ok(false);
      FindMatchErrorSource(h, group, args, from + 1);
      var i :| from + 1 <= i < |group| && Accepts(h, group[i], args) == Err(e)
        && (forall k :: from + 1 <= k < i ==> Accepts(h, group[k], args) == Ok(false));
      assert forall k :: from <= k < i ==> Accepts(h, group[k], args) == Ok(false);
    }
  }

  /** One step of the search: a throwing candidate stops it, a refusing one passes it on. */
  lemma FindMatchStep(h: Host, group: seq<KFunction>, args: seq<Value>, from: nat)
    requires from < |group|
    ensures Accepts(h, group[from], args).Err? ==> FindMatch(h, group, args, from) == Err(Accepts(h, group[from], args).error)
    ensures Accepts(h, group[from], args) == Ok(false) ==> FindMatch(h, group, args, from) == FindMatch(h, group, args, from + 1)
    ensures Accepts(h, group[from], args) == Ok(true) ==> FindMatch(h, group, args, from) == Ok(Some(from))
  {
  }
  // ---------------------------------------------------------------------
  // The resolving wrapper's receiver, as written

  /**
   * The resolving wrapper writes `call(this, ...)` inside its own VarArgFunction object, so the
   * receiver is the wrapper, not the owner. Reflection refuses a receiver that is not an instance
   * of the function's class with an IllegalArgumentException, before the callee runs; its
   * message is the JVM's, a parameter here.
   */
  function WrongReceiver(jvmMessage: Option<string>): (e: Throwable)
    ensures e.kind == IllegalArgument && e.cause == None && e.message == jvmMessage
  {
    Throwable(IllegalArgument, jvmMessage, None)
  }

  /**
   * The resolving wrapper's invoke as written: resolution and argument conversion as in
   * Overloaded, but no callee ever runs. A matched call lets the IllegalArgumentException
   * escape (only an InvocationTargetException is caught there); the vararg fallback catches it
   * and reports it through throwError.
   */
  function OverloadedAsWritten(h: Host, name: string, group: seq<KFunction>, args: seq<Value>, jvmMessage: Option<string>)
    : (r: Result<Value>)
    ensures r.Ok? ==> r.value == Nil
  {
    match FindMatch(h, group, args, 0)
    case Err(e) => Err(e)
    case Ok(Some(j)) =>
      var kotlinArgs :- Arguments.ToKotlinArgs(h, group[j], args);
      Err(WrongReceiver(jvmMessage))
    case Ok(None) =>
      if |group| == 0 then Err(TwineErr(NoMatchMessage(name, |args|)))
      else if FirstParamIsVararg(group) then
        match SingleVararg(group, 0)
        case None => Err(TwineErr("No vararg function found"))
        case Some(j) =>
          var kotlinArgs :- Arguments.ToKotlinArgs(h, group[j], args);
          Err(Errors.ThrowError(WrongReceiver(jvmMessage), Some(group[j].name)))
      else Ok(Nil)
  }

  /** Resolution and argument conversion succeed, so the wrapper goes on to call a callee. */
  predicate ReachesCallee(h: Host, group: seq<KFunction>, args: seq<Value>)
  {
    match FindMatch(h, group, args, 0)
    case Err(_) => false
    case Ok(Some(j)) => Arguments.ToKotlinArgs(h, group[j], args).Ok?
    case Ok(None) =>
      FirstParamIsVararg(group) && SingleVararg(group, 0).Some?
        && Arguments.ToKotlinArgs(h, group[SingleVararg(group, 0).value], args).Ok?
  }

  /**
   * As written, a call that reaches a callee fails whatever the callee would do: a matched
   * call with the IllegalArgumentException, the fallback with throwError's report of it. Where
   * no callee is reached, the as-written and the corrected wrapper agree.
   */
  lemma WrongReceiverRefusesEveryCall(h: Host, name: string, group: seq<KFunction>, args: seq<Value>,
                                      jvmMessage: Option<string>)
    ensures ReachesCallee(h, group, args) && FindMatch(h, group, args, 0).value.Some? ==>
      OverloadedAsWritten(h, name, group, args, jvmMessage) == Err(WrongReceiver(jvmMessage))
    ensures ReachesCallee(h, group, args) && FindMatch(h, group, args, 0).value.None? ==>
      OverloadedAsWritten(h, name, group, args, jvmMessage)
        == Err(Errors.ThrowError(WrongReceiver(jvmMessage), Some(group[SingleVararg(group, 0).value].name)))
    ensures !ReachesCallee(h, group, args) ==>
      OverloadedAsWritten(h, name, group, args, jvmMessage) == Overloaded(h, name, group, args)
  {
  }

  /** The vararg-only function of the test class, `fun testVarargStr(vararg args: String)`. */
  const TestVarargStr := KFunction("testVarargStr", Some(InheritTag), [KParam("args", KType("kotlin.Array"), true)])

  /**
   * `test.testVarargStr('Hello', 'World')`, whose callee joins its arguments: the corrected
   * wrapper answers "Hello, World"; as written it raises "Error calling testVarargStr: " followed
   * by the JVM's message for the wrong receiver.
   */
  lemma TestVarargStrAsWritten(h: Host, jvmMessage: Option<string>)
    requires !IsSupertypeOf(h.u, KType("kotlin.Array"), StringType)
    requires h.call(TestVarargStr, [HArray([HString("Hello"), HString("World")])]) == Returned(HString("Hello, World"))
    ensures Overloaded(h, "testVarargStr", [TestVarargStr], [Str("Hello"), Str("World")]) == Ok(Str("Hello, World"))
    ensures OverloadedAsWritten(h, "testVarargStr", [TestVarargStr], [Str("Hello"), Str("World")], jvmMessage).error.message
      == Some("Error calling testVarargStr: " + (if jvmMessage.Some? then jvmMessage.value else "Unexpected error"))
  {
    TestVarargStrResolves(h);
    var detail := if jvmMessage.Some? then jvmMessage.value else "Unexpected error";
    assert Errors.Detail(WrongReceiver(jvmMessage)) == detail;
    TestVarargStrMessage(detail);
  }

  /** Two strings do not fit the array parameter, so the fallback converts them into one String array. */
  lemma TestVarargStrResolves(h: Host)
    requires !IsSupertypeOf(h.u, KType("kotlin.Array"), StringType)
    ensures FindMatch(h, [TestVarargStr], [Str("Hello"), Str("World")], 0) == Ok(None)
    ensures Arguments.ToKotlinArgs(h, TestVarargStr, [Str("Hello"), Str("World")])
      == Ok([HArray([HString("Hello"), HString("World")])])
  {
    var args := [Str("Hello"), Str("World")];
    assert Accepts(h, TestVarargStr, args) == Ok(false);
    FindMatchNone(h, [TestVarargStr], args, 0);
    assert Converter.ToKotlinType(h.u, Arguments.Arg(args, 1)) == Ok(StringType);
    var strings := seq(2, i requires 0 <= i < 2 => HString(ToJString(args[i])));
    assert strings == [HString("Hello"), HString("World")];
  }

  lemma TestVarargStrMessage(detail: string)
    ensures Errors.ErrorPrefix(Some("testVarargStr")) + " " + detail == "Error calling testVarargStr: " + detail
  {
    Errors.PrefixText("testVarargStr", detail);
    assert "Error calling " + "testVarargStr" + ": " == "Error calling testVarargStr: ";
  }
}
