/**
 * Converter.toKotlinArgs: the Kotlin argument array for a call of a bridged function with
 * the Lua arguments `args` (args.narg() == |args|).
 */
module Arguments {
  import opened Base
  import opened Lua
  import Converter
  import ClassMapper

  /** The last parameter is a vararg. */
  predicate IsVararg(func: KFunction)
  {
    |func.params| > 0 && func.params[|func.params| - 1].isVararg
  }

  /** The parameters before the vararg, or all of them. */
  function FixedParamCount(func: KFunction): (n: nat)
    ensures IsVararg(func) ==> n == |func.params| - 1
    ensures !IsVararg(func) ==> n == |func.params|
  {
    if IsVararg(func) then |func.params| - 1 else |func.params|
  }

  /** Varargs.arg(i), 1-based: nil past the end. */
  function Arg(args: seq<Value>, i: nat): (v: Value)
    ensures 1 <= i <= |args| ==> v == args[i - 1]
    ensures i == 0 || i > |args| ==> v == Nil
  {
    if 1 <= i <= |args| then args[i - 1] else Nil
  }

  function NotEnoughMessage(func: KFunction, n: nat): string
  {
    "Not enough arguments for " + func.name + ". Expected " + NatText(FixedParamCount(func)) + ", got " + NatText(n)
  }

  function InvalidCountMessage(func: KFunction, n: nat): string
  {
    "Invalid number of arguments for " + func.name + ". Expected " + NatText(FixedParamCount(func)) + ", got " + NatText(n)
  }

  /** The typed array holding every argument, fixed ones included, for the inferred kind. */
  function VarargArray(kind: KType, args: seq<Value>): (r: Result<HostValue>)
    ensures r.Ok? <==> kind in {IntType, DoubleType, BooleanType, FloatType, LongType, StringType, LuaValueType}
    ensures r.Err? ==> r.error == TwineErr("Unsupported vararg type: " + Converter.TypeText(kind))
    ensures r.Ok? ==> (r.value.HArray? || r.value.HPrimArray?) && |r.value.elems| == |args|
  {
    var n := |args|;
    if kind == IntType then Ok(HArray(seq(n, i requires 0 <= i < n => HInt(ToInt(args[i])))))
    else if kind == DoubleType then Ok(HPrimArray(DoubleType, seq(n, i requires 0 <= i < n => HDouble(ToDouble(args[i])))))
    else if kind == BooleanType then Ok(HPrimArray(BooleanType, seq(n, i requires 0 <= i < n => HBool(ToBoolean(args[i])))))
    else if kind == FloatType then Ok(HPrimArray(FloatType, seq(n, i requires 0 <= i < n => HFloat(ToDouble(args[i])))))
    else if kind == LongType then Ok(HPrimArray(LongType, seq(n, i requires 0 <= i < n => HLong(ToLong(args[i])))))
    else if kind == StringType then Ok(HArray(seq(n, i requires 0 <= i < n => HString(ToJString(args[i])))))
    else if kind == LuaValueType then Ok(HArray(seq(n, i requires 0 <= i < n => HLua(args[i]))))
    else Err(TwineErr("Unsupported vararg type: " + Converter.TypeText(kind)))
  }

  /** The value for parameter i: a table through toClass, anything else by the declared type. */
  function ConvertOne(h: Host, func: KFunction, args: seq<Value>, i: nat): Result<HostValue>
    requires i < |func.params| <= |args|
  {
    if args[i].Table? then ClassMapper.Reconstruct(h, func, args[i])
    else Converter.ToKotlinValue(args[i], Some(func.params[i].ty))
  }

  /** mapIndexed over the parameters from `from` on; the first failure is thrown. */
  function ConvertEach(h: Host, func: KFunction, args: seq<Value>, from: nat): (r: Result<seq<HostValue>>)
    requires from <= |func.params| <= |args|
    ensures r.Ok? ==> |r.value| == |func.params| - from
    ensures r.Ok? ==> forall i :: 0 <= i < |r.value| ==> ConvertOne(h, func, args, from + i) == Ok(r.value[i])
    ensures r.Err? ==> exists i :: from <= i < |func.params| && ConvertOne(h, func, args, i) == Err(r.error)
    decreases |func.params| - from
  {
    if from == |func.params| then Ok([])
    else
      var first :- ConvertOne(h, func, args, from);
      var rest :- ConvertEach(h, func, args, from + 1);
      assert forall i :: 1 <= i < |rest| + 1 ==> ([first] + rest)[i] == rest[i - 1];
      Ok([first] + rest)
  }

  /** toKotlinArgs. */
  function ToKotlinArgs(h: Host, func: KFunction, args: seq<Value>): (r: Result<seq<HostValue>>)
    ensures |args| < FixedParamCount(func) ==> r == Err(TwineErr(NotEnoughMessage(func, |args|)))
    ensures r.Ok? && IsVararg(func) ==> |r.value| == 1
    ensures r.Ok? && !IsVararg(func) ==> (|args| == |r.value| == |func.params|
      && forall i :: 0 <= i < |func.params| ==> ConvertOne(h, func, args, i) == Ok(r.value[i]))
    ensures r.Err? && !IsVararg(func) && |args| == |func.params| ==>
      exists i :: 0 <= i < |func.params| && ConvertOne(h, func, args, i) == Err(r.error)
  {
    var fixed := FixedParamCount(func);
    if |args| < fixed then Err(TwineErr(NotEnoughMessage(func, |args|)))
    else if !IsVararg(func) && |args| != fixed then Err(TwineErr(InvalidCountMessage(func, |args|)))
    else if IsVararg(func) then
      var kind :- Converter.ToKotlinType(h.u, Arg(args, 1));
      var typed :- VarargArray(kind, args);
      Ok([typed])
    else ConvertEach(h, func, args, 0)
  }

  /** Too few arguments for the fixed parameters fail first, for any function. */
  lemma NotEnoughArguments(h: Host, func: KFunction, args: seq<Value>)
    requires |args| < FixedParamCount(func)
    ensures ToKotlinArgs(h, func, args) == Err(TwineErr(NotEnoughMessage(func, |args|)))
  {
  }

  /** A function without a vararg takes exactly its parameter count. */
  lemma ExactCountWithoutVararg(h: Host, func: KFunction, args: seq<Value>)
    requires !IsVararg(func) && |args| > |func.params|
    ensures ToKotlinArgs(h, func, args) == Err(TwineErr(InvalidCountMessage(func, |args|)))
  {
  }

  /**
   * A vararg call yields a single typed array of all the arguments (fixed ones included),
   * whose kind is the type inferred for the first argument.
   */
  lemma VarargShape(h: Host, func: KFunction, args: seq<Value>)
    requires IsVararg(func) && |args| >= FixedParamCount(func)
    ensures var r := ToKotlinArgs(h, func, args);
      r.Ok? <==> (Converter.ToKotlinType(h.u, Arg(args, 1)).Ok?
        && VarargArray(Converter.ToKotlinType(h.u, Arg(args, 1)).value, args).Ok?)
    ensures var r := ToKotlinArgs(h, func, args);
      r.Ok? ==> (|r.value| == 1 && r.value[0] == VarargArray(Converter.ToKotlinType(h.u, Arg(args, 1)).value, args).value
        && |r.value[0].elems| == |args|)
  {
  }

  /** A vararg call with enough arguments builds one array, of the kind the first argument infers. */
  lemma VarargCall(h: Host, func: KFunction, args: seq<Value>)
    requires IsVararg(func) && |args| >= FixedParamCount(func)
    ensures Converter.ToKotlinType(h.u, Arg(args, 1)).Err? ==>
      ToKotlinArgs(h, func, args) == Err(Converter.ToKotlinType(h.u, Arg(args, 1)).error)
    ensures Converter.ToKotlinType(h.u, Arg(args, 1)).Ok? ==>
      var typed := VarargArray(Converter.ToKotlinType(h.u, Arg(args, 1)).value, args);
      ToKotlinArgs(h, func, args) == if typed.Ok? then Ok([typed.value]) else Err(typed.error)
  {
  }

  /**
   * Unless the first argument is a table, a vararg call succeeds exactly for a boolean,
   * number or string first argument (arrays of Boolean, Double and String); a function or a
   * missing first argument has no rule.
   */
  lemma VarargKindOfScalars(h: Host, func: KFunction, args: seq<Value>)
    requires IsVararg(func) && |args| >= FixedParamCount(func) && !Arg(args, 1).Table?
    ensures ToKotlinArgs(h, func, args).Ok? <==> Arg(args, 1).Bool? || Arg(args, 1).Num? || Arg(args, 1).Str?
    ensures Arg(args, 1).Num? ==>
      ToKotlinArgs(h, func, args).value[0].HPrimArray? && ToKotlinArgs(h, func, args).value[0].kind == DoubleType
    ensures Arg(args, 1).Func? ==> ToKotlinArgs(h, func, args) == Err(TwineErr("Unsupported vararg type: kotlin.Function<*>"))
  {
    var first := Arg(args, 1);
    var kind := Converter.ToKotlinType(h.u, first);
    assert kind.Ok?;
    assert first.Bool? ==> kind.value == BooleanType;
    assert first.Str? ==> kind.value == StringType;
    assert first.Func? ==> kind.value == FunctionType;
    assert first.Nil? ==> kind.value == LuaNilType;
    assert first.Num? ==> kind.value == DoubleType;
    VarargCall(h, func, args);
    assert "Unsupported vararg type: " + Converter.TypeText(FunctionType) == "Unsupported vararg type: kotlin.Function<*>";
  }

  /** A vararg-only function called with no arguments fails: nil infers as LuaNil, which has no rule. */
  lemma VarargWithoutArguments(h: Host, func: KFunction)
    requires IsVararg(func) && |func.params| == 1
    ensures ToKotlinArgs(h, func, []) == Err(TwineErr("Unsupported vararg type: org.luaj.vm2.LuaNil"))
  {
    assert FixedParamCount(func) == 0;
    assert Converter.ToKotlinType(h.u, Arg([], 1)) == Ok(LuaNilType);
    assert LuaNilType != FunctionType;
    assert "Unsupported vararg type: " + Converter.TypeText(LuaNilType) == "Unsupported vararg type: org.luaj.vm2.LuaNil";
    assert VarargArray(LuaNilType, []) == Err(TwineErr("Unsupported vararg type: org.luaj.vm2.LuaNil"));
  }

  /**
   * A non-vararg call yields exactly one value per parameter: a table argument rebuilt by
   * toClass (whatever the declared type), any other argument converted to the declared type.
   */
  lemma OnePerParameter(h: Host, func: KFunction, args: seq<Value>, i: nat)
    requires !IsVararg(func) && ToKotlinArgs(h, func, args).Ok? && i < |func.params|
    ensures |args| == |func.params| && |ToKotlinArgs(h, func, args).value| == |func.params|
    ensures ConvertOne(h, func, args, i) == Ok(ToKotlinArgs(h, func, args).value[i])
  {
  }

  /** The conversion fails with the error of the first parameter that fails, once all before it convert. */
  lemma {:induction false} ConvertEachFirstError(h: Host, func: KFunction, args: seq<Value>, from: nat, i: nat)
    requires from <= i < |func.params| <= |args|
    requires forall k :: from <= k < i ==> ConvertOne(h, func, args, k).Ok?
    requires ConvertOne(h, func, args, i).Err?
    ensures ConvertEach(h, func, args, from) == Err(ConvertOne(h, func, args, i).error)
    decreases i - from
  {
    var first := ConvertOne(h, func, args, from);
    if from < i {
      ConvertEachFirstError(h, func, args, from + 1, i);
      assert first.Ok?;
      var rest := ConvertEach(h, func, args, from + 1);
      assert ConvertEach(h, func, args, from) == Err(rest.error);
    } else {
      assert first.Err?;
    }
  }

  /** A non-vararg call with the right count fails with the first parameter's error that fails. */
  lemma ToKotlinArgsFirstError(h: Host, func: KFunction, args: seq<Value>, i: nat)
    requires !IsVararg(func) && |args| == |func.params| && i < |func.params|
    requires forall k :: 0 <= k < i ==> ConvertOne(h, func, args, k).Ok?
    requires ConvertOne(h, func, args, i).Err?
    ensures ToKotlinArgs(h, func, args) == Err(ConvertOne(h, func, args, i).error)
  {
    ConvertEachFirstError(h, func, args, 0, i);
  }
}
