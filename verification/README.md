# twine's Lua ↔ Kotlin bridge, modelled in Dafny

twine (dev.znci.twine) exposes Kotlin objects to LuaJ scripts. A `TwineNative` object has two parts:

- its functions annotated `@TwineNativeFunction` become Lua functions in the object's table;
- its properties annotated `@TwineNativeProperty` become keys answered by the table's metatable.

Values cross the bridge both ways. Lua arguments are converted to Kotlin arguments for the declared parameter types. Kotlin results are converted back into Lua values. A Lua table can be rebuilt into a Kotlin object, either by its `__javaClass` tag or by matching its keys against constructor parameter names. Enums travel as tables of records. JSON trees become tables.

This project models the decision logic of that bridge. Kotlin reflection is given as descriptors:

- a type is a classifier name (`Lua.KType`);
- a function is its declared name, its annotation and its parameter list (`Lua.KFunction`);
- a class is its names, its enum constants and its primary constructor (`Lua.ClassInfo`);
- `Lua.Universe` holds the classes `Class.forName` can find and the subtype relation.

The reflective calls are parameters of a `Lua.Host`:

- calling a function;
- calling a primary constructor;
- calling a property getter or setter.

A Lua value (`Lua.Value`) is nil, a boolean, a number (integer or double), a string, a function, a table, or a TwineLuaValue object standing where LuaJ expects a Lua value (`Twine`). A TwineLuaValue reports the type name of the value it wraps, is true, and is neither nil, a string, a number, a table nor a function. A table is seen through two maps:

- `raw`: its own entries;
- `hooked`: the string keys its metatable's `__index` hook answers with a value, such as `__javaClass`. Any other missing key reads as nil.

The older dev.znci.twine.TwineNative extends TwineValueBase, which extends TwineLuaValue. Its unqualified `NIL` therefore resolves to `TwineLuaValue.NIL`, a TwineLuaValue wrapping nil, as it does in Converter's toLuaValue.

Modules follow the source files:

- `Base`: Option, Result, the JVM throwable kinds, decimal text, Long.toInt.
- `Lua`: the value and descriptor datatypes, and LuaJ's coercions.
- `Errors`: ErrorHandler.throwError.
- `Enums`: TwineEnum, as a class whose table is filled in place.
- `Converter`: toKotlinValue, toKotlinType, toLuaValue.
- `Arguments`: Converter.toKotlinArgs.
- `ClassMapper`: toClass.
- `Tables`: TwineTable.set and setSimple, hook chains, TwineLuaValue.valueOf.
- `Properties`: PropertyRegistrar.
- `Functions`: FunctionRegistrar, grouping and overload resolution.
- `Json`: fromJSON, handleJsonArray, handleJsonPrimitive, toJSON.
- `Legacy`: the older dev.znci.twine.TwineNative with its own conversion and resolution rules.

Where the source changes state, the model does too:

- `TwineTable`, `TwineEnum`, `FunctionRegistrar`, `PropertyRegistrar` and `LegacyNative` are classes whose methods reassign their `raw`/`meta` fields.
- The registration loops are `while` loops proved against fold functions (`Tables.StoredAll`).
- The structural scan in toClass, the overload search and the table-filling loops are `while` loops proved against the functions that specify them.

The properties of those functions are lemmas.

## Model

| member | source | states |
|---|---|---|
| Errors.ThrowError | src/main/kotlin/dev/znci/twine/nativex/ErrorHandler.kt:14-29 | The result is always a raised Lua error with no cause. Its message is the prefix "Error calling <name>:", a space, then the TwineError cause's message, or else the error's own message, or else "Unexpected error". |
| Errors.MessageStartsWithPrefix | src/main/kotlin/dev/znci/twine/nativex/ErrorHandler.kt:16 | Every message strictly extends "Error calling <name>:". |
| Errors.TwineCauseReported | src/main/kotlin/dev/znci/twine/nativex/ErrorHandler.kt:17-19 | When the cause is a TwineError, the message is exactly the prefix plus the cause's message. |
| Errors.OtherCauseIsUnexpected | src/main/kotlin/dev/znci/twine/nativex/ErrorHandler.kt:21-28 | An InvocationTargetException, whose message is null, with a non-TwineError cause reads "Error calling <name>: Unexpected error". |
| Errors.OwnMessageReported | src/main/kotlin/dev/znci/twine/nativex/ErrorHandler.kt:21-28 | An error with no cause and a message reports that message after the prefix. |
| Base.Wrap32 | src/main/kotlin/dev/znci/twine/nativex/conversion/Converter.kt:175 | Long.toInt: the result is a 32-bit integer congruent to the input modulo 2^32, and equal to it when the input already fits. |
| Lua.Get | src/main/kotlin/dev/znci/twine/nativex/conversion/ClassMapper.kt:54 | A key the table holds reads its entry. A missing key that the `__index` hook does not answer reads nil. |
| Lua.TagName | src/main/kotlin/dev/znci/twine/nativex/conversion/ClassMapper.kt:18 | The `__javaClass` entry, when it is a string. A table that neither holds nor answers `__javaClass` gives "nil". |
| Lua.ExposedName | src/main/kotlin/dev/znci/twine/nativex/FunctionRegistrar.kt:33-37 | The exposed name is the annotation's name, unless it is "INHERIT_FROM_DEFINITION", in which case it is the declared name. |
| Arguments.FixedParamCount | src/main/kotlin/dev/znci/twine/nativex/conversion/Converter.kt:33-35 | The parameter count, minus one exactly when the last parameter is vararg. |
| Arguments.NotEnoughArguments | src/main/kotlin/dev/znci/twine/nativex/conversion/Converter.kt:37-39 | Fewer arguments than the fixed count fail with "Not enough arguments for <f>. Expected <n>, got <m>". |
| Arguments.ExactCountWithoutVararg | src/main/kotlin/dev/znci/twine/nativex/conversion/Converter.kt:41-43 | A non-vararg function given more arguments than parameters fails with "Invalid number of arguments ...". |
| Arguments.VarargArray | src/main/kotlin/dev/znci/twine/nativex/conversion/Converter.kt:50-60 | The typed array exists exactly for the seven kinds with a rule. It has one element per argument, fixed ones included. Any other kind fails with "Unsupported vararg type: <type>". |
| Arguments.VarargShape | src/main/kotlin/dev/znci/twine/nativex/conversion/Converter.kt:45-62 | For a vararg function, conversion succeeds exactly when the first argument's type can be inferred and has an array rule. It then yields a one-element array holding the array of all arguments. |
| Arguments.VarargKindOfScalars | src/main/kotlin/dev/znci/twine/nativex/conversion/Converter.kt:47-59 | For a non-table first argument, conversion succeeds exactly for booleans, numbers and strings. Numbers always give a DoubleArray. A function fails with "Unsupported vararg type: kotlin.Function<*>". |
| Arguments.VarargWithoutArguments | src/main/kotlin/dev/znci/twine/nativex/conversion/Converter.kt:46-59 | A vararg-only function called with no arguments infers LuaNil for the missing first argument and fails. |
| Arguments.ConvertEach | src/main/kotlin/dev/znci/twine/nativex/conversion/Converter.kt:75-83 | One value per parameter from the given index on, each the conversion of its own argument. The error, if any, is some parameter's conversion error. |
| Arguments.ConvertEachFirstError | src/main/kotlin/dev/znci/twine/nativex/conversion/Converter.kt:75-83 | When every parameter before i converts and parameter i fails, the conversion fails with parameter i's error. |
| Arguments.ToKotlinArgs | src/main/kotlin/dev/znci/twine/nativex/conversion/Converter.kt:30-84 | Too few arguments fail with "Not enough arguments". A vararg call yields one array. A non-vararg call yields one value per parameter, each its argument converted, and otherwise fails with some parameter's error. |
| Arguments.ToKotlinArgsFirstError | src/main/kotlin/dev/znci/twine/nativex/conversion/Converter.kt:75-83 | A non-vararg call with the right count fails with the error of the first parameter that fails to convert. |
| Arguments.OnePerParameter | src/main/kotlin/dev/znci/twine/nativex/conversion/Converter.kt:75-83 | A successful non-vararg conversion had exactly as many arguments as parameters. Value i is argument i+1 converted: through toClass for a table, through toKotlinValue for anything else. |
| Converter.ToKotlinValue | src/main/kotlin/dev/znci/twine/nativex/conversion/Converter.kt:92-159 | nil is null before any other rule. A function succeeds exactly for declared Function0..3, giving a callback of that arity, and otherwise fails with "Unsupported function type: <classifier>". Every other value converts. |
| Converter.OtherTypesPassThrough | src/main/kotlin/dev/znci/twine/nativex/conversion/Converter.kt:156-158 | A declared type with no coercion, and not the TwineEnumValue-with-table case, returns the Lua value unchanged. |
| Converter.CallbackArity | src/main/kotlin/dev/znci/twine/nativex/conversion/Converter.kt:107-142 | An arity is chosen only for a declared type that is one of Function0..Function3. |
| Converter.ToKotlinType | src/main/kotlin/dev/znci/twine/nativex/conversion/Converter.kt:224-245 | Numbers infer as Double. A table infers the class its `__javaClass` names, or fails "Could not find class for Lua table: <name>" when no such class exists. A generic class fails with createType()'s own IllegalArgumentException, which the ClassNotFoundException catch lets through. Only tables can fail. |
| Converter.IntNeverInferredForScalars | src/main/kotlin/dev/znci/twine/nativex/conversion/Converter.kt:226-229 | Any non-table value has an inferred type, and that type is never Int. |
| Converter.TaggedTable | src/main/kotlin/dev/znci/twine/nativex/conversion/Converter.kt:180-184 | A returned TwineTable keeps its entries. Its `__javaClass` reads as its class name. The other hooked keys still answer. |
| Converter.SequenceTable | src/main/kotlin/dev/znci/twine/nativex/conversion/Converter.kt:188-208 | The table built from a collection has no hooks. |
| Converter.SequenceTableEntries | src/main/kotlin/dev/znci/twine/nativex/conversion/Converter.kt:188-208 | When every element converts, key i+1 reads element i's image, and the table has no other keys. |
| Converter.Images | src/main/kotlin/dev/znci/twine/nativex/conversion/Converter.kt:190-192 | One toLuaValue result per element, in order. |
| Converter.Fill | src/main/kotlin/dev/znci/twine/nativex/conversion/Converter.kt:188-208 | Filling a table from the first n results gives, on success, a table without hooks. |
| Converter.FillEntries | src/main/kotlin/dev/znci/twine/nativex/conversion/Converter.kt:190-192 | When the first n results are values, the table's keys are 1..n and key i+1 reads result i. |
| Converter.FillErrorPersists | src/main/kotlin/dev/znci/twine/nativex/conversion/Converter.kt:190-192 | A failure among the first n results fails every longer fill with the same error. |
| Converter.FillFirstError | src/main/kotlin/dev/znci/twine/nativex/conversion/Converter.kt:190-192 | The fill fails with the error of the first result that is an error, when all earlier results are values. |
| Converter.SequenceTableErrorPersists | src/main/kotlin/dev/znci/twine/nativex/conversion/Converter.kt:188-208 | Once an element fails, the conversion of any longer prefix fails with the same error. |
| Converter.SequenceTableFirstError | src/main/kotlin/dev/znci/twine/nativex/conversion/Converter.kt:188-208 | The error reported is the one of the first element that fails. |
| Converter.ToLuaValue | src/main/kotlin/dev/znci/twine/nativex/conversion/Converter.kt:169-218 | The method, with its fill loops, computes the specification function `Converter.LuaImage`. |
| Converter.FillSequence | src/main/kotlin/dev/znci/twine/nativex/conversion/Converter.kt:190-192 | The forEachIndexed loop produces the table `Converter.SequenceTable` describes. |
| Converter.StoreElement | src/main/kotlin/dev/znci/twine/nativex/conversion/Converter.kt:191 | One iteration extends the table by element i's image at key i + 1, or fails exactly as `Converter.SequenceTable` of one more element does. |
| Converter.EnumConstantTable | src/main/kotlin/dev/znci/twine/nativex/conversion/Converter.kt:209-213 | An enum constant becomes the table toLuaTable writes for its whole class, or the TwineEnum init error. |
| Converter.EnumConstantImage | src/main/kotlin/dev/znci/twine/nativex/conversion/Converter.kt:209-213 | The image of an enum constant is the table of every constant of its class, each under its name; a class that is not an enum fails with "TwineEnum can only be used with enum classes". |
| Converter.LongNarrowing | src/main/kotlin/dev/znci/twine/nativex/conversion/Converter.kt:175 | A Long becomes a Lua integer: unchanged within 32 bits, and 2^31 becomes -2^31. |
| Converter.PrimitiveRoundTrips | src/main/kotlin/dev/znci/twine/nativex/conversion/Converter.kt:171-175 | A String, Boolean, Int or 32-bit Long sent to Lua and converted back with its own declared type is the original value. |
| Converter.RecordRoundTrip | src/main/kotlin/dev/znci/twine/nativex/conversion/Converter.kt:146-154 | A TwineEnumValue sent to Lua and read back as TwineEnumValue keeps its parent, name and ordinal. Its class field reads as TwineEnumValue's class name. |
| Converter.NullAndUnitAreWrappedNil | src/main/kotlin/dev/znci/twine/nativex/conversion/Converter.kt:214 | null and Unit both become `TwineLuaValue.NIL`: a value whose type name is "nil" but which is not nil and is true. |
| Converter.LuaValueImage | src/main/kotlin/dev/znci/twine/nativex/conversion/Converter.kt:177-217 | A LuaString, LuaInteger or LuaBoolean is copied. A TwineLuaValue fails with "TwineLuaValue should not be used as a return type.". Any other Lua value fails with "Unsupported toLuaValue type: <its LuaJ class>". |
| Converter.TwineLuaValueRejected | src/main/kotlin/dev/znci/twine/nativex/conversion/Converter.kt:185-187 | A TwineLuaValue result fails with "TwineLuaValue should not be used as a return type.", whether it arrives as a TwineLuaValue or as a Lua value. |
| Converter.UnknownClassRejected | src/main/kotlin/dev/znci/twine/nativex/conversion/Converter.kt:215-217 | Any other class fails with "Unsupported toLuaValue type: <simple name>". |
| ClassMapper.ParamNames | src/main/kotlin/dev/znci/twine/nativex/conversion/ClassMapper.kt:27 | The set of constructor parameter names: every parameter's name, and nothing else. |
| ClassMapper.FirstCovering | src/main/kotlin/dev/znci/twine/nativex/conversion/ClassMapper.kt:24-33 | The index of the first candidate with a primary constructor whose names contain all the table's keys. With none, no candidate covers. |
| ClassMapper.Candidates | src/main/kotlin/dev/znci/twine/nativex/conversion/ClassMapper.kt:21-22 | The candidates are the parameter types after the receiver, in order. |
| ClassMapper.CtorArgs | src/main/kotlin/dev/znci/twine/nativex/conversion/ClassMapper.kt:53-56 | One argument per constructor parameter, in order. Each is the table's entry of that name converted to the parameter's type. |
| ClassMapper.ScanClassName | src/main/kotlin/dev/znci/twine/nativex/conversion/ClassMapper.kt:18-35 | The `for` loop with `break` yields the tag, else the qualified name of the first candidate whose primary constructor covers every key, else "nil" (`ClassMapper.ClassNameFor`). |
| ClassMapper.ToClass | src/main/kotlin/dev/znci/twine/nativex/conversion/ClassMapper.kt:16-63 | The class name from `ScanClassName`, then the lookup, enum and constructor branches, compute the specification function `ClassMapper.Reconstruct`. |
| ClassMapper.TagSkipsScan | src/main/kotlin/dev/znci/twine/nativex/conversion/ClassMapper.kt:18-20 | A table whose `__javaClass` is not "nil" uses that name; no scan happens. |
| ClassMapper.UntaggedPicksFirstCovering | src/main/kotlin/dev/znci/twine/nativex/conversion/ClassMapper.kt:20-33 | An untagged table takes the qualified name of the first candidate whose constructor covers its keys. |
| ClassMapper.EmptyTableTakesFirstConstructor | src/main/kotlin/dev/znci/twine/nativex/conversion/ClassMapper.kt:25-30 | An empty table resolves to the first candidate that has a primary constructor at all. |
| ClassMapper.NothingCoversFails | src/main/kotlin/dev/znci/twine/nativex/conversion/ClassMapper.kt:37-41 | When nothing covers, the name stays "nil" and the call fails with "Could not find class 'nil'. Did you forget to set __javaClass?". |
| ClassMapper.EnumDelegates | src/main/kotlin/dev/znci/twine/nativex/conversion/ClassMapper.kt:44-47 | An enum class delegates to TwineEnum.fromLuaTable. |
| ClassMapper.ConstructorArgumentsByName | src/main/kotlin/dev/znci/twine/nativex/conversion/ClassMapper.kt:53-56 | The argument for a parameter whose name the table neither holds nor answers through `__index` is null. Otherwise it is the entry converted. |
| ClassMapper.ConstructedObject | src/main/kotlin/dev/znci/twine/nativex/conversion/ClassMapper.kt:49-58 | A non-enum class with a constructor succeeds exactly when its arguments convert, the constructor returns, and the class is a TwineTable, which is the cast. A throwing constructor fails with the InvocationTargetException. Arguments that reflection refuses, such as `{tags = "x"}` for a `tags: List<String>` parameter, fail with reflection's own IllegalArgumentException, unwrapped. |
| Enums.TwineEnum.Create | src/main/kotlin/dev/znci/twine/TwineEnum.kt:10-14 | Construction succeeds exactly for an enum class, with an empty table. Otherwise it fails with "TwineEnum can only be used with enum classes". |
| Enums.RecordOf | src/main/kotlin/dev/znci/twine/TwineEnum.kt:37-42 | The record for constant i: declaring class name, constant name, ordinal i, TwineEnumValue's class name. |
| Enums.RecordTableAnswers | src/main/kotlin/dev/znci/twine/TwineEnum.kt:37-42 | The record's table answers enumName, parentName, enumOrdinal and `__javaClass` with the record's fields. |
| Enums.TwineEnum.ToLuaTable | src/main/kotlin/dev/znci/twine/TwineEnum.kt:33-45 | The loop writes the constants into the enum's own table, as `Enums.ConstantEntries` describes, and returns that table. |
| Enums.ConstantEntriesKeys | src/main/kotlin/dev/znci/twine/TwineEnum.kt:36-43 | Afterwards the keys are the earlier keys plus the constants' names. |
| Enums.ConstantEntryIsRecord | src/main/kotlin/dev/znci/twine/TwineEnum.kt:36-43 | With distinct constant names, each name maps to its own record. |
| Enums.ToLuaTableEntries | src/main/kotlin/dev/znci/twine/TwineEnum.kt:36-43 | After the full loop, every constant's name maps to its record table. |
| Enums.PositionNames | src/main/kotlin/dev/znci/twine/TwineEnum.kt:48-49 | The strings read at positions 1..n of the table, in order. |
| Enums.FirstConstant | src/main/kotlin/dev/znci/twine/TwineEnum.kt:48-55 | A result is both a constant and one of the names scanned. |
| Enums.FirstConstantAt | src/main/kotlin/dev/znci/twine/TwineEnum.kt:48-56 | With no constant among the names before position i, the scan answers the name at i when it is a constant, and nothing when i is past the end. |
| Enums.FirstConstantIsEarliest | src/main/kotlin/dev/znci/twine/TwineEnum.kt:48-56 | The scan finds nothing exactly when no name is a constant. Otherwise it returns the earliest name that is one, and earlier non-matching names are skipped. |
| Enums.TwineEnum.FromLuaTable | src/main/kotlin/dev/znci/twine/TwineEnum.kt:47-57 | The nested loops with early return compute the specification function `Enums.ConstantFromTable`. |
| Enums.TwineEnum.NamesConstant | src/main/kotlin/dev/znci/twine/TwineEnum.kt:50-54 | The inner loop over getConstants() finds a match exactly when the name is one of the enum's constants. |
| Enums.FromLuaTableExamples | src/test/kotlin/dev/znci/twine/TwineEnumTest.kt:46-52 | {1 = "SECOND"} gives SECOND, and {1 = "INVALID_CONSTANT"} fails with "Enum constant not found". Matching is case-sensitive. |
| Enums.TwineEnum.GetValue | src/main/kotlin/dev/znci/twine/TwineEnum.kt:72-82 | Succeeds exactly for 0 <= ordinal < count, giving that constant's record. Otherwise it fails with "Invalid ordinal". |
| Enums.IsValidValueAsWritten | src/main/kotlin/dev/znci/twine/TwineEnum.kt:89-96 | isValidValue as written throws exactly when the parent matches and the ordinal equals the constant count. |
| Enums.OrdinalAtCountThrows | src/main/kotlin/dev/znci/twine/TwineEnum.kt:93-95 | A record with the enum's simple name and ordinal == count passes the bound check and indexes out of range. |
| Enums.AsWrittenAgreesBelowCount | src/main/kotlin/dev/znci/twine/TwineEnum.kt:89-96 | For every other ordinal, the as-written check agrees with the corrected predicate `Enums.IsValidValue`. |
| Enums.TwineEnum.ToJava | src/main/kotlin/dev/znci/twine/TwineEnum.kt:98-103 | Corrected, with `Enums.IsValidValue` in place of the as-written check. Succeeds exactly for a valid record, and returns the constant at the record's ordinal, which has the record's name. Otherwise it fails with "Invalid enum value: <name> in <parent>". |
| Enums.GetValueThenToJava | src/main/kotlin/dev/znci/twine/TwineEnum.kt:72-103 | A record from getValue is accepted by toJava exactly when the enum's JVM name equals its simple name. |
| Enums.RecordRoundTrip | src/main/kotlin/dev/znci/twine/TwineEnum.kt:37-103 | For an enum whose JVM and simple names coincide, toJava on constant i's record gives constant i. |
| Functions.GroupIndex | src/main/kotlin/dev/znci/twine/nativex/FunctionRegistrar.kt:69 | The position of the group with that name, or none when no group has it. |
| Functions.Filter | src/main/kotlin/dev/znci/twine/nativex/FunctionRegistrar.kt:57-70 | The annotated functions exposed under a name, in order. |
| Functions.GroupsCharacterized | src/main/kotlin/dev/znci/twine/nativex/FunctionRegistrar.kt:57-75 | Group names are distinct, and each group is exactly the filtered functions of its name, never empty. Every exposed name has a group. |
| Functions.OverloadEntries | src/main/kotlin/dev/znci/twine/nativex/FunctionRegistrar.kt:73-135 | One resolving wrapper per group, under the group's name, in group order. |
| Functions.FunctionRegistrar.RegisterFunctions | src/main/kotlin/dev/znci/twine/nativex/FunctionRegistrar.kt:27-51 | The loop leaves the owner's table as the fold of the direct-wrapper writes. The metatable is unchanged. |
| Functions.FunctionRegistrar.RegisterOverloads | src/main/kotlin/dev/znci/twine/nativex/FunctionRegistrar.kt:56-137 | Grouping with computeIfAbsent, then the forEach, leave the table as the fold of one resolving-wrapper write per group. |
| Functions.FunctionRegistrar.Register | src/main/kotlin/dev/znci/twine/nativex/FunctionRegistrar.kt:19-22 | registerFunctions then registerOverloads: the composition of the two folds. |
| Functions.EveryNameResolves | src/main/kotlin/dev/znci/twine/nativex/FunctionRegistrar.kt:19-135 | After register, every exposed name, singletons included, holds the resolving wrapper over all functions of that name. |
| Functions.FilterContains | src/main/kotlin/dev/znci/twine/nativex/FunctionRegistrar.kt:57-70 | An annotated function is in the filtered list of its own exposed name. |
| Functions.MatchFrom | src/main/kotlin/dev/znci/twine/nativex/FunctionRegistrar.kt:88-95 | The type check succeeds exactly when every actual argument from i on has an inferred type assignable to its parameter's. |
| Functions.Accepts | src/main/kotlin/dev/znci/twine/nativex/FunctionRegistrar.kt:81-86 | A candidate whose count does not fit (fewer than the fixed count, or unequal without vararg) is rejected without any type check. |
| Functions.FindMatch | src/main/kotlin/dev/znci/twine/nativex/FunctionRegistrar.kt:80-97 | The first accepting candidate, with all earlier ones rejecting. None means all reject. (Where an error comes from is `Functions.FindMatchErrorSource`.) |
| Functions.CandidateMatches | src/main/kotlin/dev/znci/twine/nativex/FunctionRegistrar.kt:80-97 | The candidate predicate's loop computes `Functions.Accepts`. |
| Functions.SingleVararg | src/main/kotlin/dev/znci/twine/nativex/FunctionRegistrar.kt:112-115 | The first candidate whose only parameter is vararg, or none when there is no such candidate. |
| Functions.CallResult | src/main/kotlin/dev/znci/twine/nativex/FunctionRegistrar.kt:99-106 | With the owner as receiver (the corrected call of the receiver row under "## Findings"): an exception from the callee goes through throwError. An argument that reflection refuses raises its IllegalArgumentException, which escapes the InvocationTargetException catch unwrapped. A returned value goes through toLuaValue. |
| Functions.FallbackResult | src/main/kotlin/dev/znci/twine/nativex/FunctionRegistrar.kt:117-125 | With the owner as receiver (corrected, see "## Findings"): an exception from the callee goes through throwError. A returned value that converts is its toLuaValue image. A returned value that does not convert, and reflection's refusal of an argument, are also reported through throwError, since the catch takes every Exception. Every failure is a Lua error. |
| Functions.Overloaded | src/main/kotlin/dev/znci/twine/nativex/FunctionRegistrar.kt:77-132 | The corrected half of the receiver row under "## Findings": the callee is called on the owner. An empty group fails with "No matching function found for <name> with <n> arguments". With no survivor and a first parameter that is not vararg, the call returns nil. |
| Functions.VarargFallback | src/main/kotlin/dev/znci/twine/nativex/FunctionRegistrar.kt:107-125 | With no survivor and a vararg first parameter: without a vararg-only function the call fails with "No vararg function found"; otherwise the first one is called (on the owner, as corrected) with the converted arguments through the fallback, and a failed conversion escapes unchanged. |
| Functions.FallbackWrapsConversionError | src/main/kotlin/dev/znci/twine/nativex/FunctionRegistrar.kt:99-125 | The fallback agrees with a matched call except when the result does not convert or reflection refuses an argument: the matched call lets that error through, the fallback reports it as "Error calling <f>: ...". |
| Functions.FindMatchErrorSource | src/main/kotlin/dev/znci/twine/nativex/FunctionRegistrar.kt:80-97 | An error of the search is the check error of a candidate that every earlier candidate rejected. |
| Functions.FindMatchErrorAt | src/main/kotlin/dev/znci/twine/nativex/FunctionRegistrar.kt:80-97 | When every candidate before j rejects and candidate j's check throws, the search fails with candidate j's error. |
| Functions.CheckErrorStops | src/main/kotlin/dev/znci/twine/nativex/FunctionRegistrar.kt:80-97 | A candidate whose type check throws, after all earlier candidates rejected, ends the call with that error. |
| Functions.Direct | src/main/kotlin/dev/znci/twine/nativex/FunctionRegistrar.kt:39-48 | A conversion error that is not an InvocationTargetException escapes the direct wrapper unchanged, and so does reflection's IllegalArgumentException for an argument it refuses. |
| Functions.InvokeOverloaded | src/main/kotlin/dev/znci/twine/nativex/FunctionRegistrar.kt:77-133 | The resolving wrapper's invoke computes `Functions.Overloaded`. |
| Functions.FirstSurvivorWins | src/main/kotlin/dev/znci/twine/nativex/FunctionRegistrar.kt:80-106 | The first accepting candidate is the one called (on the owner, as corrected). |
| Functions.OverloadedAsWritten | src/main/kotlin/dev/znci/twine/nativex/FunctionRegistrar.kt:77-132 | The resolving wrapper as written, calling on itself: it never answers with a callee's result, only with nil (the no-survivor fallthrough) or an error. |
| Functions.WrongReceiverRefusesEveryCall | src/main/kotlin/dev/znci/twine/nativex/FunctionRegistrar.kt:99-125 | As written, a matched call that converts its arguments raises reflection's IllegalArgumentException, which escapes the InvocationTargetException catch; the vararg fallback reports it as "Error calling <f>: <JVM message>". Where no callee is reached, it agrees with `Functions.Overloaded`. |
| Functions.TestVarargStrAsWritten | src/test/kotlin/dev/znci/twine/TwineNativeTest.kt:48-53 | `test.testVarargStr('Hello', 'World')` answers "Hello, World" when corrected, and "Error calling testVarargStr: <JVM message, or Unexpected error>" as written. |
| Functions.TestVarargStrResolves | src/test/kotlin/dev/znci/twine/TwineNativeTest.kt:12-15 | Two strings do not fit the vararg array parameter, so no candidate accepts and the fallback converts them into one String array. |
| Functions.NoSurvivorIsNil | src/main/kotlin/dev/znci/twine/nativex/FunctionRegistrar.kt:107-132 | With no survivor and a non-vararg first parameter, the wrapper returns nil, with no error. |
| Functions.SingletonWrongCountIsNil | src/main/kotlin/dev/znci/twine/nativex/FunctionRegistrar.kt:39-132 | A singleton called with too many arguments: its direct wrapper would fail "Invalid number of arguments", but the resolving wrapper that replaces it returns nil. |
| Functions.IntParametersRejectNumbers | src/main/kotlin/dev/znci/twine/nativex/FunctionRegistrar.kt:88-95 | Numbers infer as Double, so f(Int, Int) with two numbers is rejected and the call returns nil. |
| Functions.VarargCandidateOutOfBounds | src/main/kotlin/dev/znci/twine/nativex/FunctionRegistrar.kt:88-90 | A vararg candidate given more arguments than parameters indexes `params` out of bounds once its parameters fit. |
| Functions.CalleeTwineErrorReported | src/main/kotlin/dev/znci/twine/nativex/FunctionRegistrar.kt:104-105 | With the owner as receiver (corrected): a TwineError thrown by the callee reaches Lua as "Error calling <f>: <message>". |
| Properties.PropertyMap | src/main/kotlin/dev/znci/twine/nativex/PropertyRegistrar.kt:20-26 | Every name maps to a property exposed under it. |
| Properties.PropertyMapDomain | src/main/kotlin/dev/znci/twine/nativex/PropertyRegistrar.kt:20-26 | A name is mapped exactly when some annotated property is exposed under it. |
| Properties.PropertyMapLastWins | src/main/kotlin/dev/znci/twine/nativex/PropertyRegistrar.kt:26 | A name maps to the last annotated property exposed under it, as toMap keeps. |
| Properties.PropertyHooks | src/main/kotlin/dev/znci/twine/nativex/PropertyRegistrar.kt:28-62 | The installed metatable has both an `__index` and a `__newindex` hook. |
| Properties.PropertyRegistrar.RegisterProperties | src/main/kotlin/dev/znci/twine/nativex/PropertyRegistrar.kt:19-65 | The owner's metatable is replaced wholesale by the property hooks. Its entries are unchanged. |
| Properties.ReadRegisteredProperty | src/main/kotlin/dev/znci/twine/nativex/PropertyRegistrar.kt:31-38 | A key the table does not hold reads the last property exposed under its text. When there is none, the read fails with "No property '<k>'". Also holds for the legacy hooks. |
| Properties.ReadOnlyLikeAbsent | src/main/kotlin/dev/znci/twine/nativex/PropertyRegistrar.kt:49-50 | Writing a read-only property fails exactly like writing an absent one: "No property '<k>'". |
| Properties.SetAfterPropertiesFallsBack | src/main/kotlin/dev/znci/twine/TwineTable.kt:64-78 | A set() registration made after the property hooks leaves keys it does not name to the property map. |
| Properties.GettingError | src/main/kotlin/dev/znci/twine/nativex/PropertyRegistrar.kt:39-42 | "Error getting '<declared name>': <message>", with a null message written "null". |
| Properties.SettingError | src/main/kotlin/dev/znci/twine/nativex/PropertyRegistrar.kt:58-60 | "Error setting '<declared name>': <message>". |
| Properties.GetProperty | src/main/kotlin/dev/znci/twine/nativex/PropertyRegistrar.kt:36-42 | Succeeds exactly when the getter returns and its value converts; the result is that value's Lua image. A throwing getter fails with "Error getting '<prop>': " and the InvocationTargetException's message; a value that does not convert, or a call reflection refuses, fails with the same prefix and that error's message. |
| Properties.GetterExceptionMessage | src/main/kotlin/dev/znci/twine/nativex/PropertyRegistrar.kt:36-42 | A throwing getter reaches Lua as "Error getting '<prop>': null", the message of the InvocationTargetException wrapping it. |
| Properties.SetProperty | src/main/kotlin/dev/znci/twine/nativex/PropertyRegistrar.kt:52-60 | Succeeds, answering true, exactly when the value converts to the setter's type and the setter returns. A failed conversion fails with "Error setting '<prop>': " and the conversion's message. A throwing setter fails with the same prefix and the InvocationTargetException's message, and a refused argument with reflection's message. Every failure is a Lua error. |
| Properties.FunctionToPlainProperty | src/main/kotlin/dev/znci/twine/nativex/PropertyRegistrar.kt:53-59 | A Lua function written to a non-function property fails before the setter runs, with "Error setting '<prop>': Unsupported function type: class <type>". |
| Tables.NoPropertyError | src/main/kotlin/dev/znci/twine/nativex/PropertyRegistrar.kt:34 | The "No property" failure is a Lua error. |
| Tables.ReadIndex | src/main/kotlin/dev/znci/twine/TwineTable.kt:64-78 | A getter hook answers its own key with its getter and passes other keys to the previous hook. A property hook answers exactly the names in its map and fails "No property '<k>'" for any other. A hook never yields a value other than nil by itself. |
| Tables.SetterAction | src/main/kotlin/dev/znci/twine/TwineTable.kt:83-94 | Without a setter the write is dropped. With one, it runs exactly when there is no validator or the validator accepts the value. Otherwise it fails with "Invalid input for '<name>', got <type> (value: <text>)". |
| Tables.WriteNewIndex | src/main/kotlin/dev/znci/twine/TwineTable.kt:81-97 | A setter or property write carries the value written. A property hook writes exactly the mutable properties in its map and fails "No property '<k>'" for any other key. Every failure is a Lua error. |
| Tables.Read | src/main/kotlin/dev/znci/twine/TwineTable.kt:64-78 | A key the table holds reads its value. A missing key with no `__index` hook reads nil. |
| Tables.Write | src/main/kotlin/dev/znci/twine/TwineTable.kt:81-97 | A write is a raw set exactly when the key is present or there is no `__newindex` hook. |
| Tables.WriteNewIndexNeverRaw | src/main/kotlin/dev/znci/twine/TwineTable.kt:81-97 | A `__newindex` hook never stores into the table itself. |
| Tables.Stored | src/main/kotlin/dev/znci/twine/TwineTable.kt:81-97 | Without a `__newindex` hook, a store is a raw set. |
| Tables.StoredAllWithoutHook | src/main/kotlin/dev/znci/twine/TwineTable.kt:81-97 | Without a hook, after a sequence of stores, a key keeps its earlier value if no entry names it, and otherwise holds its last non-nil entry. |
| Tables.StoredAllSameValue | src/main/kotlin/dev/znci/twine/TwineTable.kt:81-97 | If every entry for a key writes the same non-nil value, the key holds that value. |
| Tables.TwineTable.Set | src/main/kotlin/dev/znci/twine/TwineTable.kt:59-100 | The entries are unchanged. The metatable becomes the new getter hook, when there is a getter, and always a new setter hook, chained to the previous ones. |
| Tables.Registered | src/main/kotlin/dev/znci/twine/TwineTable.kt:59-100 | After at least one set(), the table has a `__newindex` hook. |
| Tables.LastGetter | src/main/kotlin/dev/znci/twine/TwineTable.kt:69-76 | The getter of the latest registration with a getter for that name. |
| Tables.LastRegistration | src/main/kotlin/dev/znci/twine/TwineTable.kt:81-97 | The latest registration for a name, or none when no registration names it. |
| Tables.ReadAfterRegistrations | src/main/kotlin/dev/znci/twine/TwineTable.kt:64-78 | Reading a key after a series of set() calls runs the latest getter registered for it. With none, it falls through to the hook that was there before. |
| Tables.WriteAfterRegistrations | src/main/kotlin/dev/znci/twine/TwineTable.kt:81-97 | Writing a key runs the latest registration for it: a validator failure, the setter, or a silent drop when there is no setter. Other keys go to the earlier hook, or have no effect. |
| Tables.NoRawWriteAfterRegistration | src/main/kotlin/dev/znci/twine/TwineTable.kt:81-97 | Once set() has run, writing a new key never stores it in the table. |
| Tables.KeyOf | src/main/kotlin/dev/znci/twine/TwineTable.kt:103-108 | Only Int, String and LuaValue keys are accepted. |
| Tables.SimpleWrite | src/main/kotlin/dev/znci/twine/TwineTable.kt:102-112 | An unsupported key fails with "Unsupported key type: <simple name>". Otherwise the write succeeds exactly when valueOf does, and stores valueOf's luaValue. |
| Tables.TwineTable.SetSimple | src/main/kotlin/dev/znci/twine/TwineTable.kt:102-112 | The method's new state is the store `Tables.SimpleWrite` describes, and it is unchanged on failure. |
| Tables.TwineTable.Put | src/main/kotlin/dev/znci/twine/TwineTable.kt:111 | table.set: the action and new entries are those of the metatable's rules. |
| Tables.SetSimpleOfListStoresTrue | src/main/kotlin/dev/znci/twine/TwineTable.kt:110 | Storing an ArrayList stores TRUE, the luaValue a TwineTable inherits, and not the list's table. |
| Tables.LuaValueOf | src/main/kotlin/dev/znci/twine/TwineLuaValue.kt:35 | The luaValue of the table valueOf builds for a list is TRUE. |
| Tables.Wrapping | src/main/kotlin/dev/znci/twine/TwineLuaValue.kt:77-100 | A list becomes a table; everything else that succeeds is a TwineLuaValue wrapper of its Lua value, a TwineLuaValue argument included. |
| Tables.EnumValueWrapsItsTable | src/main/kotlin/dev/znci/twine/TwineLuaValue.kt:83 | A TwineEnumValue is a TwineNative and so a TwineTable (src/main/kotlin/dev/znci/twine/TwineEnum.kt:121-126): valueOf wraps the record's own table, which answers `enumName`, and an ArrayList of one record stores that wrapper under "1". |
| Tables.ValueOf | src/main/kotlin/dev/znci/twine/TwineLuaValue.kt:77-100 | valueOf computes `Tables.Wrapping`: a wrapper for each supported value (a TwineTable's table, a TwineEnumValue's included), the item loop's table for an ArrayList, and the failure the item loop reports. |
| Tables.ListValueOf | src/main/kotlin/dev/znci/twine/TwineLuaValue.kt:85-93 | The `forEachIndexed` loop stores each converted item through setSimple under its 1-based position and ends holding `Tables.ListEntries`; the first item that fails stops it with that item's error. |
| Tables.ListEntriesStep | src/main/kotlin/dev/znci/twine/TwineLuaValue.kt:90 | setSimple of the rewrapped item extends the entries by exactly that item's stored value under its position. |
| Tables.RewrapStoresItem | src/main/kotlin/dev/znci/twine/TwineLuaValue.kt:88-91 | Wrapping a converted item again wraps it once more: an item's wrapper is stored as that wrapper, a TwineLuaValue, and a nested list as its table. The stored value is never nil. |
| Tables.ListEntriesErrorPersists | src/main/kotlin/dev/znci/twine/TwineLuaValue.kt:88-91 | Once an item fails, the conversion of any longer prefix fails with the same error. |
| Tables.ListEntriesByPosition | src/main/kotlin/dev/znci/twine/TwineLuaValue.kt:88-91 | When every item converts, the keys are exactly the strings "1".."n". Key "i+1" holds item i's stored value; for an item that is not a list, that is the TwineLuaValue wrapping the item's Lua value, nil included. |
| Tables.ListItemsAreWrapped | src/main/kotlin/dev/znci/twine/TwineLuaValue.kt:85-93 | ["a"] gives {"1" = TwineLuaValue("a")}, and [NIL] gives {"1" = TwineLuaValue(nil)}, which is present. |
| Tables.UnsupportedValues | src/main/kotlin/dev/znci/twine/TwineLuaValue.kt:95-98 | null, Long, Float, sets and arrays fail with "Unsupported Lua type: <simple name>"; null gives "null". |
| Json.MemberValue | src/main/kotlin/dev/znci/twine/TwineLuaValue.kt:119-135 | A member's value is nil exactly for JSON null. Objects and arrays become hook-free tables. |
| Json.ElementValue | src/main/kotlin/dev/znci/twine/TwineLuaValue.kt:173-187 | An array element is never nil: JSON null becomes "Unknown". Every other element is treated like a member. |
| Json.HandleJsonPrimitive | src/main/kotlin/dev/znci/twine/TwineLuaValue.kt:209-232 | The primitive is stored raw under its key: a string, a boolean, or a number as a double. |
| Json.FromJson | src/main/kotlin/dev/znci/twine/TwineLuaValue.kt:109-152 | A fresh hook-free table whose entries are those of `Json.FromJsonEntries`: the members for an object, empty otherwise. |
| Json.SetMember | src/main/kotlin/dev/znci/twine/TwineLuaValue.kt:119-135 | One member is stored under its name as `Json.MemberValue` says: a nested object or array as its freshly built table, null as nil (which removes the key), a primitive as itself. The table stays hook-free. |
| Json.ArrayEntries | src/main/kotlin/dev/znci/twine/TwineLuaValue.kt:173-189 | After n elements, the keys are exactly the integers 0..n-1, and no stored value is nil. |
| Json.FromJsonEntries | src/main/kotlin/dev/znci/twine/TwineLuaValue.kt:109-152 | Empty for anything but an object; for an object every key is one of its member names. |
| Json.HandleJsonArray | src/main/kotlin/dev/znci/twine/TwineLuaValue.kt:170-193 | A fresh table whose entries are those of `Json.ArrayEntries`. |
| Json.SetElement | src/main/kotlin/dev/znci/twine/TwineLuaValue.kt:174-189 | Element i is stored under the integer key i as `Json.ElementValue` says; a JSON null becomes the string "Unknown". |
| Json.ObjectEntriesByName | src/main/kotlin/dev/znci/twine/TwineLuaValue.kt:115-139 | Keys are member names. A member whose name does not recur later is absent when its value is null, and otherwise holds its converted value. |
| Json.ArrayEntriesByIndex | src/main/kotlin/dev/znci/twine/TwineLuaValue.kt:173-189 | The keys are exactly the integers 0..n-1, and key i holds element i converted. |
| Json.ArrayLengthMissesFirst | src/main/kotlin/dev/znci/twine/TwineLuaValue.kt:189 | Because the keys are 0-based, Lua's length of an n-element array table is n-1, and key 0 is present. |
| Json.ToJson | src/main/kotlin/dev/znci/twine/TwineLuaValue.kt:240-272 | A non-table value always converts; a TwineLuaValue, nil, a double and a function give null. A table converts (to `{}`) exactly when it is empty; otherwise the recursion on the same receiver overflows the stack. |
| Json.JsonRoundTripAsWritten | src/main/kotlin/dev/znci/twine/TwineLuaValue.kt:240-250 | toJSON on the result of fromJSON({"a": "x"}) gives `true`, the TwineTable's own luaValue (`Tables.TableObject`). On the table itself it overflows. |
| Json.ToJsonFixed | src/main/kotlin/dev/znci/twine/TwineLuaValue.kt:242-250 | The corrected toJSON, which recurses on each entry's value: every table becomes an object. |
| Json.MembersOfContains | src/main/kotlin/dev/znci/twine/TwineLuaValue.kt:244-248 | The members are exactly the enumerated keys the table holds, each with its value converted. |
| Json.FixedRoundTrip | src/main/kotlin/dev/znci/twine/TwineLuaValue.kt:109-272 | For an object with distinct names and flat members, the corrected toJSON of fromJSON's table has exactly the original members. |
| Legacy.KotlinValue | src/main/kotlin/dev/znci/twine/TwineNative.kt:250-281 | Functions come first: a declared Function0 invokes the Lua function at once, and a non-function type passes it through. A declared String maps nil, and only nil, to null. An uncoerced type passes the value through. |
| Legacy.NilIsCoerced | src/main/kotlin/dev/znci/twine/TwineNative.kt:273-279 | Unlike Converter, which maps nil to null for every type, nil is coerced: false for Boolean, 0 for Int, null for String. |
| Legacy.Function0RunsAtOnce | src/main/kotlin/dev/znci/twine/TwineNative.kt:257-259 | A declared Function0 gives what the Lua function returns, where Converter gives a callback. |
| Legacy.LuaImage | src/main/kotlin/dev/znci/twine/TwineNative.kt:288-333 | Long becomes a double. An enum constant fails with a ClassCastException. Sets, primitive arrays and other classes fail with "Unsupported type: <simple name>". |
| Legacy.WrappedValues | src/main/kotlin/dev/znci/twine/TwineNative.kt:301-331 | A Lua value that is not a TwineLuaValue fails with "Unsupported type: <LuaJ class>"; a TwineLuaValue fails with "TwineLuaValue should not be used as a return type.", both as itself and as a Lua value. null and Unit give `TwineLuaValue.NIL`, as in Converter. |
| Legacy.SequenceTable | src/main/kotlin/dev/znci/twine/TwineNative.kt:304-317 | The table built from an Array or ArrayList has no hooks. |
| Legacy.SequenceTableEntries | src/main/kotlin/dev/znci/twine/TwineNative.kt:304-317 | When every element converts, element i sits at key i+1, and the table has no other keys. |
| Legacy.SequenceTableErrorPersists | src/main/kotlin/dev/znci/twine/TwineNative.kt:304-317 | Once an element fails, the conversion of any longer prefix fails with the same error. |
| Legacy.LongViaDouble | src/main/kotlin/dev/znci/twine/TwineNative.kt:295 | 2^32 crosses as the double 4294967296.0, where Converter's narrowing gives 0. |
| Legacy.SetsUnsupported | src/main/kotlin/dev/znci/twine/TwineNative.kt:329-331 | A Set has no rule here, and fails, where Converter builds a table. |
| Legacy.ToLuaValue | src/main/kotlin/dev/znci/twine/TwineNative.kt:288-333 | The method computes `Legacy.LuaImage`. |
| Legacy.FillSequence | src/main/kotlin/dev/znci/twine/TwineNative.kt:304-317 | The forEachIndexed loop produces `Legacy.SequenceTable`. |
| Legacy.StoreElement | src/main/kotlin/dev/znci/twine/TwineNative.kt:306 | One iteration extends the table by element i's image at key i + 1, or fails as `Legacy.SequenceTable` of one more element does. |
| Legacy.CtorArgs | src/main/kotlin/dev/znci/twine/TwineNative.kt:374-377 | One argument per constructor parameter, each the entry of that name through the legacy conversion. |
| Legacy.Reconstruct | src/main/kotlin/dev/znci/twine/TwineNative.kt:365-369 | A table resolved to an enum class fails with a ClassCastException, because the class object is cast to an enum constant. Constructor arguments that reflection refuses fail with reflection's own exception, unwrapped. |
| Legacy.ToClass | src/main/kotlin/dev/znci/twine/TwineNative.kt:338-383 | The same scan, then the legacy cast, constructor and error branches, compute `Legacy.Reconstruct`. |
| Legacy.KotlinType | src/main/kotlin/dev/znci/twine/TwineNative.kt:225-242 | Inference fails only for a Lua function, whose Function type is built without its type argument. Numbers infer as Double. A table infers the class toClass builds, or LuaTable when toClass fails or the class is generic, since the catch also takes createType()'s exception. |
| Legacy.UnresolvedTableIsLuaTable | src/main/kotlin/dev/znci/twine/TwineNative.kt:232-239 | A table no class can be found for infers as LuaTable, where Converter fails. |
| Legacy.EnumTableIsLuaTable | src/main/kotlin/dev/znci/twine/TwineNative.kt:232-239 | A table resolved to an enum class also infers as LuaTable. |
| Legacy.KotlinArgs | src/main/kotlin/dev/znci/twine/TwineNative.kt:209-220 | One value per parameter after the receiver, whatever the argument count. |
| Legacy.KotlinArgsConverts | src/main/kotlin/dev/znci/twine/TwineNative.kt:210-219 | The conversion succeeds exactly when every parameter's argument converts (a missing argument is read as nil), and value i is parameter i's. |
| Legacy.KotlinArgsFirstError | src/main/kotlin/dev/znci/twine/TwineNative.kt:210-219 | The error thrown is that of the first parameter whose argument fails to convert. |
| Legacy.MissingArgumentsAreNil | src/main/kotlin/dev/znci/twine/TwineNative.kt:209-220 | A missing argument is converted from nil, where Converter reports a count error. |
| Legacy.MatchFrom | src/main/kotlin/dev/znci/twine/TwineNative.kt:124-131 | The type check succeeds exactly when every argument from i on has an inferred type assignable to its parameter's. |
| Legacy.Accepts | src/main/kotlin/dev/znci/twine/TwineNative.kt:120-123 | A candidate whose parameter count differs from the argument count is rejected. |
| Legacy.FindMatch | src/main/kotlin/dev/znci/twine/TwineNative.kt:119-133 | The first accepting candidate, with all earlier ones rejecting. None exactly when every candidate rejects. |
| Legacy.CandidateMatches | src/main/kotlin/dev/znci/twine/TwineNative.kt:119-133 | find's predicate loop computes `Legacy.Accepts`. |
| Legacy.CallResult | src/main/kotlin/dev/znci/twine/TwineNative.kt:137-142 | An exception from the callee goes through throwError. An argument reflection refuses, such as "a" for `xs: List<String>`, raises its IllegalArgumentException unwrapped. A returned value goes through the legacy toLuaValue. |
| Legacy.Direct | src/main/kotlin/dev/znci/twine/TwineNative.kt:77-85 | A conversion error that is not an InvocationTargetException escapes the direct wrapper unchanged, and so does reflection's IllegalArgumentException for an argument it refuses. |
| Legacy.Overloaded | src/main/kotlin/dev/znci/twine/TwineNative.kt:117-148 | With no accepting candidate, an empty group included, the call fails with "No matching function found for <name> with <n> arguments". |
| Legacy.InvokeOverloaded | src/main/kotlin/dev/znci/twine/TwineNative.kt:117-148 | The resolving wrapper's invoke computes `Legacy.Overloaded`. |
| Legacy.NoMatchFails | src/main/kotlin/dev/znci/twine/TwineNative.kt:143-145 | With no match, the call fails with "No matching function found for <name> with <n> arguments". |
| Legacy.FirstMatchWins | src/main/kotlin/dev/znci/twine/TwineNative.kt:119-142 | The first accepting candidate is the one called. |
| Legacy.VarargNeedsExactCount | src/main/kotlin/dev/znci/twine/TwineNative.kt:120-123 | A vararg function is rejected for more arguments than parameters, where Converter's count rule accepts it. |
| Legacy.FunctionArgumentThrows | src/main/kotlin/dev/znci/twine/TwineNative.kt:231 | A Lua function argument reached by a candidate's type check makes the whole call throw IllegalArgumentException. |
| Legacy.DirectEntriesFrom | src/main/kotlin/dev/znci/twine/TwineNative.kt:65-87 | The direct entries are exactly one wrapper per annotated function, under its exposed name. |
| Legacy.OverloadEntriesFrom | src/main/kotlin/dev/znci/twine/TwineNative.kt:114-151 | The resolving entries are exactly those of the groups with more than one function. |
| Legacy.LegacyNative.RegisterFunctions | src/main/kotlin/dev/znci/twine/TwineNative.kt:64-89 | The direct wrappers are written, then handleOverloadedFunctions runs: the composition of the two folds. The metatable is unchanged. |
| Legacy.LegacyNative.HandleOverloadedFunctions | src/main/kotlin/dev/znci/twine/TwineNative.kt:96-153 | Grouping, then one resolving-wrapper write per group of more than one. |
| Legacy.LegacyNative.RegisterProperties | src/main/kotlin/dev/znci/twine/TwineNative.kt:159-201 | The metatable becomes the property hooks with the legacy conversions. The entries are unchanged. |
| Legacy.LegacyNative.constructor | src/main/kotlin/dev/znci/twine/TwineNative.kt:54-57 | init leaves a fresh table holding the registered functions, and the property hooks as its metatable. |
| Legacy.OverloadsUnderName | src/main/kotlin/dev/znci/twine/TwineNative.kt:114-151 | Under a name, the resolving entries hold only its own group's wrapper, and hold it exactly when the group is shared. |
| Legacy.DirectUnderName | src/main/kotlin/dev/znci/twine/TwineNative.kt:65-87 | A name that one function alone exposes holds that function's direct wrapper and no other direct entry. |
| Legacy.SharedNameResolves | src/main/kotlin/dev/znci/twine/TwineNative.kt:88-151 | A name several functions share ends up with the resolving wrapper over all of them. |
| Legacy.SingleNameKeepsDirect | src/main/kotlin/dev/znci/twine/TwineNative.kt:76-151 | A name one function alone exposes keeps its direct wrapper. |
| Legacy.NameResolution | src/main/kotlin/dev/znci/twine/TwineNative.kt:64-151 | After init, every exposed name is present. A name exposed by one function keeps its direct wrapper; a shared name holds the resolving wrapper of all its functions, in declaration order. |
| Legacy.GetProperty | src/main/kotlin/dev/znci/twine/TwineNative.kt:171-183 | Succeeds exactly when the getter returns and its value converts; the result is that value's Lua image. A throwing getter fails with "Error getting '<prop>': " and the InvocationTargetException's message; a value that does not convert, or a refused call, fails with the same prefix and that error's message. |
| Legacy.SetProperty | src/main/kotlin/dev/znci/twine/TwineNative.kt:186-198 | The write succeeds, answering true, exactly when the setter returns. A throwing setter fails with "Error setting '<prop>': " and the InvocationTargetException's message; a refused argument fails with the same prefix and reflection's message. |
| Legacy.FunctionToPlainProperty | src/main/kotlin/dev/znci/twine/TwineNative.kt:252-270 | A Lua function written to a non-function property reaches the setter as the function itself, where Converter fails before the setter runs. |

## Left out

- Kotlin reflection is not modelled. Functions, parameters, properties and classes are the descriptors above, `isSupertypeOf` is a given relation, and `Class.forName` is a map lookup.
- Reflection's argument check is an outcome of the Host, `Refused`, not a computation: the model does not decide which argument values reflection refuses, only what the bridge does when it does.
- Reflective calls are opaque: the callee, the constructor, the getter and the setter are functions of `Lua.Host`. src/main/kotlin/dev/znci/twine/nativex/FunctionRegistrar.kt:102 and :120 pass the wrapper object, rather than the owner, as the receiver; that is a row under "## Findings", modelled by `Functions.OverloadedAsWritten`, while the rest of the model calls on the owner.
- Messages of JVM exceptions raised by reflection or by the JVM are not modelled; they are null (None) here. This covers IllegalArgumentException from `createType`, ClassCastException, IndexOutOfBoundsException and StackOverflowError.
- LuaJ's coercions are partly modelled. `toint`/`tolong` truncate a double, without the JVM's clamping to the Int or Long range. `todouble` reads a number, and any other value reads as 0. `tojstring` is exact for nil, booleans, strings and integers; the text of doubles, tables, functions and TwineLuaValues is a placeholder. `tofloat` is `todouble`.
- Class names read through `javaClass.simpleName` (src/main/kotlin/dev/znci/twine/nativex/conversion/Converter.kt:216, src/main/kotlin/dev/znci/twine/TwineNative.kt:330, src/main/kotlin/dev/znci/twine/TwineLuaValue.kt:96) are placeholders for two kinds of value. `Lua.LuaSimpleName(Func)` is "LuaFunction", where LuaJ gives "LuaClosure" for a compiled Lua function and the implementing class's name for a library function. `SimpleName(HCallback)` is "Function", where Kotlin gives the generated lambda class's name.
- Doubles are modelled as real numbers. Rounding, NaN and LuaJ's turning integral doubles into integers are not modelled.
- Numeric strings are not modelled. A string always infers as String, though LuaJ's `isnumber()` would infer Double for "12". `toint`/`todouble` of a string read 0, though LuaJ parses numeric strings.
- LuaJ's `length()` is a border search upward from 0. Only the border is modelled, not LuaJ's array-part layout.
- Only string and integer keys are modelled. A key of any other Lua type is not part of the model.
- The bodies of the Function0..Function3 callbacks (src/main/kotlin/dev/znci/twine/nativex/conversion/Converter.kt:108-138 and src/main/kotlin/dev/znci/twine/TwineNative.kt:260-268) are not modelled; only the arity choice and the error for other types are.
- `printStackTrace` and the `println` at src/main/kotlin/dev/znci/twine/TwineLuaValue.kt:89 are not modelled: they produce output only.
- The property hooks capture the property map when they are installed; the model holds that map in the hook. What a getter or setter does to the object is the Host's business.
- TwineEnum's init writes two raw `__index` entries onto the enum table (src/main/kotlin/dev/znci/twine/TwineEnum.kt:16-30). They are not modelled, because they are raw entries, not hooks, and they protect nothing.
- `TwineEnum.getEnumValue` and `TwineEnumValue.toJava` (src/main/kotlin/dev/znci/twine/TwineEnum.kt:59-70, 144-147) are not modelled: they read a field by reflection.
- `valueName` and TwineValueBase are not modelled: they only name a global.
- src/main/kotlin/dev/znci/twine/nativex/conversion/Converter.kt:65-73 is not modelled: it is unreachable, because the branch at line 45 returns for every vararg function.
- The "No overloaded functions found" check at src/main/kotlin/dev/znci/twine/nativex/FunctionRegistrar.kt:74-75 is not modelled. Groups are never empty (`Functions.GroupsCharacterized`), so it cannot fire.
- The "No matching function found" branch at src/main/kotlin/dev/znci/twine/nativex/FunctionRegistrar.kt:127-129 is modelled in `Functions.Overloaded` for an empty group, which registration never builds, so it cannot fire.
- The catch blocks of fromJSON and handleJsonPrimitive (src/main/kotlin/dev/znci/twine/TwineLuaValue.kt:148-151, 229-231) are not modelled. No exception can reach them here, because setSimple with a string or integer key and a supported value does not fail.
- Json.ToJson: the as-written table branch does not terminate, so it is modelled as its outcome, a StackOverflowError, not as a loop.
- Legacy.KotlinType: the function case assumes that kotlin-reflect's `createType()` with no argument, for `Function`'s one type parameter, throws IllegalArgumentException.
- The tests of `toLuaTable` in src/test/kotlin/dev/znci/twine/TwineEnumTest.kt expect integer ordinals as entry values; the code stores record tables, and the model follows the code.
- dev.znci.twine.nativex.TwineNative (src/main/kotlin/dev/znci/twine/nativex/TwineNative.kt) is not modelled separately. It only runs the two registrars in order, which `Functions.FunctionRegistrar.Register` and `Properties.PropertyRegistrar.RegisterProperties` cover.
- TwineProperty.kt and the annotation files are not modelled: they hold no logic.
- Converter.TaggedTable: the `set("__javaClass", ...)` call on a returned TwineTable (src/main/kotlin/dev/znci/twine/nativex/conversion/Converter.kt:180-184) is modelled only by its effect on reads: `__javaClass` answers the class name. The call also mutates that TwineTable's metatable in place. It chains a new getter hook and a new `__newindex` setter hook with no setter, and one more layer is added each time the same table is returned. Converter.ToLuaValue therefore does not capture the update in place, the aliasing of the returned table with the Kotlin object, or the dropping of writes to new keys that the setter hook causes, because `Lua.Value` holds no `__newindex` hook.
- Legacy.LuaImage: the same `set("__javaClass", ...)` mutation at src/main/kotlin/dev/znci/twine/TwineNative.kt:296-300 is modelled only by its effect on reads, as for Converter.TaggedTable; Legacy.ToLuaValue does not capture the in-place update of the table's metatable either.
- Lua.Get: a table whose `__index` hook is a property registrar's fails with "No property '<k>'" (src/main/kotlin/dev/znci/twine/nativex/PropertyRegistrar.kt:34, src/main/kotlin/dev/znci/twine/TwineNative.kt:174) for a key it neither holds nor maps, but `Lua.Value` does not record which hook a table has, so such a read is nil here. The hook-level read, `Tables.ReadIndex`, does model the failure.
- ClassMapper.CtorArgs: reading a missing parameter name (src/main/kotlin/dev/znci/twine/nativex/conversion/ClassMapper.kt:54) from a property-hooked table raises "No property '<name>'", which the model reads as nil, so it does not capture that failure. The same holds for Legacy.CtorArgs (src/main/kotlin/dev/znci/twine/TwineNative.kt:375) and for the legacy type inference's call of toClass (src/main/kotlin/dev/znci/twine/TwineNative.kt:232-238), whose catch would turn it into LuaTable.
- ConstructorArgumentsByName (`ClassMapper.ConstructorArgumentsByName`): the null argument for a missing name is only promised for a table whose hook does not raise, for the reason given under Lua.Get.
- ConstructedObject (`ClassMapper.ConstructedObject`): the success condition does not include the "No property" failure a property-hooked table raises for a missing parameter name, for the reason given under Lua.Get.
- KotlinValue (`Legacy.KotlinValue`): a declared Function0 is the opaque result of calling the Lua function (`HInvoked`). A Lua error raised by that call (src/main/kotlin/dev/znci/twine/TwineNative.kt:258) is not modelled, so the conversion never fails here.
- SetProperty (`Legacy.SetProperty`): for a declared Function0, a Lua error from calling the function is caught (src/main/kotlin/dev/znci/twine/TwineNative.kt:194-196) and reported as "Error setting '<prop>': <message>". The model does not capture that failure, for the reason given under Legacy.KotlinValue.
- Legacy.CtorArgs and Legacy.KotlinArgs: for a declared Function0, the Lua error from the call at src/main/kotlin/dev/znci/twine/TwineNative.kt:258 would escape the conversion; the model does not capture it, for the reason given under Legacy.KotlinValue.

## Findings

| source | as written | input that shows it | evidently intended | confidence | as-written member | corrected member |
|---|---|---|---|---|---|---|
| src/main/kotlin/dev/znci/twine/TwineEnum.kt:93 | the bound check rejects only `ordinal > constants.size`, so `ordinal == size` reaches `constants[ordinal]` | a record with the enum's simple name and ordinal equal to the number of constants: isValidValue throws ArrayIndexOutOfBoundsException instead of returning false | `ordinal >= constants.size` is rejected, so isValidValue is a total predicate | not executed | Enums.OrdinalAtCountThrows | Enums.TwineEnum.ToJava |
| src/main/kotlin/dev/znci/twine/nativex/FunctionRegistrar.kt:102-120 | the resolving wrapper calls `call(this, ...)` inside its own VarArgFunction object, so the receiver is the wrapper, and reflection refuses it with an IllegalArgumentException before the callee runs | `test.testVarargStr('Hello', 'World')` (src/test/kotlin/dev/znci/twine/TwineNativeTest.kt:50): "Error calling testVarargStr: ..." instead of "Hello, World"; every call of an exposed name reaches this wrapper | `call(owner, ...)`, as the direct wrapper at line 42 does, so the chosen function runs on the bridged object | not executed | Functions.WrongReceiverRefusesEveryCall | Functions.Overloaded |
| src/main/kotlin/dev/znci/twine/TwineLuaValue.kt:242-250 | the table branch calls `toJSON(value)` on the same receiver for every key | toJSON on any non-empty table, for example the table fromJSON builds from {"a": "x"}: unbounded recursion | each member is the JSON of that key's value, so fromJSON followed by toJSON gives the object back | not executed | Json.JsonRoundTripAsWritten | Json.FixedRoundTrip |
