/**
 * ErrorHandler.throwError: the Lua error the bridge raises when a Kotlin call fails.
 * throwError never returns normally; the model returns the LuaError it raises.
 */
module Errors {
  import opened Base

  /** "Error calling <name>:", where a missing function renders as "null". */
  function ErrorPrefix(functionName: Option<string>): string
  {
    "Error calling " + MessageText(functionName) + ":"
  }

  /** The cause's message when the cause is a TwineError, else the error's own message or a fallback. */
  function Detail(error: Throwable): string
  {
    if error.cause.Some? && error.cause.value.kind == TwineError then MessageText(error.cause.value.message)
    else if error.message.Some? then error.message.value
    else "Unexpected error"
  }

  /** The LuaError throwError raises for `error` thrown while calling `functionName`. */
  function ThrowError(error: Throwable, functionName: Option<string>): (raised: Throwable)
    ensures raised.kind == LuaError && raised.cause == None && raised.message.Some?
    ensures raised.message.value == ErrorPrefix(functionName) + " " + Detail(error)
  {
    LuaErr(ErrorPrefix(functionName) + " " + Detail(error))
  }

  /** The message always starts with the prefix, whatever the error. */
  lemma MessageStartsWithPrefix(error: Throwable, functionName: Option<string>)
    ensures var m := ThrowError(error, functionName).message.value;
      |ErrorPrefix(functionName)| < |m| && m[..|ErrorPrefix(functionName)|] == ErrorPrefix(functionName)
  {
    var m := ThrowError(error, functionName).message.value;
    assert m == ErrorPrefix(functionName) + (" " + Detail(error));
  }

  /** A TwineError cause is reported by its own message, whatever the wrapper says. */
  lemma TwineCauseReported(error: Throwable, functionName: string, msg: string)
    requires error.cause == Some(TwineErr(msg))
    ensures ThrowError(error, Some(functionName)).message == Some("Error calling " + functionName + ": " + msg)
  {
    PrefixText(functionName, msg);
  }

  /**
   * A callee failing with anything but a TwineError, wrapped by reflection in an
   * InvocationTargetException (whose message is null), is reported as "Unexpected error".
   */
  lemma OtherCauseIsUnexpected(cause: Throwable, functionName: string)
    requires cause.kind != TwineError
    ensures ThrowError(Throwable(InvocationTarget, None, Some(cause)), Some(functionName)).message
      == Some("Error calling " + functionName + ": Unexpected error")
  {
    PrefixText(functionName, "Unexpected error");
    assert "Error calling " + functionName + ": Unexpected error"
      == "Error calling " + functionName + ": " + "Unexpected error";
  }

  /** An error without a cause (such as a TwineError raised by the bridge) reports its own message. */
  lemma OwnMessageReported(error: Throwable, functionName: string)
    requires error.cause == None && error.message.Some?
    ensures ThrowError(error, Some(functionName)).message
      == Some("Error calling " + functionName + ": " + error.message.value)
  {
    PrefixText(functionName, error.message.value);
  }

  lemma PrefixText(functionName: string, detail: string)
    ensures ErrorPrefix(Some(functionName)) + " " + detail == "Error calling " + functionName + ": " + detail
  {
    assert ErrorPrefix(Some(functionName)) + " " == "Error calling " + functionName + ": ";
  }
}
