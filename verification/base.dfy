/**
 * Shared vocabulary: optional values, results that carry a JVM throwable,
 * decimal rendering of integers (Kotlin's Int.toString) and 32-bit wrap-around
 * (Kotlin's Long.toInt()).
 */
module Base {

  datatype Option<+T> = None | Some(value: T)

  /** The kinds of throwable the bridge raises or lets through. */
  datatype ExnKind =
    | TwineError                // dev.znci.twine.TwineError
    | LuaError                  // org.luaj.vm2.LuaError, raised by LuaValue.error
    | InvocationTarget          // reflection's wrapper around an exception thrown by the callee
    | IllegalArgument           // kotlin.IllegalArgumentException
    | ClassCast                 // java.lang.ClassCastException
    | IndexOutOfBounds          // java.lang.IndexOutOfBoundsException
    | StackOverflow             // java.lang.StackOverflowError
    | OtherThrowable(className: string)

  /** A JVM throwable: its class, its (nullable) message and its (nullable) cause. */
  datatype Throwable = Throwable(kind: ExnKind, message: Option<string>, cause: Option<Throwable>)

  function TwineErr(msg: string): (e: Throwable)
    ensures e.kind == TwineError && e.message == Some(msg) && e.cause == None
  {
    Throwable(TwineError, Some(msg), None)
  }

  function LuaErr(msg: string): (e: Throwable)
    ensures e.kind == LuaError && e.message == Some(msg) && e.cause == None
  {
    Throwable(LuaError, Some(msg), None)
  }

  /** Kotlin renders a null message inside a string template as "null". */
  function MessageText(m: Option<string>): string
  {
    match m
    case Some(s) => s
    case None => "null"
  }

  /** Either a value or the throwable that the Kotlin code raises instead. */
  datatype Result<+T> = Ok(value: T) | Err(error: Throwable)
  {
    predicate IsFailure() { Err? }

    function PropagateFailure<U>(): Result<U>
      requires Err?
    {
      Err(error)
    }

    function Extract(): T
      requires Ok?
    {
      value
    }
  }

  // ---------------------------------------------------------------------
  // Decimal text of integers

  function DigitChar(d: nat): (c: char)
    requires d < 10
    ensures '0' <= c <= '9'
  {
    "0123456789"[d]
  }

  lemma DigitCharInjective(a: nat, b: nat)
    requires a < 10 && b < 10
    ensures DigitChar(a) == DigitChar(b) ==> a == b
  {
  }

  /** Kotlin's toString of a non-negative integer: no leading zeros. */
  function NatText(n: nat): (s: string)
    ensures |s| >= 1
    ensures n < 10 <==> |s| == 1
    ensures s[|s| - 1] == DigitChar(n % 10)
    ensures forall i :: 0 <= i < |s| ==> '0' <= s[i] <= '9'
    decreases n
  {
    if n < 10 then [DigitChar(n)] else NatText(n / 10) + [DigitChar(n % 10)]
  }

  /** Distinct numbers are rendered as distinct strings. */
  lemma {:induction false} NatTextInjective(a: nat, b: nat)
    ensures NatText(a) == NatText(b) ==> a == b
    decreases a
  {
    if NatText(a) == NatText(b) {
      var s := NatText(a);
      DigitCharInjective(a % 10, b % 10);
      if a >= 10 && b >= 10 {
        assert NatText(a)[..|s| - 1] == NatText(a / 10);
        assert NatText(b)[..|s| - 1] == NatText(b / 10);
        NatTextInjective(a / 10, b / 10);
      }
    }
  }

  /** Kotlin's Int.toString / Long.toString. */
  function IntText(i: int): (s: string)
    ensures |s| >= 1
  {
    if i < 0 then "-" + NatText(-i) else NatText(i)
  }

  // ---------------------------------------------------------------------
  // 32-bit integers

  const TwoTo31: int := 0x8000_0000
  const TwoTo32: int := 0x1_0000_0000

  predicate IsInt32(x: int) { -TwoTo31 <= x < TwoTo31 }

  /** Kotlin's Long.toInt(): keep the low 32 bits, read them as two's complement. */
  function Wrap32(x: int): (r: int)
    ensures IsInt32(r)
    ensures (r - x) % TwoTo32 == 0
    ensures IsInt32(x) ==> r == x
  {
    var low := (x + TwoTo31) % TwoTo32;
    assert IsInt32(x) ==> low == x + TwoTo31;
    low - TwoTo31
  }

  /** Java's (int) cast of a double, toward zero (saturation and NaN are not modelled). */
  function Truncate(d: real): (r: int)
    ensures 0.0 <= d ==> r as real <= d < r as real + 1.0
    ensures d < 0.0 ==> r as real - 1.0 < d <= r as real
  {
    if d >= 0.0 then d.Floor else -((-d).Floor)
  }
}
