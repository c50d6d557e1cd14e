/**
 * The LW3 error codes and their texts (src/noodle.ts). Codes travel as plain
 * numbers, so the text lookup takes any integer: the twelve known codes have
 * fixed texts and every other number, 0 included, reads "Unknown error".
 */
module Noodle {
  import Wrappers

  /** The enumeration `Lw3ErrorCodes`, in declaration order. */
  datatype ErrorCode =
    | None | Syntax | NotFound | AlreadyExists | InvalidValue | IllegalParamCount
    | IllegalOperation | AccessDenied | Timeout | CommandTooLong | InternalError
    | NotImplemented | NodeDisabled

  /** The number an enumeration member stands for. */
  function Number(e: ErrorCode): (n: nat)
    ensures n <= 12
  {
    match e
    case None => 0
    case Syntax => 1
    case NotFound => 2
    case AlreadyExists => 3
    case InvalidValue => 4
    case IllegalParamCount => 5
    case IllegalOperation => 6
    case AccessDenied => 7
    case Timeout => 8
    case CommandTooLong => 9
    case InternalError => 10
    case NotImplemented => 11
    case NodeDisabled => 12
  }

  /** The member a number names, if any. */
  function MemberOf(n: int): (r: Wrappers.Option<ErrorCode>)
    ensures r.Some? <==> 0 <= n <= 12
    ensures r.Some? ==> Number(r.value) == n
  {
    if n == 0 then Wrappers.Some(None)
    else if n == 1 then Wrappers.Some(Syntax)
    else if n == 2 then Wrappers.Some(NotFound)
    else if n == 3 then Wrappers.Some(AlreadyExists)
    else if n == 4 then Wrappers.Some(InvalidValue)
    else if n == 5 then Wrappers.Some(IllegalParamCount)
    else if n == 6 then Wrappers.Some(IllegalOperation)
    else if n == 7 then Wrappers.Some(AccessDenied)
    else if n == 8 then Wrappers.Some(Timeout)
    else if n == 9 then Wrappers.Some(CommandTooLong)
    else if n == 10 then Wrappers.Some(InternalError)
    else if n == 11 then Wrappers.Some(NotImplemented)
    else if n == 12 then Wrappers.Some(NodeDisabled)
    else Wrappers.None
  }

  /** The members are numbered 0..12 without gaps or repeats. */
  lemma NumberingConsecutive(e: ErrorCode)
    ensures MemberOf(Number(e)) == Wrappers.Some(e)
  {
  }

  lemma NumberInjective(a: ErrorCode, b: ErrorCode)
    requires Number(a) == Number(b)
    ensures a == b
  {
    NumberingConsecutive(a);
    NumberingConsecutive(b);
  }

  const UnknownText := "Unknown error"

  /** `getErrorCodeString`: the text shown for an error code. */
  function ErrorCodeString(code: int): (r: string)
    ensures |r| > 0
    ensures r == UnknownText <==> !(1 <= code <= 12)
  {
    if code == 1 then "Syntax error"
    else if code == 2 then "Not exists"
    else if code == 3 then "Already exists"
    else if code == 4 then "Invalid value"
    else if code == 5 then "Illegal parameter count"
    else if code == 6 then "Illegal operation"
    else if code == 7 then "Access denied"
    else if code == 8 then "Timeout"
    else if code == 9 then "Command too long"
    else if code == 10 then "Internal error"
    else if code == 11 then "Not implemented"
    else if code == 12 then "Node disabled or standby mode active"
    else UnknownText
  }

  /**
   * Reading an error text back: the known code it belongs to, or 0 for any
   * other text.
   */
  function CodeOfText(t: string): (c: int)
    ensures 0 <= c <= 12
  {
    if t == "Syntax error" then 1
    else if t == "Not exists" then 2
    else if t == "Already exists" then 3
    else if t == "Invalid value" then 4
    else if t == "Illegal parameter count" then 5
    else if t == "Illegal operation" then 6
    else if t == "Access denied" then 7
    else if t == "Timeout" then 8
    else if t == "Command too long" then 9
    else if t == "Internal error" then 10
    else if t == "Not implemented" then 11
    else if t == "Node disabled or standby mode active" then 12
    else 0
  }

  /**
   * The twelve texts are pairwise distinct: each known code is recovered
   * from its text, and every other code gives the one shared text of 0.
   */
  lemma TextIdentifiesCode(code: int)
    ensures CodeOfText(ErrorCodeString(code)) == if 1 <= code <= 12 then code else 0
  {
  }

  lemma ErrorCodeStringInjective(a: int, b: int)
    requires 1 <= a <= 12 && 1 <= b <= 12 && a != b
    ensures ErrorCodeString(a) != ErrorCodeString(b)
  {
    TextIdentifiesCode(a);
    TextIdentifiesCode(b);
  }

  /** The error object: the code and, as its message, the code's text. */
  datatype Lw3Error = Lw3Error(lw3Error: int, message: string)

  /** `new Lw3Error(code)`. */
  function NewLw3Error(code: int): (e: Lw3Error)
    ensures e.lw3Error == code
    ensures e.message == ErrorCodeString(code)
    ensures CodeOfText(e.message) == if 1 <= code <= 12 then code else 0
  {
    TextIdentifiesCode(code);
    Lw3Error(code, ErrorCodeString(code))
  }
}
