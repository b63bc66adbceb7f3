/** The kernel's error taxonomy: a base error carrying a numeric code and three
    subclasses, each with a fixed code and a fixed message prefix. The guest sees
    only `(errorCode, message)`, so that pair is what the model keeps. */
module KernelErrors {
  import opened Common

  /** The three subclasses of the base kernel error. */
  datatype ErrorClass = InvalidArgument | Internal | MemoryOutOfBounds

  /** A kernel error as the bridge observes it: its class name, its code and its
      full message. */
  datatype KernelError = KernelError(name: string, errorCode: int, message: string)

  const INVALID_ARGUMENT_CODE: int := 10000
  const INTERNAL_ERROR_CODE: int := 10001
  const MEMORY_OUT_OF_BOUNDS_CODE: int := 10002

  function Code(c: ErrorClass): int {
    match c
    case InvalidArgument => INVALID_ARGUMENT_CODE
    case Internal => INTERNAL_ERROR_CODE
    case MemoryOutOfBounds => MEMORY_OUT_OF_BOUNDS_CODE
  }

  function Prefix(c: ErrorClass): string {
    match c
    case InvalidArgument => "Invalid argument: "
    case Internal => "Internal error: "
    case MemoryOutOfBounds => "MemoryOutOfBounds error: "
  }

  function ClassName(c: ErrorClass): string {
    match c
    case InvalidArgument => "InvalidArgumentError"
    case Internal => "InternalError"
    case MemoryOutOfBounds => "MemoryOutOfBounds"
  }

  /** The base class: any code, the message as given. */
  function BaseError(errorCode: int, message: string): (e: KernelError)
    ensures e.errorCode == errorCode && e.message == message
    ensures ClassOf(e.errorCode).None? ==> CauseOf(e).None?
  {
    KernelError("WeiruiKernelError", errorCode, message)
  }

  /** Constructs the subclass `c` around the cause text `msg`. */
  function MakeError(c: ErrorClass, msg: string): (e: KernelError)
    ensures e.errorCode == Code(c)
    ensures |Prefix(c)| <= |e.message| && e.message[..|Prefix(c)|] == Prefix(c)
    ensures e.message[|Prefix(c)|..] == msg
    ensures ClassOf(e.errorCode) == Some(c)
    ensures CauseOf(e) == Some(msg)
  {
    KernelError(ClassName(c), Code(c), Prefix(c) + msg)
  }

  function InvalidArgumentError(msg: string): (e: KernelError)
    ensures e.errorCode == 10000
    ensures e.message == "Invalid argument: " + msg
    ensures CauseOf(e) == Some(msg)
  {
    MakeError(InvalidArgument, msg)
  }

  function InternalError(msg: string): (e: KernelError)
    ensures e.errorCode == 10001
    ensures e.message == "Internal error: " + msg
    ensures CauseOf(e) == Some(msg)
  {
    MakeError(Internal, msg)
  }

  function MemoryOutOfBoundsError(msg: string): (e: KernelError)
    ensures e.errorCode == 10002
    ensures e.message == "MemoryOutOfBounds error: " + msg
    ensures CauseOf(e) == Some(msg)
  {
    MakeError(MemoryOutOfBounds, msg)
  }

  /** Recovers the subclass from a code; codes outside the taxonomy have none. */
  function ClassOf(code: int): (c: Option<ErrorClass>)
    ensures c.Some? <==> 10000 <= code <= 10002
  {
    if code == INVALID_ARGUMENT_CODE then Some(InvalidArgument)
    else if code == INTERNAL_ERROR_CODE then Some(Internal)
    else if code == MEMORY_OUT_OF_BOUNDS_CODE then Some(MemoryOutOfBounds)
    else None
  }

  /** The cause text wrapped by a subclass error: its message with the class's
      prefix removed. */
  function CauseOf(e: KernelError): (cause: Option<string>)
    ensures cause.Some? ==> ClassOf(e.errorCode).Some?
    ensures cause.Some? ==> e.message == Prefix(ClassOf(e.errorCode).value) + cause.value
  {
    match ClassOf(e.errorCode)
    case None => None
    case Some(c) =>
      var p := Prefix(c);
      if |p| <= |e.message| && e.message[..|p|] == p then
        assert e.message == p + e.message[|p|..];
        Some(e.message[|p|..])
      else None
  }

  /** Distinct classes have distinct codes, so a code identifies its class. */
  lemma CodesDistinct(c1: ErrorClass, c2: ErrorClass)
    ensures Code(c1) == Code(c2) <==> c1 == c2
  {
  }

  /** Building an error and reading it back recovers both the class and the
      cause: no information is lost in the `(code, message)` pair. */
  lemma ErrorRoundTrip(c: ErrorClass, msg: string, e: KernelError)
    requires e.errorCode == Code(c) && e.message == Prefix(c) + msg
    ensures ClassOf(e.errorCode) == Some(c) && CauseOf(e) == Some(msg)
  {
    assert e.message[..|Prefix(c)|] == Prefix(c);
    assert e.message[|Prefix(c)|..] == msg;
  }
}
