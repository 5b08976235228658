/** The failures the modelled operations raise, in place of Java exceptions. */
module Exceptions {
  import opened Wrappers

  /** The codes of JaversException that the modelled code raises. */
  datatype JaversExceptionCode = IdTypeNotSupported | NotImplemented

  datatype Failure =
    /** A JaversException: its code and the names passed to its message. */
    | JaversException(code: JaversExceptionCode, args: seq<string>)
    /** A null argument rejected by the argument validation before any work is done. */
    | NullArgument
    /** A method called on a null reference. */
    | NullPointer

  type Outcome<T> = Result<T, Failure>
}
