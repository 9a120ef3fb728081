/** What the TypeScript code returns and throws, as values. */
module Outcomes {

  datatype Option<+T> = None | Some(value: T) {
    function GetOr(default: T): T
    {
      match this
      case Some(v) => v
      case None => default
    }
  }

  /** What a `throw` carries: an `Error` object with its message, or some other value. */
  datatype Failure = Error(message: string) | NonError

  /** A call that either returns a value or throws. */
  datatype Result<+T> = Ok(value: T) | Err(failure: Failure)

  /** The message the conversion endpoint reports for a thrown value
      (`error instanceof Error ? error.message : "Conversion failed"`). */
  function MessageOf(f: Failure): string
  {
    match f
    case Error(m) => m
    case NonError => "Conversion failed"
  }
}
