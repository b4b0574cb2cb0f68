/** Small value types shared by the components. */
module Common {

  /** A value that may be absent: a missing optional field, an unset environment variable. */
  datatype Option<T> = None | Some(value: T) {
    function GetOr(default: T): T {
      match this
      case Some(v) => v
      case None => default
    }
  }

  /** What a JavaScript `catch (error)` receives: an `Error` object or any other thrown value. */
  datatype Thrown = ErrorObject(message: string) | OtherValue

  /** The result of a call into the runtime that may throw. */
  datatype Attempt<T> = Returned(value: T) | Threw(error: Thrown)

  /** `error instanceof Error ? error.message : "Unknown error"` */
  function ErrorText(e: Thrown): string {
    match e
    case ErrorObject(m) => m
    case OtherValue => "Unknown error"
  }
}
