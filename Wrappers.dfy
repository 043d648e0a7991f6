/** Option and Result, the two wrappers every other module uses.
    Kotlin's `T?` becomes `Option<T>`, Kotlin's `Result<T>` becomes `Result<T>`;
    a failure carries the exception's message, which Kotlin allows to be null. */
module Wrappers {

  datatype Option<+T> = None | Some(value: T) {
    function GetOr(default: T): T {
      match this
      case Some(v) => v
      case None => default
    }
  }

  /** The message of a Kotlin/JavaScript exception: `None` is a null message. */
  type Message = Option<string>

  datatype Result<+T> = Success(value: T) | Failure(message: Message)

  /** How Kotlin renders a nullable message inside a string template (`"${e.message}"`). */
  function Render(m: Message): string {
    match m
    case Some(s) => s
    case None => "null"
  }
}
