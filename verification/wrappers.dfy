/** Failure-carrying values shared by every module of the model.

- Option<T> stands for a JavaScript value that may be `null` / `undefined`.
- Result<T> stands for an operation that either produces a value or throws an
  `Error` whose message is the string carried by `Err`.
- Thrown stands for whatever a `catch` clause receives: an `Error` instance
  (with its message) or some other thrown value.
- DbReply stands for the `{ error }` half of a hosted-database reply.
 */
module Wrappers {

  datatype Option<+T> = None | Some(value: T) {

    /** The carried value, or `default` when absent. */
    function GetOr(default: T): T {
      match this
      case Some(v) => v
      case None => default
    }
  }

  datatype Result<+T> = Ok(value: T) | Err(message: string)

  /** A value received by a `catch` clause. */
  datatype Thrown = ErrorValue(message: string) | OtherValue

  /** The error part of a database reply: no error, or an error with its code and message. */
  datatype DbReply = DbOk | DbError(code: string, message: string)
}
