/** Option and the handlers' result type: a value, or an HTTP failure carrying
    the status code and the `detail` text the handler raises. */
module Wrappers {

  datatype Option<+T> = None | Some(value: T)

  datatype Result<+T> = Ok(value: T) | Err(status: nat, detail: string)

  /** FastAPI's answer to an exception the handler does not catch. */
  const ServerError: nat := 500
  const InternalServerError: string := "Internal Server Error"

  /** `if value is not None: field = value`, for a non-nullable field. */
  function Given<T>(value: Option<T>, current: T): (r: T)
    ensures value.Some? ==> r == value.value
    ensures value.None? ==> r == current
  {
    if value.Some? then value.value else current
  }

  /** The same for a nullable field: a given value replaces, absence keeps. */
  function GivenOpt<T>(value: Option<T>, current: Option<T>): (r: Option<T>)
    ensures value.Some? ==> r == value
    ensures value.None? ==> r == current
  {
    if value.Some? then value else current
  }
}
