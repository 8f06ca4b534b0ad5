/** Outcomes of the request filters and replies of the API handlers,
    in place of the framework's response objects. */
module Responses {

  /** What a request filter decides: forward the request (adding the given
      response headers), redirect the browser, or answer with a JSON error. */
  datatype Response =
    | Next(headers: map<string, string>)
    | Redirect(location: string)
    | Json(status: int, error: string)

  /** The JSON reply of an API handler: a value, or `{ error: ... }`. */
  datatype Reply<T> =
    | Success(status: int, value: T)
    | Failure(status: int, error: string)

  /** A handler's reply together with the record store after the call. */
  datatype Handled<T> = Handled(reply: Reply<T>, store: seq<T>)
}
