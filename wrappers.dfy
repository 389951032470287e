/** The optional value used where the client code has `null` or `undefined`,
    and the outcome of a server call, which the model takes as an input. */
module Wrappers {

  datatype Option<+T> = None | Some(value: T)

  /** How a server call ended: with its response body, or with the `message`
      field of the error response ("" when the response carried none). */
  datatype Outcome<+T> = Success(value: T) | Failure(serverMessage: string)

  /** `message || fallback`: an empty (absent) message gives way to the fallback. */
  function OrDefault(message: string, fallback: string): (r: string)
    ensures r == message || r == fallback
    ensures r == "" ==> fallback == ""
    ensures message != "" ==> r == message
  {
    if message == "" then fallback else message
  }
}
