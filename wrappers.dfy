/** Option and the reply of a request handler. */
module Wrappers {

  datatype Option<+T> = None | Some(value: T)

  /** What an Express handler answers: the document it sends with a 2xx
      status, or an error status with the messages of its JSON body (the
      validator messages for a 400 from express-validator, otherwise the
      single `message`). */
  datatype Reply<+T> = Ok(value: T) | Err(status: nat, messages: seq<string>)

  /** The body every handler's catch block sends. */
  const ServerError: seq<string> := ["Server error"]
}
