/** Small shared datatypes: an optional value, and the outcome of a network request
    as the page sees it (a parsed ok response, or anything else). */
module Common {

  /** A value that may be absent (JavaScript `null` / `undefined`). */
  datatype Option<T> = None | Some(value: T)

  /** The outcome of one `fetch` as observed by a handler: `Ok(data)` when the
      response was ok and its JSON body was read, `Failed` when the response was not
      ok or the request or the body parsing threw. */
  datatype Response<T> = Ok(data: T) | Failed
}
