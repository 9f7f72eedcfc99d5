/** Option and Result, the two failure-carrying wrappers the model uses. */
module Wrappers {

  /** A value that may be absent (an empty `localStorage` key, no HTTP request). */
  datatype Option<+T> = None | Some(value: T)

  /** How an HTTP exchange can fail: the transport or the server failed, or
      the resource at the requested id does not exist. */
  datatype HttpError = NetworkError | NotFound

  /** What an HTTP exchange delivers to its subscriber: a body, or an error. */
  datatype Result<+T> = Ok(value: T) | Failed(error: HttpError)
}
