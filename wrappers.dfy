/** Option and Result, the two failure-carrying shapes every service of the system uses. */
module Wrappers {

  /** `Option<T>` in Rust, or a JavaScript value that may be `null`/`undefined`. */
  datatype Option<+T> = None | Some(value: T)

  /** `Result<T, E>` in Rust; `:-` propagates an `Err` like Rust's `?`. */
  datatype Result<+T, +E> = Ok(value: T) | Err(error: E)
  {
    predicate IsFailure()
    {
      Err?
    }

    function PropagateFailure<U>(): Result<U, E>
      requires Err?
    {
      Err(error)
    }

    function Extract(): T
      requires Ok?
    {
      value
    }
  }
}

/** What an HTTP call of one service to another can come back with; the network itself is not modelled. */
module Http {
  import opened Wrappers

  /**
   * `Failed`: the request could not be sent or no response arrived.
   * `Received`: a response with its status code, its body as text, and what
   * decoding that body as JSON into `T` gives.
   */
  datatype Reply<T> = Failed(message: string) | Received(status: int, text: string, decoded: Result<T, string>)

  /** `response.ok()` / `status().is_success()`: a 2xx status. */
  predicate Success(status: int)
  {
    200 <= status < 300
  }
}
