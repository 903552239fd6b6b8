/** Outcomes shared by every layer of the model: an optional value, the
    exceptions the modelled code raises or lets through, and a result that is
    either a value or one of those exceptions. */
module Results {

  datatype Option<+T> = None | Some(value: T)

  /** The exceptions that reach a caller of the cache or of the page wrapper. */
  datatype Error =
    | WrongType           // the store's WRONGTYPE reply: a command against a key holding the other kind of value
    | NotAnInteger        // INCR on a value that is not a 64-bit decimal integer
    | IncrOverflow        // INCR on the largest 64-bit integer
    | InvalidExpireTime   // SET with an expiry that is not positive
    | ValueError          // Python's int() on bytes that are not a decimal integer
    | UnicodeDecodeError  // bytes.decode('utf-8') on malformed UTF-8
    | AttributeError      // a method called on None
    | FetchFailed         // the HTTP request raised

  /** A value, or the exception raised instead; usable with `:-`. */
  datatype Result<+T> = Ok(value: T) | Err(error: Error) {

    predicate IsFailure() {
      Err?
    }

    function PropagateFailure<U>(): Result<U>
      requires Err?
    {
      Err(error)
    }

    function Extract(): T
      requires Ok?
    {
      value
    }
  }
}
