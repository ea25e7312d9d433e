/** Failure outcomes of the decoder and the Result type that carries them. */
module Results {

  /** Every way a lookup can end without a value. */
  datatype Error =
    | OutOfBounds    // a slice or array index outside its bounds: a panic in the source
    | InvalidUtf8    // String::from_utf8 rejected the bytes of a string field
    | UnexpectedEof  // the header cursor ran out of bytes before the header was complete
    | WrongFamily    // an IPv6 query against a database without IPv6 ranges
    | Overflow       // `mid - 1` with `mid == 0` in the binary search: usize underflow

  datatype Option<+T> = None | Some(value: T)

  /** Failure-compatible result, so that `:-` propagates an error as `?` does. */
  datatype Result<+T> = Ok(value: T) | Err(error: Error) {
    predicate IsFailure() { Err? }

    function PropagateFailure<U>(): Result<U>
      requires Err?
    {
      Err(error)
    }

    function Extract(): T
      requires Ok?
    {
      value
    }
  }
}
