/** Failure-compatible wrappers used throughout the model. */
module Wrappers {

  datatype Option<+T> = None | Some(value: T)

  datatype Result<+R, +E> = Success(value: R) | Failure(error: E) {

    predicate IsFailure() {
      Failure?
    }

    function PropagateFailure<U>(): Result<U, E>
      requires Failure?
    {
      Failure(error)
    }

    function Extract(): R
      requires Success?
    {
      value
    }
  }
}

/** The kinds of exception that can escape the processing of one message. */
module Errors {

  datatype Error =
    | ParseError     // malformed body, or a missing `object_key`, `face`, `x` or `y`
    | FetchError     // the photo could not be read from the photo bucket
    | DecodeError    // the photo bytes are not an image
    | GeometryError  // fewer than two distinct x or y values (IndexError)
    | EncodeError    // the crop cannot be written as JPEG
    | StoreError     // the face bucket rejected the write
    | DatabaseError  // the insert transaction failed
}
