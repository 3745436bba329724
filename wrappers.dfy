/** Failure-carrying return types shared by every module of the model. */
module Wrappers {

  datatype Option<T> = None | Some(value: T)

  /** What the modelled code can fail with:
      - OutOfRange: a `std::out_of_range` thrown by a range check or by `vector::at`;
      - AssertionFailure: a failed `assert` (the model follows a build without NDEBUG);
      - LogicError: the `std::logic_error` thrown by ASSERT_NOT_REACHED. */
  datatype Error = OutOfRange | AssertionFailure | LogicError

  datatype Result<T> = Ok(value: T) | Err(error: Error)

  /** Result of an operation that changes state and returns nothing else. */
  datatype Outcome = Pass | Fail(error: Error)
}
