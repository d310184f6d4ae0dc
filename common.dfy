/** Shared wrappers: optional values, the interpreter's failure channel and
    the signed 64-bit integers of the host language. */
module Common {

  datatype Option<T> = None | Some(value: T)

  /** How an operation of the interpreter can fail.
      Raised:    the operation returned an error string (`Err(String)`).
      Panicked:  the host process aborts (integer overflow, `panic!`).
      OutOfFuel: the evaluation budget is used up; it stands for the host's
                 stack exhaustion and for programs that do not terminate. */
  datatype Error = Raised(message: string) | Panicked(message: string) | OutOfFuel

  datatype Result<T> = Ok(value: T) | Err(error: Error) {
    predicate IsFailure() {
      Err?
    }

    function PropagateFailure<U>(): Result<U>
      requires Err?
    {
      Err(error)
    }

    function Extract(): T
      requires Ok?
    {
      value
    }
  }

  const I64_MIN: int := -0x8000_0000_0000_0000
  const I64_MAX: int := 0x7FFF_FFFF_FFFF_FFFF

  /** The values of Rust's `i64`. */
  type Int64 = x: int | I64_MIN <= x <= I64_MAX

  predicate InI64(x: int) {
    I64_MIN <= x <= I64_MAX
  }
}
