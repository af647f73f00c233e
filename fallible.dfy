/** Failure-compatible result types shared by the decoder model. */
module Fallible {

  /** The messages of the runtime panics every module can raise. */
  const SUB_OVERFLOW: string := "attempt to subtract with overflow"
  const NEG_OVERFLOW: string := "attempt to negate with overflow"
  const UNWRAP_NONE: string := "called `Option::unwrap()` on a `None` value"
  const INDEX_OUT_OF_BOUNDS: string := "index out of bounds"
  const UNREACHABLE: string := "internal error: entered unreachable code"

  datatype Option<+T> = None | Some(value: T)

  /** Why a decoding step stops: the input stream ran out before a
      `read_exact` was satisfied, or the program panicked (a failed
      `assert!`, an `unwrap` of nothing, an out-of-range index or slice,
      or an arithmetic overflow of a debug build). */
  datatype Error = UnexpectedEof | Panic(reason: string)

  datatype Result<+T> = Ok(value: T) | Err(error: Error) {

    predicate IsFailure() {
      Err?
    }

    function PropagateFailure<U>(): Result<U>
      requires Err?
    {
      Err(error)
    }

    function Extract(): T
      requires Ok?
    {
      value
    }
  }
}
