/** Types every module shares. */
module Prelude {

  datatype Option<+T> = None | Some(value: T) {
    predicate IsFailure() {
      None?
    }

    function PropagateFailure<U>(): Option<U>
      requires None?
    {
      None
    }

    function Extract(): T
      requires Some?
    {
      value
    }
  }

  /** A value or one of the source's failure codes; usable with `:-`. */
  datatype Result<+T> = Ok(value: T) | Err(code: string) {
    predicate IsFailure() {
      Err?
    }

    function PropagateFailure<U>(): Result<U>
      requires Err?
    {
      Err(code)
    }

    function Extract(): T
      requires Ok?
    {
      value
    }
  }

  type byte = b: int | 0 <= b < 256

  type Bytes = seq<byte>

  const INT64_LIMIT := 0x8000_0000_0000_0000

  type int64 = n: int | -INT64_LIMIT <= n < INT64_LIMIT
}
