/** Small shared types. */
module Base {
  datatype Option<+T> = None | Some(value: T)

  datatype Result<+T> = Ok(value: T) | Err(error: string) {
    predicate IsFailure() {
      Err?
    }

    function PropagateFailure<U>(): Result<U>
      requires Err?
    {
      Err(error)
    }

    function Extract(): T
      requires Ok?
    {
      value
    }
  }

  newtype byte = b: int | 0 <= b < 256

  type Bytes = seq<byte>

  /** The largest value of the source's `usize` on a 64-bit target. */
  const USIZE_MAX: nat := 0xFFFF_FFFF_FFFF_FFFF

  function Min(a: int, b: int): int {
    if a < b then a else b
  }

  function Max(a: int, b: int): int {
    if a < b then b else a
  }

  /** `usize::saturating_add`. */
  function SatAdd(a: nat, b: nat): nat {
    Min(a + b, USIZE_MAX)
  }

  /** `usize::saturating_mul`. */
  function SatMul(a: nat, b: nat): nat {
    Min(a * b, USIZE_MAX)
  }
}
