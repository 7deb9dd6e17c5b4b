/** Failure values, bytes and machine bounds shared by the whole model. */
module Prelude {

  datatype Option<+T> = None | Some(value: T)

  datatype Result<+T, +E> = Ok(value: T) | Err(error: E) {
    predicate IsFailure() { Err? }

    function PropagateFailure<U>(): Result<U, E>
      requires Err?
    {
      Err(error)
    }

    function Extract(): T
      requires Ok?
    {
      value
    }
  }

  type Byte = b: int | 0 <= b < 256

  type Bytes = seq<Byte>

  /** A sidechain slot number, one byte on the wire. */
  type Slot = s: int | 0 <= s < 256

  const U16_MAX: nat := 0xFFFF
  const U32_MAX: nat := 0xFFFF_FFFF
  const U64_MAX: nat := 0xFFFF_FFFF_FFFF_FFFF

  function SatSub(a: nat, b: nat): nat {
    if a >= b then a - b else 0
  }
}
