/** Types every part of the model shares. */
module Prelude {

  datatype Option<+T> = None | Some(value: T) {
    function GetOr(default: T): T {
      if None? then default else value
    }
  }

  datatype Result<+T, +E> = Ok(value: T) | Err(error: E)

  /** One more than the largest 64-bit unsigned integer. */
  const TWO_TO_THE_64: nat := 0x1_0000_0000_0000_0000

  /** One more than the largest 32-bit unsigned integer. */
  const TWO_TO_THE_32: nat := 0x1_0000_0000

  lemma ConcatAssoc<T>(a: seq<T>, b: seq<T>, c: seq<T>)
    ensures (a + b) + c == a + (b + c)
  {
  }

  function Min(a: int, b: int): int {
    if a <= b then a else b
  }

  function Max(a: int, b: int): int {
    if a <= b then b else a
  }
}
