/** Bytes, 256-bit hashes, 64-bit arithmetic and the result types shared by every module. */
module Basics {

  datatype Option<+T> = None | Some(value: T)

  /** A result whose error carries the reason; usable with `:-`. */
  datatype Result<+T, +E> = Ok(value: T) | Err(error: E) {
    predicate IsFailure() { Err? }

    function PropagateFailure<U>(): Result<U, E>
      requires Err?
    {
      Err(error)
    }

    function Extract(): T
      requires Ok?
    {
      value
    }
  }

  type Byte = x: int | 0 <= x < 256

  /** The value of an unsigned 64-bit integer; every operation on it says how it overflows. */
  const U64_MAX: int := 0xFFFF_FFFF_FFFF_FFFF
  type U64 = x: int | 0 <= x <= U64_MAX

  /** B256, and the consensus digest that wraps it transparently. */
  datatype RawHash = Hash(bytes: seq<Byte>)
  type Hash = h: RawHash | |h.bytes| == 32 witness Hash(seq(32, _ => 0))

  /** `B256::ZERO`, which is also the EMPTY digest consensus uses for genesis. */
  const EMPTY: Hash := Hash([0, 0, 0, 0, 0, 0, 0, 0, 0, 0, 0, 0, 0, 0, 0, 0,
                            0, 0, 0, 0, 0, 0, 0, 0, 0, 0, 0, 0, 0, 0, 0, 0])

  /** A raw public key; nothing here depends on its structure. */
  type Key = seq<Byte>

  function Max(a: int, b: int): int {
    if a < b then b else a
  }

  function Min(a: int, b: int): int {
    if a < b then a else b
  }

  function SaturatingAdd(a: U64, b: U64): U64 {
    Min(a + b, U64_MAX)
  }

  function SaturatingMul(a: U64, b: U64): (r: U64)
    ensures r == Min(a * b, U64_MAX)
  {
    if a * b <= U64_MAX then a * b else U64_MAX
  }
}
