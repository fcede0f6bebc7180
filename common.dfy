/** Option and Result, the error-carrying shapes every other module returns. */
module Common {
  datatype Option<T> = None | Some(value: T)

  datatype Result<T, E> = Ok(value: T) | Err(error: E)

  /** The bytes the engine and the Go binding exchange. */
  newtype uint8 = x: int | 0 <= x < 256

  type Bytes = seq<uint8>

  /** A double, kept as its 64-bit pattern: the binding never computes with floats. */
  type Float64 = x: nat | x < 0x1_0000_0000_0000_0000
}

/** Fixed-width integer ranges and the two's-complement reductions C and Go apply
    when a value is converted to a narrower integer type. */
module Ints {
  const MIN_INT8: int := -0x80
  const MAX_INT8: int := 0x7f
  const MAX_UINT8: int := 0xff
  const MIN_INT16: int := -0x8000
  const MAX_INT16: int := 0x7fff
  const MAX_UINT16: int := 0xffff
  const MIN_INT32: int := -0x8000_0000
  const MAX_INT32: int := 0x7fff_ffff
  const MAX_UINT32: int := 0xffff_ffff
  const MIN_INT64: int := -0x8000_0000_0000_0000
  const MAX_INT64: int := 0x7fff_ffff_ffff_ffff
  const MAX_UINT64: int := 0xffff_ffff_ffff_ffff

  type int32 = x: int | MIN_INT32 <= x <= MAX_INT32
  type int64 = x: int | MIN_INT64 <= x <= MAX_INT64
  type uint32 = x: int | 0 <= x <= MAX_UINT32

  /** The value of the integer type whose values are lo .. lo + m - 1 that is
      congruent to x modulo m: a C cast to a narrower type on a two's-complement
      machine, or a Go integer conversion. */
  function WrapInto(x: int, lo: int, m: nat): (r: int)
    requires m > 0
    ensures lo <= r < lo + m
    ensures lo <= x < lo + m ==> r == x
  {
    lo + (x - lo) % m
  }
}
