/** Failure-compatible result types and the machine integer ranges the system uses. */
module Wrappers {

  datatype Option<+T> = None | Some(value: T) {
    predicate IsFailure() { None? }
    function PropagateFailure<U>(): Option<U>
      requires None?
    {
      None
    }
    function Extract(): T
      requires Some?
    {
      value
    }
  }

  datatype Result<+T, +E> = Ok(value: T) | Err(error: E) {
    predicate IsFailure() { Err? }
    function PropagateFailure<U>(): Result<U, E>
      requires Err?
    {
      Err(error)
    }
    function Extract(): T
      requires Ok?
    {
      value
    }
  }

  /** A check that either passes or stops the enclosing operation with an error. */
  datatype Outcome<+E> = Pass | Fail(error: E) {
    predicate IsFailure() { Fail? }
    function PropagateFailure<U>(): Result<U, E>
      requires Fail?
    {
      Err(error)
    }
  }

  const U32_MAX: nat := 0xFFFF_FFFF
  const U64_MAX: nat := 0xFFFF_FFFF_FFFF_FFFF
  const U128_MAX: nat := 0xFFFF_FFFF_FFFF_FFFF_FFFF_FFFF_FFFF_FFFF
  const I64_MAX: int := 0x7FFF_FFFF_FFFF_FFFF
  const I64_MIN: int := -0x8000_0000_0000_0000

  type I64 = x: int | I64_MIN <= x <= I64_MAX
  type U32 = x: nat | x <= U32_MAX
  type U64 = x: nat | x <= U64_MAX
  type U128 = x: nat | x <= U128_MAX

  /** A length as a 64-bit number. */
  function AsU64(n: nat): (m: U64)
    ensures n <= U64_MAX ==> m == n
  {
    n % (U64_MAX + 1)
  }

  /** A length as a 32-bit number. */
  function AsU32(n: nat): (m: U32)
    ensures n <= U32_MAX ==> m == n
  {
    n % (U32_MAX + 1)
  }

  function Saturating(n: nat): (m: U64)
    ensures m <= n && (n <= U64_MAX ==> m == n)
  {
    if n <= U64_MAX then n else U64_MAX
  }
}
