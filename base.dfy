/**
 * Shared vocabulary of the libocxl model: the library's error codes, a
 * Result wrapper for operations that either produce a value or fail with one
 * of those codes, and the fixed-width C integer ranges the library relies on.
 */
module Base {

  /** The ocxl_err codes returned by every fallible libocxl entry point. */
  datatype Err =
    | OK
    | NoMem
    | NoDev
    | NoContext
    | NoIrq
    | InternalError
    | AlreadyDone
    | OutOfBounds
    | NoMoreContexts
    | InvalidArgs

  datatype Option<T> = None | Some(value: T)

  datatype Result<T> = Ok(value: T) | Fail(err: Err)
  {
    predicate IsOk() { Ok? }
  }

  const TWO_8: int := 0x100
  const TWO_16: int := 0x1_0000
  const TWO_32: int := 0x1_0000_0000
  const TWO_63: int := 0x8000_0000_0000_0000
  const TWO_64: int := 0x1_0000_0000_0000_0000

  /** C unsigned integer ranges. */
  type u8 = x: int | 0 <= x < 0x100
  type u16 = x: int | 0 <= x < 0x1_0000
  type u32 = x: int | 0 <= x < 0x1_0000_0000
  type u64 = x: int | 0 <= x < 0x1_0000_0000_0000_0000

  /** off_t / int64_t on the 64-bit Linux targets libocxl supports. */
  type i64 = x: int | -0x8000_0000_0000_0000 <= x < 0x8000_0000_0000_0000

  /** Reduction of an arbitrary integer into size_t (unsigned 64-bit wrap-around). */
  function WrapU64(x: int): (r: u64)
    ensures 0 <= x < TWO_64 ==> r == x
    ensures -TWO_64 <= x < 0 ==> r == x + TWO_64
    ensures TWO_64 <= x < 2 * TWO_64 ==> r == x - TWO_64
  {
    x % TWO_64
  }

  /** Reinterpretation of a size_t bit pattern as a signed off_t (two's complement). */
  function AsSigned64(x: u64): (r: i64)
    ensures r >= 0 <==> x < TWO_63
    ensures r == x || r == x - TWO_64
  {
    if x < TWO_63 then x else x - TWO_64
  }

  /** C integer division of `a` by positive `b`, which truncates toward zero. */
  function TruncDiv(a: int, b: int): (q: int)
    requires b > 0
    ensures a >= 0 ==> q * b <= a < q * b + b
    ensures a < 0 ==> q * b >= a > q * b - b
  {
    if a >= 0 then a / b else -((-a) / b)
  }
}
