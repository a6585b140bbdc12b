/**
 * Basic value types shared by the whole model: bytes, the unsigned 64-bit
 * integers the sources use for tags and versions, and the Option/Result
 * wrappers that stand for Rust's `Option` and `Result`.
 */
module Common {

  /** One `u8`. */
  type Byte = b: int | 0 <= b < 256

  /** A `Vec<u8>`. */
  type Bytes = seq<Byte>

  const U64_LIMIT: int := 0x1_0000_0000_0000_0000

  /** A `u64`. */
  type U64 = x: int | 0 <= x < U64_LIMIT

  datatype Option<+T> = None | Some(value: T)

  datatype Result<+T, +E> = Ok(value: T) | Err(error: E) {
    /** `Result::map`: keeps an error, transforms a success value. */
    function Map<U>(f: T -> U): Result<U, E>
    {
      match this
      case Ok(v) => Ok(f(v))
      case Err(e) => Err(e)
    }
  }

  /** True iff no element of `s` occurs twice. */
  predicate Distinct<T(==)>(s: seq<T>)
  {
    forall i, j :: 0 <= i < j < |s| ==> s[i] != s[j]
  }
}
