/**
  Shared vocabulary of the requestr crate (src/lib.rs): the public error enum,
  the Option/Result wrappers the Rust code returns, the fixed-width integer
  types that appear in status handling, and the HTTP success class that every
  status check is measured against.
 */
module Requestr {

  /** Rust's `u16`, the width of `Error::StatusCode` and of every reported status. */
  type uint16 = x: int | 0 <= x < 0x1_0000

  /** Rust's `i32`, the width of WinRT's `HttpStatusCode`. */
  type int32 = x: int | -0x8000_0000 <= x < 0x8000_0000

  /** Rust's `isize` on the 64-bit targets, the width of `NSHTTPURLResponse.statusCode`. */
  type int64 = x: int | -0x8000_0000_0000_0000 <= x < 0x8000_0000_0000_0000

  type byte = x: int | 0 <= x < 0x100

  datatype Option<T> = None | Some(value: T)

  datatype Result<T, E> = Ok(value: T) | Err(error: E)

  /**
    The crate's `Error` enum. The platform error and the pcore error are opaque
    native values; the model keeps only an integer code for each.
   */
  datatype Error =
    | InvalidURL(url: string)
    | PlatformError(platform: int)
    | PcoreError(pcore: int)
    | StatusCode(status: uint16)

  /**
    The "Successful" class of HTTP status codes (RFC 9110, section 15.3):
    the class of a status code is its hundreds digit (its first digit for
    three-digit codes), here 2. This is the reference every status check of
    the crate is compared with.
   */
  predicate IsSuccessClass(code: int) {
    code / 100 == 2
  }

  /** The 2xx class is exactly the closed range the Rust code compares against. */
  lemma SuccessClassIsRange(code: int)
    ensures IsSuccessClass(code) <==> 200 <= code <= 299
  {
  }

  /**
    Rust's truncating cast `status as u16` from an `i32`: the low sixteen bits,
    read as unsigned.
   */
  function AsU16(x: int32): (r: uint16)
    ensures (x - r) % 0x1_0000 == 0
    ensures 0 <= x < 0x1_0000 ==> r == x
  {
    x % 0x1_0000
  }
}
