/** Basic types shared by the datagram engine and the stream fixture. */
module Common {

  /** An octet on the wire. */
  type byte = x: int | 0 <= x < 0x100

  /** Rust's `u64`. */
  type u64 = x: int | 0 <= x < 0x1_0000_0000_0000_0000

  datatype Option<T> = None | Some(value: T)

  /** Transport errors. The engine raises only the first two; every other
      code of the transport's error enum is an opaque tag. */
  datatype Error = TooMuchData | ProtocolViolation | OtherError(tag: nat)

  /** Rust's `Res<T>`: a value or a transport error. */
  datatype Result<T> = Ok(value: T) | Err(error: Error)

  function Min(a: int, b: int): int
  {
    if a <= b then a else b
  }
}
