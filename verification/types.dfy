/** Value types shared by every part of the adapter model: raw bytes, the
    16-bit HTTP status code, and the two failure-carrying wrappers. Errors in
    the adapter are message strings (`anyhow` errors, and plain `String`s
    from the body reader), so `Result` carries a `string` on its failure
    side. */
module Types {

  newtype byte = x: int | 0 <= x < 0x100

  type Bytes = seq<byte>

  /** Status codes are `u16` throughout the adapter. */
  newtype u16 = x: int | 0 <= x < 0x1_0000

  datatype Option<+T> = None | Some(value: T) {

    /** The wrapped value, or `default` when there is none (`unwrap_or_default`). */
    function GetOr(default: T): T {
      match this
      case Some(v) => v
      case None => default
    }
  }

  datatype Result<+T> = Ok(value: T) | Err(error: string)
}
