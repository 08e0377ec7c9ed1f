/** Small value types shared by every module of the model. */
module Common {

  /** `null`/`undefined` versus a present value. */
  datatype Option<+T> = None | Some(value: T) {
    function GetOr(default: T): T {
      match this
      case Some(v) => v
      case None => default
    }
  }

  /** A value or the error a call would throw. */
  datatype Result<+T, +E> = Ok(value: T) | Err(error: E)

  /** One octet of a Node.js `Buffer`. */
  newtype byte = b: int | 0 <= b < 256

  type Bytes = seq<byte>
}
