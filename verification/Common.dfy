/** Types shared by all models. */
module Optional {
  datatype Option<+T> = None | Some(value: T) {
    function GetOr(default: T): T {
      if Some? then value else default
    }
  }
}

module Results {
  /** A value or an error whose kind does not matter. */
  datatype Result<+T> = Ok(value: T) | Err
}

module Octets {
  type Byte = b: int | 0 <= b < 256
  type Bytes = seq<Byte>
}
