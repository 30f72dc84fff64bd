/** Result shapes shared by every module. */
module Common {

  datatype Option<+T> = None | Some(value: T)

  /** The source's Result: a value, or an error code. */
  datatype Result<+T> = Ok(value: T) | Err(code: string)
}

/** Bytes, for the modules that read and write them. */
module Octets {

  type Byte = n: nat | n < 256
  type Bytes = seq<Byte>
}
