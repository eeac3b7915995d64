/** Results for operations that raise, optional values, and bytes. */
module Wrappers {
  type Byte = b: nat | b < 0x100

  datatype Option<+T> = None | Some(value: T)

  datatype Result<+T> = Ok(value: T) | Err(error: Error)

  /** The exceptions the modelled code raises. */
  datatype Error =
    | UnknownTenant
    | PlaneOutOfRange
    | SpineOutOfRange
    | HostOutOfRange
    | BadRtt
    | NegativeCount
    | SeqNotUint32
    | FieldOutOfRange
    | TooShort
    | BadMagic
    | BadVersion
    | TooManyRecords
    | WrongPlaneCount
    | NoPairs
    | BadPercentile
}
