/** Types shared by every model. */
module Common {

  datatype Option<+T> = None | Some(value: T)

  /** UUIDs and other opaque keys: only equality matters. */
  datatype Id = Id(number: int)
}
