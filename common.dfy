/** Small helpers shared by the harness synthesizer and the BMC driver. */
module Common {

  /** A value that may be absent: a null pointer or an unset result in the source. */
  datatype Option<+T> = None | Some(value: T)
}
