// The error side of the engine's `Result`s. Only the variant of a
// `SimulatorError` is modelled; its message text is not.
module Errors {

  datatype Option<T> = None | Some(value: T)

  /** The `SimulatorError` variants the chip engine raises. */
  datatype Fault = Hardware | Parse | PinNotFound

  datatype Result<T> = Ok(value: T) | Err(fault: Fault)
}
