/** Values that may be absent, and outcomes of code that may stop the program. */
module Options {
  datatype Option<+T> = None | Some(value: T)

  datatype Outcome<+T> = Ok(value: T) | Stop
}
