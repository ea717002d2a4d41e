/** The usual Some/None wrapper, for the .NET `TryParse` results and absent rows. */
module Optional {
  datatype Option<+T> = None | Some(value: T)
}
