/** The one value-or-nothing type used throughout the project. */
module Options {
  datatype Option<+T> = None | Some(value: T)
}
