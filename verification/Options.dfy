/** The optional value used by every model of the project. */
module Options {
  datatype Option<+T> = None | Some(value: T)
}
