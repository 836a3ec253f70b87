/** The optional value used wherever the server answers `null`. */
module Options {
  datatype Option<+T> = None | Some(value: T)
}
