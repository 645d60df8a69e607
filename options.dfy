/** The optional value used throughout the model (a found index, a parsed URL). */
module Options {
  datatype Option<+T> = None | Some(value: T)
}
