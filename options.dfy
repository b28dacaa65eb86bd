/** The optional value used throughout the model: Java's nullable references. */
module Options {

  datatype Option<+T> = None | Some(value: T)
}
