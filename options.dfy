/** The optional value the parsers and searches answer with: `None` where the source reports failure or throws. */
module Options {
  datatype Option<T> = None | Some(value: T)
}
