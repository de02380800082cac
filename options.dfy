/** The optional value a parse yields when it can fail. */
module Options {

  datatype Option<+T> = None | Some(value: T)
}
