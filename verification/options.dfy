/** An optional value: an argument the caller may leave out, or a path that is not drawn. */
module Options {

  datatype Option<+T> = None | Some(value: T)
}
