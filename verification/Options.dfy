/** The optional value used throughout, in place of the source's `Option` and of its missing replies. */
module Options {
  datatype Option<+T> = None | Some(value: T)
}
