/** The optional value used wherever the source returns "npos", NULL or nothing. */
module Optional {
  datatype Option<T> = None | Some(value: T)
}
