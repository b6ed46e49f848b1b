/** A value that may be missing, for the null pointers of the code. */
module Options {

  datatype Option<T> = None | Some(value: T)
}
