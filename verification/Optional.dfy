/** A value that may be missing: the null pointers, nils and absent registrations of the source. */
module Optional {
  datatype Option<+T> = None | Some(value: T)
}
