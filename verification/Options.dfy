/** A value that may be missing: std::optional, a failed pop, a thread's local that is not set. */
module Options {
  datatype Option<+T> = None | Some(value: T)
}
