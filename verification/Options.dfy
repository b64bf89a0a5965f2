/** A value that may be missing: an unreadable file, an absent callback, a free lock. */
module Options {
  datatype Option<+T> = None | Some(value: T)
}
