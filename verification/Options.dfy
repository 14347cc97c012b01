/** A value that may be missing: NULL in the C client, None in the Python programs. */
module Options {
  datatype Option<+T> = None | Some(value: T)
}
