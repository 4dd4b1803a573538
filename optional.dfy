/** A value that may be absent: a file that may not exist, a check that may raise. */
module Optional {
  datatype Option<+T> = None | Some(value: T)
}
