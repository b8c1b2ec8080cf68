/** A value that may be absent, as Python's `Optional[...]`. */
module Optional {

  datatype Option<+T> = None | Some(value: T)
}
