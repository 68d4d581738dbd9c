/** The Some/None datatype that stands in for a pointer that may be NULL. */
module Optional {

  datatype Option<+T> = None | Some(value: T)
}
