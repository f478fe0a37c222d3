/** A value that may be absent: a missing localStorage key, or a JSON `null`. */
module Options {
  datatype Option<+T> = None | Some(value: T)
}
