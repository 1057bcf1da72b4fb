/** An optional value: an environment variable that may be unset, a
    character that may be absent from a string, a pointer that may be NULL. */
module Options {
  datatype Option<+T> = None | Some(value: T)
}
