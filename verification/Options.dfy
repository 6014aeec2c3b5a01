/** The conventional optional value, used where the C++ passes a pointer that may be null. */
module Options {
  datatype Option<+T> = None | Some(value: T)
}
