/** A value that may be missing: a null pointer, a thrown exception, an absent map key. */
module Options {

  datatype Option<+T> = None | Some(value: T)
}
