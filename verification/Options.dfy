/** A value that may be missing: nil pointers, absent map entries and error returns without a value. */
module Options {

  datatype Option<+T> = None | Some(value: T)
}
