/** A value that may be absent: a nil reference, an empty result or a missing entry of the source. */
module Options {

  datatype Option<T> = None | Some(value: T)
}
