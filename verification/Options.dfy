/** A value that may be missing: a nil error, a map miss, an absent limiter. */
module Options {

  datatype Option<T> = None | Some(value: T)
}
