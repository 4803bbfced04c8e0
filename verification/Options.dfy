/** A value that may be missing: a nil map, an absent object, a NotFound answer. */
module Options {

  datatype Option<+T> = None | Some(value: T)
}
