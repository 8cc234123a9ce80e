/** A value that may be missing: a NULL pointer, a search without a hit, a refused parse. */
module Options {

  datatype Option<+T> = None | Some(value: T)
}
