// A value that may be missing: `undefined` and `null` in the sources.
module Options {
  datatype Option<+T> = None | Some(value: T)
}
