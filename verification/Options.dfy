/** A value that may be missing: the source's null, undefined, nil and missing map entries. */
module Options {
  datatype Option<+T> = None | Some(value: T)
}
