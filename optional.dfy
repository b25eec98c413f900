/** The optional value used for `undefined` results: a missing attribute, a missing row. */
module Optional {
  datatype Option<T> = None | Some(value: T)
}
