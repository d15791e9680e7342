/** The optional value used for datasets that may lack error arrays, for
    lookups that may fail and for expression evaluation that may raise. */
module Options {
  datatype Option<+T> = None | Some(value: T)
}
