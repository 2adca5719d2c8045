/** The types that the containers of this repository are templates over. */
module Values {
  type Key(==, !new)
  type Value(==, !new)
}

module Options {
  datatype Option<+T> = None | Some(value: T)
}
