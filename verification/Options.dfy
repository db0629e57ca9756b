/** The conventional present/absent value shared by the other modules. */
module Options {
  datatype Option<+T> = None | Some(value: T)
}
