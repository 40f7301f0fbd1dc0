/** What the modules share. */
module Base {

  datatype Option<T> = None | Some(value: T)
}
