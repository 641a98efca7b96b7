/** An optional value: a page whose text could be read, a matching document's position. */
module Options {

  datatype Option<+T> = None | Some(value: T)
}
