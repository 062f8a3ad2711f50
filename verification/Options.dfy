/** An absent value or an error without a message. */
module Options {
  datatype Option<+T> = None | Some(value: T)
}
