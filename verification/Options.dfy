/** An absent or present value: a `null`, a missing field, a document that was deleted. */
module Options {
  datatype Option<+T> = None | Some(value: T)
}
