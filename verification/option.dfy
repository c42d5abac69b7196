/** An optional value: stands for a nullable pointer of the source. */
module Options {
  datatype Option<+T> = None | Some(value: T)
}
