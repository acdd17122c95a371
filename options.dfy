/** The optional value used wherever the components hold `null` or `undefined`. */
module Options {

  datatype Option<+T> = None | Some(value: T)
}
