/** An optional value: the model's stand-in for Python's `None` and for a raised lookup error. */
module Options {

  datatype Option<+T> = None | Some(value: T)
}
