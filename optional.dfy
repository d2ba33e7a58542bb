/** An optional value: the model's counterpart of Python's `None`-or-value arguments and of a header
    that may be absent from a response. */
module Optional {

  datatype Option<+T> = None | Some(value: T)
}
