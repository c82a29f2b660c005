/** JavaScript's `null`/`undefined` against a present value. */
module Optional {

  datatype Option<+T> = None | Some(value: T)
}
