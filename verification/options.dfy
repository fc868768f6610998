/** A value that may be absent: the model of a Go value that may be `nil`. */
module Options {

  datatype Option<+T> = None | Some(value: T)
}
