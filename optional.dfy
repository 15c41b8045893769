/** An optional value: the model's stand-in for a JavaScript result that may be `null`. */
module Optional {

  datatype Option<+T> = None | Some(value: T)
}
