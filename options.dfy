/** An optional value: the model's stand-in for a JavaScript variable that may hold `null`. */
module Options {

  datatype Option<+T> = None | Some(value: T)
}
