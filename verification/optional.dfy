/** A value that may be absent: JavaScript's `undefined` result of a failed
    lookup (`Array.prototype.find`, optional chaining) in the quiz code. */
module Optional {

  datatype Option<+T> = None | Some(value: T)
}
