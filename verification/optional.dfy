/** A value that may be absent: JavaScript's `null` / `undefined` and the
    "no decision" result of the gesture classifiers. */
module Optional {

  datatype Option<+T> = None | Some(value: T)
}
