/** An optional value: a JSON field that is absent, a JavaScript `undefined` or `NaN`. */
module Options {

  datatype Option<+T> = None | Some(value: T)
}
