/** The optional value used for JavaScript's `null` / `undefined` and for absent results. */
module Options {
  datatype Option<+T> = None | Some(value: T)
}
