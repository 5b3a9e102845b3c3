/** The absent-or-present values the services pass around as `null` and `undefined`. */
module Options {
  datatype Option<+T> = None | Some(value: T)
}
