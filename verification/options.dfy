/** An optional value: a JSON field that may be absent, a lookup that may
    miss, a handler that may not have run. */
module Options {
  datatype Option<+T> = None | Some(value: T)
}
