/** The optional value the component writes as `null` (no edit target) or as
    the empty string (no alarm). */
module Options {
  datatype Option<T> = None | Some(value: T)
}
