/** The absent-or-present value used wherever the program returns None or refuses. */
module Options {
  datatype Option<+T> = None | Some(value: T)

  /** The value, or the default of a missing configuration entry. */
  function Or<T>(o: Option<T>, default: T): (r: T)
    ensures if o == None then r == default else o == Some(r)
  {
    if o.Some? then o.value else default
  }
}
