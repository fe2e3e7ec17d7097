/** Values as the request handlers receive them from Express: a field of the
    request body or query may be absent, and the handlers test presence with
    JavaScript truthiness (`!x`). */
module JsValues {

  /** An absent (`undefined`) or present request field. */
  datatype Option<+T> = None | Some(value: T)

  /** `!!x` for a JSON number: absent and 0 are falsy, every other number is truthy. */
  predicate TruthyNumber(x: Option<int>)
  {
    x.Some? && x.value != 0
  }
}
