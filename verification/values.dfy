/** Optional values, results, and the JavaScript notion of a truthy string.

    The bot reads many fields that may be absent (`undefined`) or present but
    empty; JavaScript's `a || b` treats both the same way. `Truthy` names that
    test once so every fallback chain in the model uses it.
 */
module Values {

  /** A field that may be absent. */
  datatype Option<+T> = None | Some(value: T)

  /** The outcome of an operation that can raise an error with a message. */
  datatype Result<+T> = Ok(value: T) | Err(message: string)

  /** An optional string is truthy when it is present and not empty. */
  predicate Truthy(o: Option<string>) {
    o.Some? && o.value != ""
  }

  /** JavaScript's `a || b` for an optional string `a` and a string `b`. */
  function Or(a: Option<string>, b: string): string {
    if Truthy(a) then a.value else b
  }
}
