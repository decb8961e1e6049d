/** Small shared datatypes. */
module Common {

  /** A value that may be absent: JavaScript's `undefined`, or a lookup that found nothing. */
  datatype Option<+T> = None | Some(value: T)

  /** JavaScript truthiness of an optional string: absent and empty are both falsy. */
  predicate Truthy(o: Option<string>)
  {
    o.Some? && o.value != ""
  }
}
