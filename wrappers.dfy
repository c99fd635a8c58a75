/** Optional values and outcomes shared by every module of the model. */
module Wrappers {

  /** A value that may be missing (JavaScript `null` / `undefined`). */
  datatype Option<+T> = None | Some(value: T)

  /** The outcome of a call into a collaborator: a value, or a failure carrying a message. */
  datatype Result<+T> = Ok(value: T) | Err(error: string)

  /** JavaScript truthiness of an optional string: present and not empty. */
  predicate Truthy(o: Option<string>)
  {
    o.Some? && o.value != ""
  }
}
