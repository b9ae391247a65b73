/** Optional values, fallible results and parsed texts, used by every other module. */
module Wrappers {
  datatype Option<+T> = None | Some(value: T)

  datatype Result<+T, +E> = Ok(value: T) | Err(error: E)

  /** A text from a configuration or a node object, together with what it parses to, if it does. */
  datatype Field<+T> = Field(text: string, parsed: Option<T>)
}
