// Nullable columns, pointers that may be nil, and operations that may fail.
module Basics {
  datatype Option<+T> = None | Some(value: T)

  datatype Result<+T, +E> = Ok(value: T) | Err(error: E)

  function Coalesce<T>(o: Option<T>, otherwise: T): T {
    if o.Some? then o.value else otherwise
  }
}
