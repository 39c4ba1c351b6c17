/** Small datatypes and the time unit shared by every component. */
module Basics {

  datatype Option<+T> = None | Some(value: T)

  datatype Result<+T, +E> = Ok(value: T) | Err(error: E)

  /** The one clock counts microseconds, the resolution of the timestamps the services take. */
  const SECOND: int := 1_000_000

  /** The text form of a UUID has no colon in it; nothing else about it is used. */
  type Uuid = s: string | ':' !in s witness ""
}
