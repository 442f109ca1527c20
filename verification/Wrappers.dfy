/** Optional values, Go's nil pointers and Python's None, and the outcome of a write. */
module Wrappers {
  datatype Option<+T> = None | Some(value: T)

  /** How a write to Redis or the database ends. Done: applied and reported. Refused: not applied, an
      error reported. Lost: applied, but the reply never arrived and the caller sees an error. */
  datatype Reply = Done | Refused | Lost
}
