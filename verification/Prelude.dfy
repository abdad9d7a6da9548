/** Small shared datatypes. */
module Prelude {

  datatype Option<+T> = None | Some(value: T)

  datatype Result<+T, +E> = Success(value: T) | Failure(error: E)

  /** What a reader finds in a file: a write in progress reads as torn. */
  datatype Content<+T> = Torn | Whole(value: T)

  datatype Harness = Claude | Cursor | Codex
}
