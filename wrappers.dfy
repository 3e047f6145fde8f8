/** The optional value used for the snake's pending direction and its last vacated cell. */
module Wrappers {
  datatype Option<+T> = None | Some(value: T)
}
