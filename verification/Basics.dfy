/** What every other module uses. */
module Basics {
  datatype Option<+T> = None | Some(value: T)
}
