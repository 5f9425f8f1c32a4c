/** The optional value used wherever the catalogue looks something up and may find nothing. */
module Wrappers {

  /** `None` stands for JavaScript's `undefined` returned by a failed lookup. */
  datatype Option<+T> = None | Some(value: T)
}
