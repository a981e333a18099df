/** The optional-value datatype shared by the lookups of the model:
    `None` stands for the `null` that a Mongo `findOne` yields on a miss. */
module Wrappers {
  datatype Option<+T> = None | Some(value: T)
}
