/** A nullable value: `None` stands for a database NULL or a Python `None`. */
module Wrappers {
  datatype Option<+T> = None | Some(value: T)
}
