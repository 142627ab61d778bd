/** The optional value used wherever the stored document or a request may lack a field. */
module Wrappers {
  datatype Option<+T> = None | Some(value: T)
}
