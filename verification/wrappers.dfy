/** The absent-or-present value used for optional request fields, optional
    record fields and the results of store lookups. */
module Wrappers {

  datatype Option<+T> = None | Some(value: T)
}
